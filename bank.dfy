/**
 The fixed knowledge base of question/reference-answer pairs and the reading
 passage, identical in all five scripts, and the shape of one call to
 `random.shuffle(list(crla_knowledge_base.keys()))`: an ordering of the
 bank's five questions, each exactly once.
 */
module Bank {

  const Passage: string :=
    "A child broke a vase while playing indoors. At first, they hid the truth out of fear. Later, they told their mother, who forgave them and praised their honesty."

  const MainIdea: string := "What is the main idea of the story?"
  const Guilty: string := "Why did the character feel guilty?"
  const Lesson: string := "What lesson did the story teach?"
  // The verifier only sees the characters of short literals, so the longer texts are written in pieces.
  const Mother: string := "What did the mother do " + "after learning the truth?"
  const Shoes: string := "How would you react if you " + "were in the character's shoes?"

  /** The entries of `crla_knowledge_base`, question and reference answer, in the order the dict literal lists them. */
  const Entries: seq<(string, string)> := [
    (MainIdea, "The main idea is that honesty is always the best policy."),
    (Guilty, "Because they lied about breaking the vase."),
    (Lesson, "The story teaches that telling the truth builds trust."),
    (Mother, "She forgave the child and appreciated their honesty."),
    (Shoes, "I would also tell the truth even if it's hard.")
  ]
  /** The dict a literal with these entries evaluates to: each entry is inserted in turn, a later one replacing an earlier one with the same key. */
  function ToMap(entries: seq<(string, string)>): map<string, string> {
    if entries == [] then map[] else ToMap(entries[..|entries| - 1])[entries[|entries| - 1].0 := entries[|entries| - 1].1]
  }

  const Knowledge: map<string, string> := ToMap(Entries)

  /** Number of question slots each script shows (`range(5)`, `[False] * 5`, `questions[:5]`). */
  const SlotCount: nat := 5

  predicate Distinct(qs: seq<string>) {
    forall i, j :: 0 <= i < j < |qs| ==> qs[i] != qs[j]
  }

  /** A possible result of shuffling the bank's questions: each of them, once, in some order. */
  predicate IsShuffle(qs: seq<string>) {
    && |qs| == SlotCount
    && (forall i :: 0 <= i < |qs| ==> qs[i] in Knowledge)
    && Distinct(qs)
  }

  lemma QuestionsDiffer()
    ensures MainIdea != Guilty && MainIdea != Lesson && MainIdea != Mother && MainIdea != Shoes
    ensures Guilty != Lesson && Guilty != Mother && Guilty != Shoes
    ensures Lesson != Mother && Lesson != Shoes
    ensures Mother != Shoes
  {
    assert MainIdea[5] == 'i' && Lesson[5] == 'l' && Mother[5] == 'd';
    assert Guilty[2] == 'y' && MainIdea[2] == 'a' && Lesson[2] == 'a' && Mother[2] == 'a';
    assert Shoes[0] == 'H' && MainIdea[0] == 'W' && Guilty[0] == 'W' && Lesson[0] == 'W' && Mother[0] == 'W';
  }

  /** The dict's keys are the five questions. */
  lemma KnowledgeKeys()
    ensures Knowledge.Keys == {MainIdea, Guilty, Lesson, Mother, Shoes}
  {
    var e := Entries;
    assert e[0].0 == MainIdea && e[1].0 == Guilty && e[2].0 == Lesson && e[3].0 == Mother && e[4].0 == Shoes;
    assert ToMap(e[..1]).Keys == {MainIdea} by { assert e[..1][..0] == []; }
    assert ToMap(e[..2]).Keys == {MainIdea, Guilty} by { assert e[..2][..1] == e[..1]; }
    assert ToMap(e[..3]).Keys == {MainIdea, Guilty, Lesson} by { assert e[..3][..2] == e[..2]; }
    assert ToMap(e[..4]).Keys == {MainIdea, Guilty, Lesson, Mother} by { assert e[..4][..3] == e[..3]; }
    assert e[..5][..4] == e[..4] && e[..5] == e;
  }

  /** The bank has exactly the five listed questions as keys. */
  lemma BankSize()
    ensures Knowledge.Keys == {MainIdea, Guilty, Lesson, Mother, Shoes}
    ensures |Knowledge| == SlotCount
  {
    KnowledgeKeys();
    QuestionsDiffer();
    var s2 := {MainIdea} + {Guilty};
    var s3 := s2 + {Lesson};
    var s4 := s3 + {Mother};
    var s5 := s4 + {Shoes};
    assert |s5| == 5;
    assert Knowledge.Keys == s5;
  }

  lemma {:induction false} DistinctElements(qs: seq<string>)
    requires Distinct(qs)
    ensures |set i | 0 <= i < |qs| :: qs[i]| == |qs|
  {
    if qs != [] {
      var rest := qs[..|qs| - 1];
      DistinctElements(rest);
      var last := qs[|qs| - 1];
      assert (set i | 0 <= i < |qs| :: qs[i]) == (set i | 0 <= i < |rest| :: rest[i]) + {last};
      assert last !in (set i | 0 <= i < |rest| :: rest[i]);
    }
  }

  /** A shuffle has exactly the five slots, and every question of the bank appears in it. */
  lemma ShuffleCoversBank(qs: seq<string>)
    requires IsShuffle(qs)
    ensures |qs| == SlotCount
    ensures forall q :: q in Knowledge <==> q in qs
  {
    BankSize();
    DistinctElements(qs);
    var shown := set i | 0 <= i < |qs| :: qs[i];
    assert shown <= Knowledge.Keys;
    assert |Knowledge.Keys - shown| == 0 by {
      assert |Knowledge.Keys| == |shown| + |Knowledge.Keys - shown|;
    }
    assert shown == Knowledge.Keys;
    forall q | q in Knowledge ensures q in qs {
      assert q in shown;
    }
  }
}
