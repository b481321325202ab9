/**
 What the three session scripts (test2.py, test3.py, test4.py) share: the
 page machine and the once-per-slot scoring step, as functions on values.
 The session classes are specified by these functions.
 */
module Engine {
  import opened Wrappers
  import opened Bank
  import opened Scoring
  import opened Feedback

  datatype Page = Prompt | Retell | Questions

  function Rank(p: Page): nat {
    match p
    case Prompt => 0
    case Retell => 1
    case Questions => 2
  }

  /** The page one run of the script leaves behind, starting on page p: the "ready" button moves
      prompt to retell, the "proceed" button moves retell to questions, and questions never changes. */
  function NextPage(p: Page, ready: bool, proceed: bool): (q: Page)
    ensures Rank(p) <= Rank(q) <= Rank(p) + 1
    ensures q != p <==> (p == Prompt && ready) || (p == Retell && proceed)
  {
    match p
    case Prompt => if ready then Retell else Prompt
    case Retell => if proceed then Questions else Retell
    case Questions => Questions
  }

  /** The two buttons as pressed in one run. */
  datatype Buttons = Buttons(ready: bool, proceed: bool)

  function PageAfter(p: Page, runs: seq<Buttons>): Page
    decreases |runs|
  {
    if runs == [] then p else PageAfter(NextPage(p, runs[0].ready, runs[0].proceed), runs[1..])
  }

  /** Over any sequence of runs the page never goes back, advances at most one step per run, and stays on questions. */
  lemma {:induction false} PageAfterMonotone(p: Page, runs: seq<Buttons>)
    ensures Rank(p) <= Rank(PageAfter(p, runs)) <= Rank(p) + |runs|
    ensures p == Questions ==> PageAfter(p, runs) == Questions
    decreases |runs|
  {
    if runs != [] {
      PageAfterMonotone(NextPage(p, runs[0].ready, runs[0].proceed), runs[1..]);
    }
  }

  /** One scored answer: the slot it came from and its transcript. Not stored by the scripts;
      kept so that the invariants can say where every score and label came from. */
  datatype Arrival = Arrival(slot: nat, transcript: string)

  /** The session's `user_scores`, `labels` and `answered`, with the arrivals beside them. */
  datatype Tally = Tally(userScores: seq<int>, labels: seq<string>, answered: seq<bool>, arrivals: seq<Arrival>)

  /** The one-time initialisation: two empty lists and `[False] * 5`. */
  function Fresh(): (t: Tally)
    ensures |t.answered| == SlotCount && forall i :: 0 <= i < SlotCount ==> !t.answered[i]
  {
    Tally([], [], [false, false, false, false, false], [])
  }

  function CountTrue(flags: seq<bool>): nat {
    if flags == [] then 0 else CountTrue(flags[..|flags| - 1]) + (if flags[|flags| - 1] then 1 else 0)
  }

  /** One iteration of the slot loop: slot i is scored against `question` only when it has input and
      is not yet answered; scoring appends one score and one label and sets the flag. */
  function Step(t: Tally, i: nat, question: string, input: Option<string>): Tally
    requires i < |t.answered| && question in Knowledge
  {
    if input.Some? && !t.answered[i] then
      Tally(t.userScores + [ScoreAnswer(input.value, Knowledge[question])],
            t.labels + [question],
            t.answered[i := true],
            t.arrivals + [Arrival(i, input.value)])
    else
      t
  }

  /** The slot loop over slots 0..n-1, slot i scored against questions[i]. */
  function ScoreSlots(t: Tally, questions: seq<string>, inputs: seq<Option<string>>, n: nat): (r: Tally)
    requires n <= |questions| && n <= |inputs| && n <= |t.answered|
    requires forall i :: 0 <= i < n ==> questions[i] in Knowledge
    ensures |r.answered| == |t.answered|
  {
    if n == 0 then t else Step(ScoreSlots(t, questions, inputs, n - 1), n - 1, questions[n - 1], inputs[n - 1])
  }

  /** The slot loop keeps the old entries, and a slot ends up answered exactly when it was answered
      before or had input now. */
  lemma {:induction false} ScoreSlotsEffect(t: Tally, questions: seq<string>, inputs: seq<Option<string>>, n: nat)
    requires n <= |questions| && n <= |inputs| && n <= |t.answered|
    requires forall i :: 0 <= i < n ==> questions[i] in Knowledge
    ensures var r := ScoreSlots(t, questions, inputs, n);
      && t.userScores <= r.userScores && t.labels <= r.labels && t.arrivals <= r.arrivals
      && forall i :: 0 <= i < |t.answered| ==> r.answered[i] == (t.answered[i] || (i < n && inputs[i].Some?))
  {
    if n > 0 {
      ScoreSlotsEffect(t, questions, inputs, n - 1);
    }
  }

  /** What a run of the slot loop appends: each new entry comes from a slot below n that had input and
      was not answered before; its transcript is that input, its label that slot's question, and its
      score that transcript scored against the label's reference. The new slots come in increasing order. */
  lemma {:induction false} ScoreSlotsAppends(t: Tally, questions: seq<string>, inputs: seq<Option<string>>, n: nat)
    requires n <= |questions| && n <= |inputs| && n <= |t.answered|
    requires forall i :: 0 <= i < n ==> questions[i] in Knowledge
    requires |t.userScores| == |t.labels| == |t.arrivals|
    ensures var r := ScoreSlots(t, questions, inputs, n);
      && |r.userScores| == |r.labels| == |r.arrivals|
      && (forall k :: |t.arrivals| <= k < |r.arrivals| ==>
            var i := r.arrivals[k].slot;
            && i < n && inputs[i].Some? && !t.answered[i]
            && r.arrivals[k].transcript == inputs[i].value
            && r.labels[k] == questions[i]
            && r.userScores[k] == ScoreAnswer(inputs[i].value, Knowledge[questions[i]]))
      && (forall k, l :: |t.arrivals| <= k < l < |r.arrivals| ==> r.arrivals[k].slot < r.arrivals[l].slot)
  {
    if n > 0 {
      ScoreSlotsAppends(t, questions, inputs, n - 1);
      ScoreSlotsEffect(t, questions, inputs, n - 1);
      var p := ScoreSlots(t, questions, inputs, n - 1);
      var r := ScoreSlots(t, questions, inputs, n);
      assert r == Step(p, n - 1, questions[n - 1], inputs[n - 1]);
      if inputs[n - 1].Some? && !p.answered[n - 1] {
        assert !t.answered[n - 1];
        forall k | |t.arrivals| <= k < |r.arrivals|
          ensures r.arrivals[k].slot < n
        {
          if k < |p.arrivals| {
            assert r.arrivals[k] == p.arrivals[k];
          }
        }
      }
    }
  }

  /** The converse of `ScoreSlotsAppends`: every slot below n that had input and was not answered before
      gets an entry among the appended ones; with the increasing order there, exactly one. */
  lemma {:induction false} ScoreSlotsCovers(t: Tally, questions: seq<string>, inputs: seq<Option<string>>, n: nat)
    requires n <= |questions| && n <= |inputs| && n <= |t.answered|
    requires forall i :: 0 <= i < n ==> questions[i] in Knowledge
    ensures var r := ScoreSlots(t, questions, inputs, n);
      forall i :: 0 <= i < n && inputs[i].Some? && !t.answered[i] ==>
        exists k :: |t.arrivals| <= k < |r.arrivals| && r.arrivals[k].slot == i
  {
    if n > 0 {
      ScoreSlotsCovers(t, questions, inputs, n - 1);
      ScoreSlotsEffect(t, questions, inputs, n - 1);
      var p := ScoreSlots(t, questions, inputs, n - 1);
      var r := ScoreSlots(t, questions, inputs, n);
      assert r == Step(p, n - 1, questions[n - 1], inputs[n - 1]);
      assert t.arrivals <= p.arrivals <= r.arrivals;
      forall i | 0 <= i < n && inputs[i].Some? && !t.answered[i]
        ensures exists k :: |t.arrivals| <= k < |r.arrivals| && r.arrivals[k].slot == i
      {
        if i == n - 1 {
          assert !p.answered[n - 1];
          assert r.arrivals[|p.arrivals|].slot == i;
        } else {
          var k :| |t.arrivals| <= k < |p.arrivals| && p.arrivals[k].slot == i;
          assert r.arrivals[k] == p.arrivals[k];
        }
      }
      assert r == ScoreSlots(t, questions, inputs, n);
    }
  }

  /** Five flags, and one score and one label per true flag. */
  predicate Sized(userScores: seq<int>, labels: seq<string>, answered: seq<bool>) {
    |answered| == SlotCount && |userScores| == |labels| == CountTrue(answered)
  }

  /** The session invariant: five flags; one score, one label and one arrival per true flag; arrivals
      from distinct answered slots; every score is the containment score of its transcript against
      the reference answer of its label. */
  ghost predicate Consistent(t: Tally) {
    && Sized(t.userScores, t.labels, t.answered)
    && |t.arrivals| == |t.labels|
    && (forall k :: 0 <= k < |t.arrivals| ==>
          && t.arrivals[k].slot < SlotCount
          && t.answered[t.arrivals[k].slot]
          && t.labels[k] in Knowledge
          && t.userScores[k] == ScoreAnswer(t.arrivals[k].transcript, Knowledge[t.labels[k]]))
    && (forall k, l :: 0 <= k < l < |t.arrivals| ==> t.arrivals[k].slot != t.arrivals[l].slot)
  }

  /** Every label is the question shown in its arrival's slot: q_data frozen at initialisation. */
  ghost predicate LabelsFrom(t: Tally, questions: seq<string>) {
    && |t.labels| == |t.arrivals|
    && forall k :: 0 <= k < |t.arrivals| ==>
         t.arrivals[k].slot < |questions| && t.labels[k] == questions[t.arrivals[k].slot]
  }

  lemma {:induction false} CountTrueBound(flags: seq<bool>)
    ensures CountTrue(flags) <= |flags|
    ensures (forall i :: 0 <= i < |flags| ==> flags[i]) ==> CountTrue(flags) == |flags|
  {
    if flags != [] {
      CountTrueBound(flags[..|flags| - 1]);
    }
  }

  lemma {:induction false} CountTrueSet(flags: seq<bool>, i: nat)
    requires i < |flags| && !flags[i]
    ensures CountTrue(flags[i := true]) == CountTrue(flags) + 1
  {
    var n := |flags|;
    if i < n - 1 {
      assert flags[i := true][..n - 1] == flags[..n - 1][i := true];
      CountTrueSet(flags[..n - 1], i);
    } else {
      assert flags[i := true][..n - 1] == flags[..n - 1];
    }
  }

  /** The one-time initialisation satisfies the session invariant. */
  lemma FreshIsConsistent()
    ensures Consistent(Fresh())
  {
    var f := [false, false, false, false, false];
    assert CountTrue(f[..1]) == 0 by { assert f[..1][..0] == []; }
    assert CountTrue(f[..2]) == 0 by { assert f[..2][..1] == f[..1]; }
    assert CountTrue(f[..3]) == 0 by { assert f[..3][..2] == f[..2]; }
    assert CountTrue(f[..4]) == 0 by { assert f[..4][..3] == f[..3]; }
    assert f[..5] == f;
  }

  lemma StepKeepsConsistent(t: Tally, i: nat, question: string, input: Option<string>)
    requires Consistent(t) && i < SlotCount && question in Knowledge
    ensures Consistent(Step(t, i, question, input))
  {
    if input.Some? && !t.answered[i] {
      CountTrueSet(t.answered, i);
      var r := Step(t, i, question, input);
      forall k | 0 <= k < |r.arrivals|
        ensures r.arrivals[k].slot < SlotCount && r.answered[r.arrivals[k].slot]
      {
        if k < |t.arrivals| {
          assert r.arrivals[k] == t.arrivals[k];
        }
      }
    }
  }

  lemma StepKeepsLabelsFrom(t: Tally, i: nat, questions: seq<string>, input: Option<string>)
    requires i < |t.answered| && i < |questions| && questions[i] in Knowledge
    requires LabelsFrom(t, questions)
    ensures LabelsFrom(Step(t, i, questions[i], input), questions)
  {
  }

  /** A run of the slot loop keeps the session invariant. */
  lemma {:induction false} ScoreSlotsKeepsConsistent(t: Tally, questions: seq<string>, inputs: seq<Option<string>>, n: nat)
    requires Consistent(t)
    requires n <= |questions| && n <= |inputs| && n <= SlotCount
    requires forall i :: 0 <= i < n ==> questions[i] in Knowledge
    ensures Consistent(ScoreSlots(t, questions, inputs, n))
  {
    if n > 0 {
      ScoreSlotsKeepsConsistent(t, questions, inputs, n - 1);
      StepKeepsConsistent(ScoreSlots(t, questions, inputs, n - 1), n - 1, questions[n - 1], inputs[n - 1]);
    }
  }

  /** Scoring against a fixed question list records, for every arrival, the question of its slot. */
  lemma {:induction false} ScoreSlotsKeepsLabelsFrom(t: Tally, questions: seq<string>, inputs: seq<Option<string>>, n: nat)
    requires LabelsFrom(t, questions)
    requires n <= |questions| && n <= |inputs| && n <= |t.answered|
    requires forall i :: 0 <= i < n ==> questions[i] in Knowledge
    ensures LabelsFrom(ScoreSlots(t, questions, inputs, n), questions)
  {
    if n > 0 {
      ScoreSlotsKeepsLabelsFrom(t, questions, inputs, n - 1);
      StepKeepsLabelsFrom(ScoreSlots(t, questions, inputs, n - 1), n - 1, questions, inputs[n - 1]);
    }
  }

  /** Input for slots that are all answered already changes nothing, whatever questions are shown. */
  lemma {:induction false} AnsweredInputIsIgnored(t: Tally, questions: seq<string>, inputs: seq<Option<string>>, n: nat)
    requires n <= |questions| && n <= |inputs| && n <= |t.answered|
    requires forall i :: 0 <= i < n ==> questions[i] in Knowledge
    requires forall i :: 0 <= i < n && inputs[i].Some? ==> t.answered[i]
    ensures ScoreSlots(t, questions, inputs, n) == t
  {
    if n > 0 {
      AnsweredInputIsIgnored(t, questions, inputs, n - 1);
    }
  }

  /** Re-running with the same inputs is a no-op: only the first run scores them. */
  lemma RerunIsIdempotent(t: Tally, questions: seq<string>, again: seq<string>, inputs: seq<Option<string>>)
    requires |t.answered| == SlotCount && |questions| >= SlotCount && |again| >= SlotCount && |inputs| == SlotCount
    requires forall i :: 0 <= i < SlotCount ==> questions[i] in Knowledge && again[i] in Knowledge
    ensures var once := ScoreSlots(t, questions, inputs, SlotCount);
      ScoreSlots(once, again, inputs, SlotCount) == once
  {
    var once := ScoreSlots(t, questions, inputs, SlotCount);
    ScoreSlotsEffect(t, questions, inputs, SlotCount);
    AnsweredInputIsIgnored(once, again, inputs, SlotCount);
  }

  predicate AllAnswered(answered: seq<bool>) {
    forall i :: 0 <= i < |answered| ==> answered[i]
  }

  /** Once every slot is answered, no later run changes the tally, whatever is uploaded or shown. */
  lemma FinishedTallyIsFinal(t: Tally, questions: seq<string>, inputs: seq<Option<string>>)
    requires |t.answered| == SlotCount && AllAnswered(t.answered)
    requires |questions| >= SlotCount && |inputs| == SlotCount
    requires forall i :: 0 <= i < SlotCount ==> questions[i] in Knowledge
    ensures ScoreSlots(t, questions, inputs, SlotCount) == t
  {
    AnsweredInputIsIgnored(t, questions, inputs, SlotCount);
  }

  /** `if all(answered)`: the final score and the weak areas over `range(5)`, in bounds because of the sizes. */
  function FeedbackOf(userScores: seq<int>, labels: seq<string>, answered: seq<bool>): (r: Option<Report>)
    requires Sized(userScores, labels, answered)
    ensures r.Some? <==> AllAnswered(answered)
  {
    CountTrueBound(answered);
    if AllAnswered(answered) then Some(MakeReport(labels, userScores, SlotCount)) else None
  }

  /** Once every slot is answered: five scores; the final score counts the matches and lies in 0..5; the weak
      areas are exactly the zero-score labels in arrival order; and the list is empty iff the score is 5. */
  lemma FeedbackFacts(t: Tally)
    requires Consistent(t) && AllAnswered(t.answered)
    ensures |t.userScores| == |t.labels| == SlotCount
    ensures var r := FeedbackOf(t.userScores, t.labels, t.answered).value;
      && r.finalScore == multiset(t.userScores)[1]
      && 0 <= r.finalScore <= SlotCount
      && |r.weakAreas| == SlotCount - r.finalScore
      && (r.weakAreas == [] <==> r.finalScore == SlotCount)
      && |r.weakAreas| == |ZeroSlots(t.userScores, SlotCount)|
      && (forall k :: 0 <= k < |r.weakAreas| ==> r.weakAreas[k] == t.labels[ZeroSlots(t.userScores, SlotCount)[k]])
  {
    CountTrueBound(t.answered);
    assert Binary(t.userScores);
    ReportFacts(t.labels, t.userScores);
    WeakAreasAreZeroLabels(t.labels, t.userScores, SlotCount);
  }

  /** What one run displays. */
  datatype Screen =
    | PassageScreen(passage: string)
    | RetellScreen(transcript: Option<string>)
    | QuestionScreen(questions: seq<string>, feedback: Option<Report>)
}
