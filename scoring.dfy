/**
 The answer check shared by all five scripts: an answer scores 1 when,
 stripped of surrounding whitespace and lower-cased, it occurs inside the
 lower-cased reference answer, and 0 otherwise. There is no special case
 for an empty answer: the empty string occurs in every reference.
 Python returns the floats 1.0 and 0.0; the model uses the integers 1 and 0.
 */
module Scoring {
  import opened Text

  /** `score_answer(answer, correct)`; the same expression is written inline in the other scripts. */
  function ScoreAnswer(answer: string, correct: string): (r: int)
    ensures r == 0 || r == 1
  {
    if Contains(Lower(correct), Lower(Strip(answer))) then 1 else 0
  }

  /** The score is 1 exactly when some stretch of the reference, lower-cased, is the stripped and lower-cased answer. */
  lemma ScoreMeansOccurrence(answer: string, correct: string)
    ensures ScoreAnswer(answer, correct) == 1 <==>
            exists i, j :: 0 <= i <= j <= |correct| && Lower(correct[i..j]) == Lower(Strip(answer))
  {
    ContainsLower(correct, Lower(Strip(answer)));
  }

  /** An empty or whitespace-only answer (the text input's default is "") scores 1 against any reference. */
  lemma BlankAnswerScoresOne(answer: string, correct: string)
    requires AllSpace(answer)
    ensures ScoreAnswer(answer, correct) == 1
  {
    ScoreMeansOccurrence(answer, correct);
    StripShape(answer);
    assert Lower(correct[0..0]) == Lower(Strip(answer));
  }

  /** Every reference answer, given back verbatim, scores 1 against itself. */
  lemma ReferenceScoresOne(correct: string)
    ensures ScoreAnswer(correct, correct) == 1
  {
    var r := Strip(correct);
    StripShape(correct);
    var i :| 0 <= i <= |correct| && OccursAt(correct, r, i);
    assert correct[i..i + |r|] == r;
    ScoreMeansOccurrence(correct, correct);
  }

  /** Letter case is ignored on both sides: answers and references that agree after lower-casing score alike. */
  lemma IgnoresCase(a1: string, a2: string, c1: string, c2: string)
    requires Lower(a1) == Lower(a2) && Lower(c1) == Lower(c2)
    ensures ScoreAnswer(a1, c1) == ScoreAnswer(a2, c2)
  {
    StripLower(a1);
    StripLower(a2);
    ScoreMeansOccurrence(a1, c1);
    ScoreMeansOccurrence(a2, c2);
  }

  /** Whitespace around the answer is ignored. */
  lemma IgnoresSurroundingSpace(p: string, answer: string, q: string, correct: string)
    requires AllSpace(p) && AllSpace(q)
    ensures ScoreAnswer(p + answer + q, correct) == ScoreAnswer(answer, correct)
  {
    StripPadded(p, answer, q);
  }
}
