/**
 The feedback every script prints once scoring is done:
 `final_score = sum(user_scores)` and
 `weak_areas = [labels[i] for i in range(n) if user_scores[i] == 0]`,
 where n is `len(user_scores)` in the stateless scripts and 5 in the session ones.
 */
module Feedback {

  /** `sum(scores)`. */
  function Sum(scores: seq<int>): int {
    if scores == [] then 0 else Sum(scores[..|scores| - 1]) + scores[|scores| - 1]
  }

  /** Every score is 0 or 1, as `score_answer` produces them. */
  predicate Binary(scores: seq<int>) {
    forall k :: 0 <= k < |scores| ==> scores[k] == 0 || scores[k] == 1
  }

  /** The positions below n whose flag is set. */
  function Where(flags: seq<bool>, n: nat): (r: seq<nat>)
    requires n <= |flags|
    ensures |r| <= n
    ensures forall k :: 0 <= k < |r| ==> r[k] < n && flags[r[k]]
  {
    if n == 0 then [] else Where(flags, n - 1) + (if flags[n - 1] then [n - 1] else [])
  }

  /** The positions come in increasing order, and every flagged position below n is among them. */
  lemma {:induction false} WhereIsOrderedAndComplete(flags: seq<bool>, n: nat)
    requires n <= |flags|
    ensures var r := Where(flags, n);
      && (forall k, l :: 0 <= k < l < |r| ==> r[k] < r[l])
      && (forall i :: 0 <= i < n && flags[i] ==> i in r)
  {
    if n > 0 {
      WhereIsOrderedAndComplete(flags, n - 1);
    }
  }

  /** One flag per score: whether it is 0. */
  function IsZero(scores: seq<int>): seq<bool> {
    seq(|scores|, i requires 0 <= i < |scores| => scores[i] == 0)
  }

  /** The positions below n whose score is 0, in increasing order. */
  function ZeroSlots(scores: seq<int>, n: nat): seq<nat>
    requires n <= |scores|
  {
    Where(IsZero(scores), n)
  }

  /** The list comprehension that collects the weak areas. */
  function WeakAreas(labels: seq<string>, scores: seq<int>, n: nat): seq<string>
    requires n <= |labels| && n <= |scores|
  {
    if n == 0 then [] else WeakAreas(labels, scores, n - 1) + (if scores[n - 1] == 0 then [labels[n - 1]] else [])
  }

  datatype Report = Report(finalScore: int, weakAreas: seq<string>)

  /** The final score and the areas to improve, as printed; an empty list is the "Excellent comprehension" case. */
  function MakeReport(labels: seq<string>, scores: seq<int>, n: nat): Report
    requires n <= |labels| && n <= |scores|
  {
    Report(Sum(scores), WeakAreas(labels, scores, n))
  }

  /** The weak areas are the labels at the zero-score positions, in position order: nothing else, nothing reordered. */
  lemma {:induction false} WeakAreasAreZeroLabels(labels: seq<string>, scores: seq<int>, n: nat)
    requires n <= |labels| && n <= |scores|
    ensures |WeakAreas(labels, scores, n)| == |ZeroSlots(scores, n)|
    ensures forall k :: 0 <= k < |ZeroSlots(scores, n)| ==>
              WeakAreas(labels, scores, n)[k] == labels[ZeroSlots(scores, n)[k]]
  {
    if n > 0 {
      WeakAreasAreZeroLabels(labels, scores, n - 1);
    }
  }

  /** For 0/1 scores the sum counts the 1s, and the 0s are the rest. */
  lemma {:induction false} SumCountsOnes(scores: seq<int>)
    requires Binary(scores)
    ensures Sum(scores) == multiset(scores)[1]
    ensures multiset(scores)[0] + multiset(scores)[1] == |scores|
  {
    if scores != [] {
      var init := scores[..|scores| - 1];
      assert scores == init + [scores[|scores| - 1]];
      SumCountsOnes(init);
    }
  }

  lemma {:induction false} ZeroSlotsCountZeros(scores: seq<int>, n: nat)
    requires n <= |scores|
    ensures |ZeroSlots(scores, n)| == multiset(scores[..n])[0]
  {
    if n > 0 {
      ZeroSlotsCountZeros(scores, n - 1);
      assert scores[..n] == scores[..n - 1] + [scores[n - 1]];
    }
  }

  /** What the printed report promises about n 0/1 scores: the score counts the correct answers and lies in 0..n,
      one weak area per wrong answer, and none exactly when every answer was correct. */
  lemma ReportFacts(labels: seq<string>, scores: seq<int>)
    requires Binary(scores) && |scores| <= |labels|
    ensures var r := MakeReport(labels, scores, |scores|);
      && r.finalScore == multiset(scores)[1]
      && 0 <= r.finalScore <= |scores|
      && |r.weakAreas| == |scores| - r.finalScore
      && (r.weakAreas == [] <==> r.finalScore == |scores|)
  {
    SumCountsOnes(scores);
    ZeroSlotsCountZeros(scores, |scores|);
    WeakAreasAreZeroLabels(labels, scores, |scores|);
    assert scores[..|scores|] == scores;
  }
}
