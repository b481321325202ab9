/**
 test.py: one execution of the script scores all five questions of that
 execution's shuffle against the five text inputs and reports on them.
 Each text input is a string (its default is ""), so every slot is scored.
 */
module OneShot {
  import opened Bank
  import opened Scoring
  import opened Feedback

  /** The scoring loop followed by the final score and the weak areas. */
  method Assess(shuffled: seq<string>, responses: seq<string>)
    returns (userScores: seq<int>, labels: seq<string>, report: Report)
    requires IsShuffle(shuffled)
    requires |responses| == SlotCount
    ensures |userScores| == SlotCount && labels == shuffled[..SlotCount]
    ensures forall i :: 0 <= i < SlotCount ==> userScores[i] == ScoreAnswer(responses[i], Knowledge[shuffled[i]])
    ensures report == MakeReport(labels, userScores, |userScores|)
    ensures 0 <= report.finalScore <= SlotCount
    ensures report.finalScore == multiset(userScores)[1]
    ensures report.weakAreas == [] <==> report.finalScore == SlotCount
  {
    userScores, labels := [], [];
    var i := 0;
    while i < SlotCount
      invariant 0 <= i <= SlotCount
      invariant |userScores| == i && labels == shuffled[..i]
      invariant forall k :: 0 <= k < i ==> userScores[k] == ScoreAnswer(responses[k], Knowledge[shuffled[k]])
    {
      var question := shuffled[i];
      var correct := Knowledge[question];
      var score := ScoreAnswer(responses[i], correct);
      userScores := userScores + [score];
      labels := labels + [question];
      i := i + 1;
    }
    report := MakeReport(labels, userScores, |userScores|);
    ReportFacts(labels, userScores);
  }
}
