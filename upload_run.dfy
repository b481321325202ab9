/**
 test1.py: one execution scores only the slots whose upload is present,
 against that execution's shuffle, and prints feedback only when at least
 one slot was scored. A slot input is the transcript of its upload, or None
 when nothing was uploaded.
 */
module UploadRun {
  import opened Wrappers
  import opened Bank
  import opened Scoring
  import opened Feedback

  /** One flag per slot: whether it has an upload. */
  function HasInput(inputs: seq<Option<string>>): seq<bool> {
    seq(|inputs|, i requires 0 <= i < |inputs| => inputs[i].Some?)
  }

  /** The slots with input, in slot order. */
  function AnsweredSlots(inputs: seq<Option<string>>): seq<nat>
    requires |inputs| == SlotCount
  {
    Where(HasInput(inputs), SlotCount)
  }

  /** The conditional scoring loop, then `if user_scores:` around the feedback. */
  method Assess(shuffled: seq<string>, inputs: seq<Option<string>>)
    returns (userScores: seq<int>, labels: seq<string>, report: Option<Report>)
    requires IsShuffle(shuffled)
    requires |inputs| == SlotCount
    ensures |userScores| == |labels| == |AnsweredSlots(inputs)| <= SlotCount
    ensures forall k :: 0 <= k < |labels| ==>
              var i := AnsweredSlots(inputs)[k];
              labels[k] == shuffled[i] && userScores[k] == ScoreAnswer(inputs[i].value, Knowledge[shuffled[i]])
    ensures Binary(userScores)
    ensures report.Some? <==> userScores != []
    ensures report.Some? ==> report.value == MakeReport(labels, userScores, |userScores|)
    ensures report.Some? ==> 0 <= report.value.finalScore <= |userScores|
  {
    ghost var present := HasInput(inputs);
    userScores, labels := [], [];
    var i := 0;
    while i < SlotCount
      invariant 0 <= i <= SlotCount
      invariant |userScores| == |labels| == |Where(present, i)|
      invariant forall k :: 0 <= k < |labels| ==>
                  var j := Where(present, i)[k];
                  labels[k] == shuffled[j] && userScores[k] == ScoreAnswer(inputs[j].value, Knowledge[shuffled[j]])
    {
      if inputs[i].Some? {
        var question := shuffled[i];
        var correct := Knowledge[question];
        var score := ScoreAnswer(inputs[i].value, correct);
        userScores := userScores + [score];
        labels := labels + [question];
      }
      i := i + 1;
    }
    if userScores != [] {
      report := Some(MakeReport(labels, userScores, |userScores|));
      ReportFacts(labels, userScores);
    } else {
      report := None;
    }
  }
}
