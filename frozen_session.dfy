/**
 test3.py and test4.py: the session version that freezes the question order.
 The first run on the questions page stores `questions[:5]` as `q_data`
 together with the score lists, and every run scores slot i against
 `q_data[i]`, whatever that run's shuffle is. The retelling transcript is kept
 in the session. The two scripts differ in three ways, all outside the model,
 which takes each transcript as a parameter: the audio widget (a microphone
 recorder in test3.py, a file upload in test4.py), the transcription library
 (`whisper` or `faster_whisper`), and how its output becomes one string
 (`result['text']`, or the segment texts joined with spaces).
 */
module FrozenSession {
  import opened Wrappers
  import opened Bank
  import opened Scoring
  import opened Feedback
  import opened Engine

  /** With a frozen question list, each label is the question of a distinct slot, so no question is scored twice. */
  lemma FrozenLabelsDistinct(t: Tally, qData: seq<string>)
    requires Consistent(t) && LabelsFrom(t, qData) && IsShuffle(qData)
    ensures Distinct(t.labels)
    ensures forall k :: 0 <= k < |t.labels| ==> t.labels[k] in qData
  {
    forall k, l | 0 <= k < l < |t.labels|
      ensures t.labels[k] != t.labels[l]
    {
      assert t.arrivals[k].slot != t.arrivals[l].slot;
    }
  }

  /** Once all five slots are answered, the labels are the five bank questions, each exactly once. */
  lemma EachQuestionScoredOnce(t: Tally, qData: seq<string>)
    requires Consistent(t) && LabelsFrom(t, qData) && IsShuffle(qData)
    requires AllAnswered(t.answered)
    ensures IsShuffle(t.labels)
    ensures forall q :: q in Knowledge <==> q in t.labels
  {
    FrozenLabelsDistinct(t, qData);
    CountTrueBound(t.answered);
    ShuffleCoversBank(t.labels);
  }

  /** `st.session_state` of one learner: keys not yet set are `None` / `started == false`. */
  class Session {
    var page: Option<Page>
    var retellingText: Option<string>
    /** Whether `user_scores`, `labels`, `answered` and `q_data` have been created. */
    var started: bool
    var userScores: seq<int>
    var labels: seq<string>
    var answered: seq<bool>
    var qData: seq<string>
    ghost var arrivals: seq<Arrival>

    ghost function Snapshot(): Tally
      reads this
    {
      Tally(userScores, labels, answered, arrivals)
    }

    /** Once started: on the questions page, a frozen shuffle, and every label taken from it. */
    ghost predicate Valid()
      reads this
    {
      && (started ==> page == Some(Questions) && Consistent(Snapshot()) && IsShuffle(qData) && LabelsFrom(Snapshot(), qData))
      && (!started ==> Snapshot() == Tally([], [], [], []) && qData == [])
    }

    /** A new session: nothing is set. */
    constructor ()
      ensures Valid() && page == None && retellingText == None && !started
    {
      page := None;
      retellingText := None;
      started := false;
      userScores, labels, answered, qData := [], [], [], [];
      arrivals := [];
    }

    /** The slot loop: slot i is scored against `q_data[i]` when it has input and is not yet answered. */
    method ScoreInputs(inputs: seq<Option<string>>)
      requires |answered| == SlotCount && |qData| == SlotCount && |inputs| == SlotCount
      requires forall i :: 0 <= i < SlotCount ==> qData[i] in Knowledge
      modifies this
      ensures page == old(page) && retellingText == old(retellingText) && started == old(started) && qData == old(qData)
      ensures Snapshot() == ScoreSlots(old(Snapshot()), qData, inputs, SlotCount)
    {
      ghost var start := Snapshot();
      var i := 0;
      while i < SlotCount
        invariant 0 <= i <= SlotCount
        invariant page == old(page) && retellingText == old(retellingText) && started == old(started) && qData == old(qData)
        invariant Tally(userScores, labels, answered, arrivals) == ScoreSlots(start, qData, inputs, i)
        invariant |answered| == SlotCount
      {
        if inputs[i].Some? && !answered[i] {
          var question := qData[i];
          var correct := Knowledge[question];
          var score := ScoreAnswer(inputs[i].value, correct);
          userScores := userScores + [score];
          labels := labels + [question];
          answered := answered[i := true];
          arrivals := arrivals + [Arrival(i, inputs[i].value)];
        }
        i := i + 1;
      }
    }

    /** The questions page: the one-time initialisation, which freezes this run's shuffle as `q_data`,
        then the slot loop over `q_data`. */
    method AnswerQuestions(inputs: seq<Option<string>>, shuffled: seq<string>)
      requires Valid() && page == Some(Questions)
      requires |inputs| == SlotCount && IsShuffle(shuffled)
      modifies this
      ensures Valid() && started && Distinct(labels)
      ensures page == old(page) && retellingText == old(retellingText)
      ensures qData == (if old(started) then old(qData) else shuffled[..SlotCount])
      ensures Snapshot() == ScoreSlots(if old(started) then old(Snapshot()) else Fresh(), qData, inputs, SlotCount)
    {
      if !started {
        userScores, labels, answered := [], [], [false, false, false, false, false];
        qData := shuffled[..SlotCount];
        arrivals := [];
        started := true;
        FreshIsConsistent();
        assert qData == shuffled;
      }
      ghost var start := Snapshot();
      ScoreInputs(inputs);
      ScoreSlotsKeepsConsistent(start, qData, inputs, SlotCount);
      ScoreSlotsKeepsLabelsFrom(start, qData, inputs, SlotCount);
      FrozenLabelsDistinct(Snapshot(), qData);
    }

    /** One run of the script. `ready` and `proceed` are the two buttons, `retell` the transcript of the
        retelling audio, `inputs[i]` the transcript of slot i's audio, `shuffled` this run's shuffle. */
    method Rerun(ready: bool, proceed: bool, retell: Option<string>, inputs: seq<Option<string>>, shuffled: seq<string>)
      returns (screen: Screen)
      requires Valid()
      requires |inputs| == SlotCount && IsShuffle(shuffled)
      modifies this
      ensures Valid()
      ensures started ==> Distinct(labels)
      ensures page == Some(NextPage(old(page).GetOr(Prompt), ready, proceed))
      ensures retellingText == if old(page).GetOr(Prompt) == Retell && retell.Some? then retell else old(retellingText)
      ensures old(page).GetOr(Prompt) != Questions ==>
                started == old(started) && qData == old(qData) && Snapshot() == old(Snapshot())
      ensures old(page).GetOr(Prompt) == Questions ==>
                && started
                && qData == (if old(started) then old(qData) else shuffled[..SlotCount])
                && Snapshot() == ScoreSlots(if old(started) then old(Snapshot()) else Fresh(), qData, inputs, SlotCount)
      ensures screen == match old(page).GetOr(Prompt)
                        case Prompt => PassageScreen(Passage)
                        case Retell => RetellScreen(retell)
                        case Questions => QuestionScreen(qData, FeedbackOf(userScores, labels, answered))
    {
      if page == None {
        page := Some(Prompt);
      }
      match page.value
      case Prompt =>
        screen := PassageScreen(Passage);
        if ready {
          page := Some(Retell);
        }
      case Retell =>
        if retell.Some? {
          retellingText := retell;
        }
        screen := RetellScreen(retell);
        if proceed {
          page := Some(Questions);
        }
      case Questions =>
        AnswerQuestions(inputs, shuffled);
        screen := QuestionScreen(qData, FeedbackOf(userScores, labels, answered));
    }
  }
}
