/**
 test2.py: the session version without a frozen question order. Every run
 reshuffles the bank, and the questions page scores slot i against that
 run's `questions[i]`. The retelling transcript is displayed but not kept.
 */
module ReshuffleSession {
  import opened Wrappers
  import opened Bank
  import opened Scoring
  import opened Feedback
  import opened Engine

  /** `st.session_state` of one learner: keys not yet set are `None` / `started == false`. */
  class Session {
    var page: Option<Page>
    /** Whether `user_scores`, `labels` and `answered` have been created. */
    var started: bool
    var userScores: seq<int>
    var labels: seq<string>
    var answered: seq<bool>
    ghost var arrivals: seq<Arrival>

    ghost function Snapshot(): Tally
      reads this
    {
      Tally(userScores, labels, answered, arrivals)
    }

    ghost predicate Valid()
      reads this
    {
      && (started ==> page == Some(Questions) && Consistent(Snapshot()))
      && (!started ==> Snapshot() == Tally([], [], [], []))
    }

    /** A new session: nothing is set. */
    constructor ()
      ensures Valid() && page == None && !started
    {
      page := None;
      started := false;
      userScores, labels, answered := [], [], [];
      arrivals := [];
    }

    /** The slot loop: slot i is scored against `questions[i]` when it has input and is not yet answered. */
    method ScoreInputs(questions: seq<string>, inputs: seq<Option<string>>)
      requires |answered| == SlotCount && |questions| >= SlotCount && |inputs| == SlotCount
      requires forall i :: 0 <= i < SlotCount ==> questions[i] in Knowledge
      modifies this
      ensures page == old(page) && started == old(started)
      ensures Snapshot() == ScoreSlots(old(Snapshot()), questions, inputs, SlotCount)
    {
      ghost var start := Snapshot();
      var i := 0;
      while i < SlotCount
        invariant 0 <= i <= SlotCount
        invariant page == old(page) && started == old(started)
        invariant Tally(userScores, labels, answered, arrivals) == ScoreSlots(start, questions, inputs, i)
        invariant |answered| == SlotCount
      {
        if inputs[i].Some? && !answered[i] {
          var question := questions[i];
          var correct := Knowledge[question];
          var score := ScoreAnswer(inputs[i].value, correct);
          userScores := userScores + [score];
          labels := labels + [question];
          answered := answered[i := true];
          arrivals := arrivals + [Arrival(i, inputs[i].value)];
        }
        i := i + 1;
      }
    }

    /** The questions page: the one-time initialisation, then the slot loop over this run's shuffle. */
    method AnswerQuestions(inputs: seq<Option<string>>, shuffled: seq<string>)
      requires Valid() && page == Some(Questions)
      requires |inputs| == SlotCount && IsShuffle(shuffled)
      modifies this
      ensures Valid() && started
      ensures page == old(page)
      ensures Snapshot() == ScoreSlots(if old(started) then old(Snapshot()) else Fresh(), shuffled, inputs, SlotCount)
    {
      if !started {
        userScores, labels, answered := [], [], [false, false, false, false, false];
        arrivals := [];
        started := true;
        FreshIsConsistent();
      }
      ghost var start := Snapshot();
      ScoreInputs(shuffled, inputs);
      ScoreSlotsKeepsConsistent(start, shuffled, inputs, SlotCount);
    }

    /** One run of the script. `ready` and `proceed` are the two buttons, `retell` the transcript of the
        retelling upload, `inputs[i]` the transcript of slot i's upload, `shuffled` this run's shuffle. */
    method Rerun(ready: bool, proceed: bool, retell: Option<string>, inputs: seq<Option<string>>, shuffled: seq<string>)
      returns (screen: Screen)
      requires Valid()
      requires |inputs| == SlotCount && IsShuffle(shuffled)
      modifies this
      ensures Valid()
      ensures page == Some(NextPage(old(page).GetOr(Prompt), ready, proceed))
      ensures old(page).GetOr(Prompt) != Questions ==> started == old(started) && Snapshot() == old(Snapshot())
      ensures old(page).GetOr(Prompt) == Questions ==>
                && started
                && Snapshot() == ScoreSlots(if old(started) then old(Snapshot()) else Fresh(), shuffled, inputs, SlotCount)
      ensures screen == match old(page).GetOr(Prompt)
                        case Prompt => PassageScreen(Passage)
                        case Retell => RetellScreen(retell)
                        case Questions => QuestionScreen(shuffled[..SlotCount], FeedbackOf(userScores, labels, answered))
    {
      if page == None {
        page := Some(Prompt);
      }
      match page.value
      case Prompt =>
        screen := PassageScreen(Passage);
        if ready {
          page := Some(Retell);
        }
      case Retell =>
        screen := RetellScreen(retell);
        if proceed {
          page := Some(Questions);
        }
      case Questions =>
        AnswerQuestions(inputs, shuffled);
        screen := QuestionScreen(shuffled[..SlotCount], FeedbackOf(userScores, labels, answered));
    }
  }

  /** Two runs on the questions page whose shuffles put the same question in slot 0 of the first and
      slot 1 of the second. Slot 0 is uploaded in the first run and its upload is still there in the
      second, when slot 1 is uploaded: that question is labelled and scored twice. Two labels are then
      equal, so at most four different questions are ever scored in the session. */
  lemma SameQuestionScoredTwice(first: seq<string>, second: seq<string>, answer0: string, answer1: string)
    requires IsShuffle(first) && IsShuffle(second) && second[1] == first[0]
    ensures var runOne := ScoreSlots(Fresh(), first, [Some(answer0), None, None, None, None], SlotCount);
            var runTwo := ScoreSlots(runOne, second, [Some(answer0), Some(answer1), None, None, None], SlotCount);
            && runTwo.labels == [first[0], first[0]]
            && AllAnswered(runTwo.answered[..2])
  {
    var in1: seq<Option<string>> := [Some(answer0), None, None, None, None];
    var in2: seq<Option<string>> := [Some(answer0), Some(answer1), None, None, None];
    var f := Fresh();
    assert ScoreSlots(f, first, in1, 0) == f;
    var one := ScoreSlots(f, first, in1, 1);
    assert one == Step(f, 0, first[0], in1[0]);
    assert one.labels == [first[0]] && one.answered == [true, false, false, false, false];
    assert ScoreSlots(f, first, in1, 2) == one;
    assert ScoreSlots(f, first, in1, 3) == one;
    assert ScoreSlots(f, first, in1, 4) == one;
    assert ScoreSlots(f, first, in1, 5) == one;
    assert ScoreSlots(one, second, in2, 1) == one;
    var two := ScoreSlots(one, second, in2, 2);
    assert two == Step(one, 1, second[1], in2[1]);
    assert two.labels == [first[0], first[0]];
    assert ScoreSlots(one, second, in2, 3) == two;
    assert ScoreSlots(one, second, in2, 4) == two;
    assert ScoreSlots(one, second, in2, 5) == two;
  }

  /** Two shuffles that set this up: swapping the first two questions of the bank's own order. */
  lemma SwappedShufflesExist()
    ensures var first := [MainIdea, Guilty, Lesson, Mother, Shoes];
            var second := [Guilty, MainIdea, Lesson, Mother, Shoes];
            IsShuffle(first) && IsShuffle(second) && second[1] == first[0]
  {
    KnowledgeKeys();
    QuestionsDiffer();
  }
}
