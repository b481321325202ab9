# Reading Comprehension Analyzer — a Dafny model of its assessment core

The repository is a set of five Streamlit prototypes of a reading-comprehension check. A learner reads a
short passage, retells it, and answers five questions about it. Each answer is scored against a reference
answer from a fixed knowledge base by one containment test: the answer, stripped and lower-cased, must occur
in the lower-cased reference. The learner is then shown a final score and the list of questions answered
wrongly ("areas to improve").

The model covers the five scripts:

- `test.py` (module `OneShot`) scores five typed answers in one execution.
- `test1.py` (module `UploadRun`) scores only the slots whose audio upload is present, and prints feedback
  only when at least one slot was scored.
- `test2.py` (module `ReshuffleSession`) keeps a session of pages (prompt, retell, questions) across reruns.
  It scores each slot once, but reshuffles the questions on every rerun.
- `test3.py` and `test4.py` (module `FrozenSession`) do the same, except that the first run on the
  questions page freezes the question order in `q_data`. They also keep the retelling transcript in the
  session. The two scripts differ in three ways, all outside the model, which takes each transcript as a
  parameter: the audio widget (a microphone recorder in `test3.py`, a file upload in `test4.py`), the
  transcription library (`whisper` or `faster_whisper`), and how its output becomes one string
  (`result['text']`, or the segment texts joined with spaces).

The modules they share:

- `Text` models Python's `str.strip()`, `str.lower()` and `in` on strings.
- `Scoring` holds the answer test.
- `Bank` holds the knowledge base, the passage, and what one `random.shuffle` of the question list can
  produce.
- `Feedback` holds the final score and the weak-area list.
- `Engine` holds the page machine and the once-per-slot scoring loop of the session scripts, written as
  functions on values. The two session classes are specified by these functions.

A Streamlit rerun becomes one call of `Session.Rerun`. That call takes the following as parameters:

- which buttons were pressed;
- the transcript of each upload or recording, `None` when there is none;
- that run's shuffle, any ordering of the five questions.

Some behaviour of the scripts is easy to miss:

- No answer is treated specially when it is empty. A blank answer strips to `""`, and `"" in reference`
  is true, so it scores 1 (`Scoring.BlankAnswerScoresOne`).
- There is no separate feedback page. The feedback is shown on the questions page, on every run where
  `all(answered)` holds.
- The knowledge base is a constant of five questions (`Bank.BankSize`), so the five question slots
  always exist.
- `test2.py` reshuffles the questions on every rerun (see Findings). `test3.py` and `test4.py` freeze
  the order in `q_data`.

## Model

| member | source | states |
|---|---|---|
| Text.IsSpace | test.py:29 | `str.isspace()`: the characters `strip()` removes |
| Text.StripLeft | test.py:29 | `lstrip()`: the leading whitespace removed; `Text.StripLeftShape` states what is left |
| Text.StripRight | test.py:29 | `rstrip()`: the trailing whitespace removed; `Text.StripRightShape` states what is left |
| Text.Strip | test.py:29 | `strip()`: `rstrip` after `lstrip`; `Text.StripShape` states what is left |
| Text.Lower | test.py:29 | `lower()` character by character; `Text.LowerSlice`, `Text.LowerKeepsSpace` and `Text.StripLower` state how it combines with slicing and stripping |
| Text.Contains | test.py:29 | `needle in hay`: the needle occurs at some position of the hay; `Text.ContainsLower` restates it as a slice of the lower-cased hay |
| Scoring.ScoreAnswer | test.py:27-31 | the score of an answer is 0 or 1 (`1.0` / `0.0`) |
| Scoring.ScoreMeansOccurrence | test.py:29 | an answer scores 1 exactly when some slice of the reference, lower-cased, equals the stripped and lower-cased answer |
| Scoring.BlankAnswerScoresOne | test.py:29 | an empty or all-whitespace answer scores 1 against every reference |
| Scoring.ReferenceScoresOne | test.py:29 | the reference answer itself always scores 1 |
| Scoring.IgnoresCase | test.py:29 | answers and references that differ only in letter case get the same score |
| Scoring.IgnoresSurroundingSpace | test.py:29 | whitespace added around an answer does not change its score |
| Text.StripLeftShape | test.py:29 | `lstrip` leaves a suffix, removes only whitespace, and leaves a result that is empty or starts with a non-space |
| Text.StripRightShape | test.py:29 | `rstrip` leaves a prefix, removes only whitespace, and leaves a result that is empty or ends with a non-space |
| Text.StripShape | test.py:29 | `strip()` leaves a contiguous piece of its input; the result is empty exactly when the input is all whitespace, and otherwise starts and ends with a non-space |
| Text.LowerSlice | test.py:29 | lower-casing commutes with slicing |
| Text.LowerKeepsSpace | test.py:29 | lower-casing a character does not change whether it is whitespace |
| Text.StripLeftLower | test.py:29 | `lstrip` and `lower` commute |
| Text.StripRightLower | test.py:29 | `rstrip` and `lower` commute |
| Text.StripLower | test.py:29 | `strip().lower()` equals `lower().strip()` |
| Text.StripLeftPadded | test.py:29 | leading whitespace is removed by `lstrip` whatever follows it |
| Text.StripRightPadded | test.py:29 | trailing whitespace is removed by `rstrip` whatever precedes it |
| Text.StripLeftAppend | test.py:29 | text appended after a non-blank string survives `lstrip` unchanged |
| Text.StripRightPrepend | test.py:29 | text prepended before a non-blank string survives `rstrip` unchanged |
| Text.StripPadded | test.py:29 | `strip()` of a string padded with whitespace on both sides is `strip()` of the string |
| Text.ContainsLower | test.py:29 | `needle in hay.lower()` holds exactly when some slice of `hay`, lower-cased, equals `needle` |
| Bank.ToMap | test.py:9-15 | the dict the literal builds, one entry added per pair in order; `Knowledge` is this map of the five pairs, and `Bank.KnowledgeKeys` and `Bank.BankSize` state its keys |
| Bank.IsShuffle | test.py:55-56 | what `random.shuffle` of the key list can produce: five entries, each a bank question, none repeated; `Bank.ShuffleCoversBank` proves every question is among them |
| Bank.QuestionsDiffer | test.py:9-15 | the five questions of the knowledge base are pairwise different |
| Bank.KnowledgeKeys | test.py:9-15 | the keys of the dict the literal builds are the five listed questions |
| Bank.BankSize | test.py:9-15 | the knowledge base has exactly five keys, the five listed questions |
| Bank.DistinctElements | test.py:55-56 | a list without repeats has as many different elements as entries |
| Bank.ShuffleCoversBank | test.py:55-56 | any shuffle of the keys has five entries, and every question of the bank is among them |
| Feedback.Sum | test.py:70 | `sum(user_scores)`; `Feedback.SumCountsOnes` states that for 0/1 scores it counts the 1s |
| Feedback.WeakAreas | test.py:74 | the list comprehension over `range(n)`; `Feedback.WeakAreasAreZeroLabels` states it picks the labels at the zero-score positions |
| Feedback.MakeReport | test.py:70-81 | the final score and the weak areas; `Feedback.ReportFacts` states what they promise |
| Feedback.Where | test1.py:57 | at most n positions, each below n and flagged |
| Feedback.WhereIsOrderedAndComplete | test1.py:52-57 | the positions come in slot order, and every flagged slot below n is among them |
| Feedback.WeakAreasAreZeroLabels | test.py:74 | the weak areas are the labels at the zero-score positions, in position order and with nothing else |
| Feedback.SumCountsOnes | test.py:70 | for 0/1 scores, `sum` is the number of 1s, and the 0s are the rest |
| Feedback.ZeroSlotsCountZeros | test.py:74 | there are as many zero-score positions as zeros among the scores |
| Feedback.ReportFacts | test.py:70-81 | the final score counts the correct answers and lies in 0..n; there is one weak area per wrong answer; the list is empty (the "Excellent comprehension" branch) exactly when every answer was correct |
| OneShot.Assess | test.py:55-81 | all five slots are scored in shuffle order; each score is the score of that slot's answer against its question's reference; the labels are the shuffle; the report is the final score and the weak areas, with the score in 0..5 and the weak areas empty exactly when the score is 5 |
| UploadRun.AnsweredSlots | test1.py:57 | the slots whose `audio is not None`, in slot order; `Feedback.WhereIsOrderedAndComplete` states that it lists every such slot in order |
| UploadRun.Assess | test1.py:46-81 | exactly the uploaded slots are scored, in slot order, each against that run's question for its slot; feedback exists exactly when something was scored, and it is the sum and the weak areas over the scored answers, with the score between 0 and the number scored |
| Engine.NextPage | test2.py:29-52 | a run moves at most one page forward and never back; it moves exactly when "ready" is pressed on the prompt page or "proceed" on the retell page |
| Engine.PageAfterMonotone | test2.py:29-52 | over any sequence of runs, the page never goes back, gains at most one step per run, and stays on the questions page once there |
| Engine.PageAfter | test2.py:29-52 | the page after a sequence of runs; `Engine.PageAfterMonotone` states that it never goes back |
| Engine.Step | test2.py:69-80 | one pass of the slot loop: a slot with input that is not yet answered appends one score, one label and sets its flag; `Engine.StepKeepsConsistent` states the invariant it keeps |
| Engine.Fresh | test2.py:60-63 | the initial state has five flags, none of them set |
| Engine.FreshIsConsistent | test2.py:60-63 | the initial state satisfies the session invariant |
| Engine.ScoreSlots | test2.py:65-80 | the slot loop keeps the number of flags |
| Engine.ScoreSlotsEffect | test2.py:65-80 | the slot loop keeps the earlier scores, labels and arrivals as prefixes; a slot ends up answered exactly when it was answered before or had input now |
| Engine.ScoreSlotsAppends | test2.py:65-80 | every entry a run of the slot loop appends comes from a slot below n that had input and was not answered before; its transcript is that input, its label that run's question for the slot, and its score that transcript scored against the label's reference; the new slots come in increasing order |
| Engine.ScoreSlotsCovers | test2.py:65-80 | every slot that had input and was not answered before gets an entry among those the run appends; with the increasing order of `Engine.ScoreSlotsAppends`, exactly one |
| Engine.CountTrueBound | test2.py:63 | the number of set flags is at most the number of flags, and equals it when all are set |
| Engine.CountTrueSet | test2.py:80 | setting a flag that was clear adds one to the count of set flags |
| Engine.StepKeepsConsistent | test2.py:69-80 | scoring one slot keeps the invariant: one score and one label per answered slot; each score is its transcript's score against its label's reference; the slots are different |
| Engine.StepKeepsLabelsFrom | test3.py:59-73 | scoring one slot against a fixed question list records that slot's question as the label |
| Engine.ScoreSlotsKeepsConsistent | test2.py:65-80 | the whole slot loop keeps the session invariant |
| Engine.ScoreSlotsKeepsLabelsFrom | test3.py:59-74 | over a frozen question list, every label is the question of the slot it came from |
| Engine.AnsweredInputIsIgnored | test2.py:69 | input for slots already answered changes nothing, whatever questions are shown |
| Engine.RerunIsIdempotent | test2.py:65-80 | re-running the loop with the same inputs leaves the state as the first run left it |
| Engine.FinishedTallyIsFinal | test2.py:69 | once all five slots are answered, no later run changes scores, labels or flags |
| Engine.AllAnswered | test2.py:82 | `all(st.session_state.answered)` |
| Engine.FeedbackOf | test2.py:82-86 | feedback is shown exactly when all five slots are answered |
| Engine.FeedbackFacts | test2.py:82-93 | with all slots answered there are five scores and five labels; the final score counts the matches and lies in 0..5; the weak areas are exactly the zero-score labels in arrival order, one per wrong answer, and empty exactly when the score is 5 |
| ReshuffleSession.Session.constructor | test2.py:29-30 | a new session has no page and no score lists |
| ReshuffleSession.Session.ScoreInputs | test2.py:65-80 | the imperative slot loop computes exactly `ScoreSlots` over that run's shuffle |
| ReshuffleSession.Session.AnswerQuestions | test2.py:55-80 | the lists are created once, the slot loop runs over this run's shuffle, and the session invariant is kept |
| ReshuffleSession.Session.Rerun | test2.py:29-93 | keeps the session invariant; the page moves as `NextPage` says; scores change only on the questions page, where the lists are created once and the loop runs over this run's shuffle; the screen shows the passage, the retelling transcript, or this run's questions with the feedback |
| ReshuffleSession.SameQuestionScoredTwice | test2.py:57-69 | if slot 0 is answered under one shuffle, and slot 1 under a later shuffle that shows the same question there, that question is labelled and scored twice |
| ReshuffleSession.SwappedShufflesExist | test2.py:57-58 | two shuffles with that property exist: the bank order, and that order with its first two questions swapped |
| FrozenSession.FrozenLabelsDistinct | test3.py:57-74 | with `q_data` frozen, no question is labelled twice, and every label is one of `q_data` |
| FrozenSession.EachQuestionScoredOnce | test3.py:76-80 | once every slot is answered, the labels are the five bank questions, each exactly once |
| FrozenSession.Session.constructor | test3.py:26-27 | a new session has no page, no retelling and no score lists |
| FrozenSession.Session.ScoreInputs | test4.py:58-73 | the imperative slot loop computes exactly `ScoreSlots` over `q_data` |
| FrozenSession.Session.AnswerQuestions | test4.py:47-73 | the lists and `q_data` are created once, `q_data` being this run's shuffle; the slot loop runs over `q_data`; the invariant is kept and no label repeats |
| FrozenSession.Session.Rerun | test3.py:26-87 | keeps the session invariant with labels taken from `q_data` and never repeated; the page moves as `NextPage` says; the retelling transcript is stored when audio arrives on the retell page; `q_data` is this run's shuffle on the first run of the questions page and never changes afterwards; the loop runs over `q_data`; the screen shows `q_data` with the feedback |

## Left out

- The user interface: titles, headers, text areas, balloons and buttons. Button presses and uploads come in
  as parameters of `Rerun`.
- Audio capture and transcription (Whisper, faster-whisper, `speech_recognition`, the microphone widget,
  temporary files). Each slot's input is the transcript the transcriber would return, or `None`.
- `random.shuffle`. The shuffle is a parameter, constrained to be an ordering of the five bank questions.
- The SHAP explanation and its bar chart (`generate_shap_feedback` in `test.py`, and the SHAP blocks of the
  other four scripts). These are a call into a plotting library whose result is only drawn.
- The retelling in `test.py`, `test1.py` and `test2.py`. It is shown but never scored or stored, so it
  changes nothing the model states.
- Scoring.ScoreAnswer: scores are the integers 0 and 1 rather than the floats `1.0` and `0.0`. The sums are
  of at most five such values, so they are exact either way.
- Text.Lower: lower-cases the ASCII letters only. Python's `str.lower` also maps other Unicode letters.
  The reference answers are ASCII, but a transcript need not be: an answer "K" written with U+212A
  (KELVIN SIGN) lower-cases to `k` in Python and scores 1 against "Because they lied about breaking the
  vase.", while the model leaves the character as it is and scores it 0.
- In `test.py`, every call of `simulate_speech_input` creates an `st.text_input` with the same label and
  no key: six of them, the retelling at `test.py:51` and the five answers. Streamlit rejects a repeated
  widget, so the script as written stops with a duplicate-widget error at the first answer (`i = 0`,
  `test.py:64`). The model treats the five answers as independent inputs.
- Streamlit's widget state between reruns, such as an upload that is still attached after the rerun that
  scored it. The model calls this "the same input arriving again".

## Findings

| source | as written | input that shows it | evidently intended | confidence | as-written member | corrected member |
|---|---|---|---|---|---|---|
| test2.py:57-66 | Every rerun on the questions page reshuffles the question list, and slot i is scored against that rerun's `questions[i]`. | Run 1 shuffles to the bank order and slot 0 receives an upload, so "What is the main idea of the story?" is scored. Run 2 swaps the first two questions; slot 0's upload is still present and slot 1 receives one. Slot 1 now shows the main-idea question, so it is labelled and scored a second time. Two of the five labels are then equal whatever later runs do, so at most four different questions are scored in the session. | Choose the question order once per session and score every slot against it, as `test3.py` and `test4.py` do with `q_data`. | not executed | ReshuffleSession.SameQuestionScoredTwice | FrozenSession.EachQuestionScoredOnce |
