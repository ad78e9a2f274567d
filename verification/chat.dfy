/**
 * The interview screen (frontend/src/components/Chat.jsx): which question is current, how
 * long it may take, when the stored timer is kept or re-initialised, when the interview
 * is complete, when a cached question list is used, and the answer record each of the
 * three handlers (submit, time-up, next/skip) hands to `addAnswer`.
 *
 * The decisions are functions; the screen itself is a class whose handlers and effects
 * dispatch to the shared `Session`.
 */
module Chat {

  import opened Wrappers
  import opened Text
  import opened Json
  import opened CandidateSlice
  import Views

  datatype Question = Question(text: string, difficulty: string)

  /** The question at the session's index, or none once the index has passed the list. */
  function CurrentQuestion(questions: seq<Question>, index: nat): Option<Question>
  {
    if index < |questions| then Some(questions[index]) else None
  }

  /** `timePerDifficulty[difficulty] || 30`. */
  function DifficultyTime(difficulty: string): nat
  {
    if difficulty == "Easy" then 20
    else if difficulty == "Medium" then 60
    else if difficulty == "Hard" then 120
    else 30
  }

  /** `questionTime`: the budget of the current question, 30 seconds when there is none. */
  function QuestionTime(current: Option<Question>): (t: nat)
    ensures t > 0
  {
    if current.Some? then DifficultyTime(current.value.difficulty) else 30
  }

  /** Easy 20, Medium 60, Hard 120 seconds; any other difficulty, or no question, 30. */
  lemma QuestionBudgets(q: Question)
    ensures q.difficulty == "Easy" <==> QuestionTime(Some(q)) == 20
    ensures q.difficulty == "Medium" <==> QuestionTime(Some(q)) == 60
    ensures q.difficulty == "Hard" <==> QuestionTime(Some(q)) == 120
    ensures q.difficulty !in {"Easy", "Medium", "Hard"} <==> QuestionTime(Some(q)) == 30
    ensures QuestionTime(None) == 30
  {
  }

  /** The budget the screen gives a generated question is the time the server attached
      to it. */
  lemma ServerTimesAgree(k: nat, ask: nat -> Option<string>, pick: nat -> bool)
    requires k < 6
    ensures var g := Views.QuestionAt(k, ask, pick);
      QuestionTime(Some(Question(g.text, g.difficulty))) == g.time
  {
    Views.QuestionAtShape(k, ask, pick);
  }

  /** The timer-initialisation effect dispatches `setTimer(questionTime)` exactly when there
      is a current question and either the stored duration is not this question's budget or
      no positive time is left. */
  predicate NeedsTimerInit(current: Option<Question>, currentDuration: int, timeLeft: int)
  {
    current.Some? && (currentDuration != QuestionTime(current) || timeLeft <= 0)
  }

  /** The `seconds` prop handed to the countdown: the stored time left when positive,
      otherwise the full budget. */
  function TimerSeconds(timeLeft: int, questionTime: nat): int
  {
    if timeLeft > 0 then timeLeft else questionTime
  }

  /** A persisted partial countdown is honoured: when the effect keeps the stored timer the
      countdown resumes from the stored time left; when it re-initialises, the countdown
      starts from the full budget, and the effect then has nothing more to do. */
  lemma TimerResumesOrRestarts(current: Option<Question>, s: State)
    requires current.Some?
    ensures !NeedsTimerInit(current, s.currentDuration, s.timeLeft) ==>
      s.timeLeft > 0 && TimerSeconds(s.timeLeft, QuestionTime(current)) == s.timeLeft
    ensures NeedsTimerInit(current, s.currentDuration, s.timeLeft) ==>
      var t := Apply(s, SetTimer(QuestionTime(current)));
      && TimerSeconds(t.timeLeft, QuestionTime(current)) == QuestionTime(current)
      && !NeedsTimerInit(current, t.currentDuration, t.timeLeft)
  {
  }

  /** Completion: the finishing effect runs once questions are loaded, none is current and
      at least one answer exists. */
  predicate ShouldFinish(questions: seq<Question>, index: nat, answerCount: nat)
  {
    |questions| != 0 && CurrentQuestion(questions, index).None? && answerCount != 0
  }

  /** The interview finishes exactly when a non-empty list has been run past; in a
      consistent session that is when there is an answer for every question. */
  lemma FinishExactlyPastTheEnd(questions: seq<Question>, s: State)
    ensures ShouldFinish(questions, s.currentQuestion, |s.answers|) <==>
      0 < |questions| <= s.currentQuestion && |s.answers| > 0
    ensures Consistent(s) ==>
      (ShouldFinish(questions, s.currentQuestion, |s.answers|) <==> 0 < |questions| <= |s.answers|)
    ensures CurrentQuestion(questions, s.currentQuestion).Some? <==> s.currentQuestion < |questions|
    ensures CurrentQuestion(questions, s.currentQuestion).Some? ==>
      CurrentQuestion(questions, s.currentQuestion).value == questions[s.currentQuestion]
  {
  }

  /** The body `finishInterview` posts: the contact details, the file name when there is
      one (an empty one is left out), and every answer record. */
  function FinishRequest(s: State): (r: Views.Submission)
    ensures r.name == Some(s.name) && r.email == Some(s.email) && r.phone == Some(s.phone)
    ensures r.resume.Some? ==> r.resume.value == s.resumeFilename
    ensures |r.answers| == |s.answers|
    ensures r.resume.Some? <==> s.resumeFilename != ""
    ensures forall k :: 0 <= k < |s.answers| ==>
      r.answers[k].answer == Some(s.answers[k].answer) && r.answers[k].difficulty == Some(s.answers[k].difficulty)
    ensures forall k :: 0 <= k < |s.answers| ==> r.answers[k].attended == s.answers[k].attended
  {
    Views.Submission(
      Some(s.name), Some(s.email), Some(s.phone),
      if s.resumeFilename == "" then None else Some(s.resumeFilename),
      seq(|s.answers|, k requires 0 <= k < |s.answers| =>
        Views.Answer(Some(s.answers[k].difficulty), Some(s.answers[k].answer), s.answers[k].attended)))
  }

  /** The server gives points only to records the screen marked attended, so a run of
      skips and timeouts scores zero; once the effect fires the body is never empty. */
  lemma FinishRequestScoring(s: State, questions: seq<Question>)
    ensures forall k :: 0 <= k < |s.answers| ==>
      Views.Counts(FinishRequest(s).answers[k]) ==> s.answers[k].attended
    ensures (forall k :: 0 <= k < |s.answers| ==> !s.answers[k].attended) ==>
      Views.RawScore(FinishRequest(s).answers) == 0
    ensures ShouldFinish(questions, s.currentQuestion, |s.answers|) ==> FinishRequest(s).answers != []
  {
    var answers := FinishRequest(s).answers;
    if forall k :: 0 <= k < |s.answers| ==> !s.answers[k].attended {
      NoCountsNoPoints(answers);
    }
  }

  lemma {:induction false} NoCountsNoPoints(answers: seq<Views.Answer>)
    requires forall k :: 0 <= k < |answers| ==> !answers[k].attended
    ensures Views.RawScore(answers) == 0
  {
    if answers != [] {
      NoCountsNoPoints(answers[..|answers| - 1]);
    }
  }

  /** The cached question list is used only when the stored text is non-empty, parses, and
      is an array of exactly six items. */
  function AcceptCache(saved: Option<string>, parse: string -> Option<Json>): (r: Option<seq<Json>>)
    ensures r.Some? ==> |r.value| == 6
    ensures r.Some? <==>
      saved.Some? && saved.value != "" && parse(saved.value).Some?
      && parse(saved.value).value.JArr? && |parse(saved.value).value.items| == 6
    ensures r.Some? ==> parse(saved.value) == Some(JArr(r.value))
  {
    if saved.None? || saved.value == "" then None
    else
      match parse(saved.value)
      case Some(JArr(items)) => if |items| == 6 then Some(items) else None
      case _ => None
  }

  /** `handleSubmit`: nothing on blank input, otherwise the trimmed answer, attended. */
  function SubmitPayload(q: Question, input: string): Option<AnswerPayload>
  {
    var trimmed := Trim(input);
    if trimmed == "" then None
    else Some(AnswerPayload(q.text, trimmed, q.difficulty, true, Submitted))
  }

  /** `handleTimeUp`: whatever was typed, trimmed, and not attended. */
  function TimeUpPayload(q: Question, input: string): AnswerPayload
  {
    AnswerPayload(q.text, Trim(input), q.difficulty, false, Timeout)
  }

  /** `handleNext`: the trimmed answer when there is one, otherwise a skip. */
  function NextPayload(q: Question, input: string): AnswerPayload
  {
    var trimmed := Trim(input);
    if trimmed != "" then AnswerPayload(q.text, trimmed, q.difficulty, true, NextWithAnswer)
    else AnswerPayload(q.text, "", q.difficulty, false, Skipped)
  }

  /** What every record produced by the three handlers satisfies: attended exactly for
      `submitted` and `next_with_answer`; an attended answer is non-blank. */
  predicate WellFormed(q: Question, p: AnswerPayload)
  {
    && p.question == q.text && p.difficulty == q.difficulty
    && (p.attended <==> p.reason == Submitted || p.reason == NextWithAnswer)
    && (p.attended ==> Trim(p.answer) == p.answer && p.answer != "")
    && (p.reason == Skipped ==> p.answer == "")
  }

  lemma HandlersProduceWellFormed(q: Question, input: string)
    ensures SubmitPayload(q, input).None? <==> forall k :: 0 <= k < |input| ==> IsJsSpace(input[k])
    ensures SubmitPayload(q, input).Some? ==>
      WellFormed(q, SubmitPayload(q, input).value) && SubmitPayload(q, input).value.answer == Trim(input)
    ensures WellFormed(q, TimeUpPayload(q, input)) && TimeUpPayload(q, input).answer == Trim(input)
    ensures WellFormed(q, NextPayload(q, input))
    ensures NextPayload(q, input).attended <==> Trim(input) != ""
    ensures NextPayload(q, input).attended ==> NextPayload(q, input).answer == Trim(input)
  {
    StripIdempotent(input, IsJsSpace);
  }

  /** The interview screen. */
  class ChatScreen {
    const session: Session
    var input: string
    var questions: seq<Question>

    constructor (session: Session, questions: seq<Question>)
      ensures this.session == session && this.questions == questions && input == ""
    {
      this.session := session;
      this.questions := questions;
      input := "";
    }

    function Current(): Option<Question>
      reads this, session
    {
      CurrentQuestion(questions, session.currentQuestion)
    }

    /** The effect that leaves the paused state while the screen is shown. */
    method UnpauseEffect()
      modifies session
      ensures old(session.paused) ==> session.Snapshot() == Apply(old(session.Snapshot()), ResumeCandidate)
      ensures !old(session.paused) ==> session.Snapshot() == old(session.Snapshot())
      ensures !session.paused
    {
      if session.paused {
        session.ResumeCandidate();
      }
    }

    /** The timer-initialisation effect. */
    method TimerEffect()
      modifies session
      ensures var before := old(session.Snapshot());
        session.Snapshot() ==
          if NeedsTimerInit(Current(), before.currentDuration, before.timeLeft)
          then Apply(before, SetTimer(QuestionTime(Current())))
          else before
      ensures Current().Some? ==> !NeedsTimerInit(Current(), session.currentDuration, session.timeLeft)
    {
      var current := Current();
      if NeedsTimerInit(current, session.currentDuration, session.timeLeft) {
        session.SetTimer(QuestionTime(current));
      }
    }

    /** The answer box's `onChange`: the typed text becomes the input; the session and
        the questions are untouched. */
    method OnInputChange(text: string)
      modifies this
      ensures input == text && questions == old(questions)
      ensures session.Snapshot() == old(session.Snapshot())
    {
      input := text;
    }

    /** The Submit button (and Enter). */
    method HandleSubmit()
      requires Current().Some?
      modifies this, session
      ensures questions == old(questions)
      ensures SubmitPayload(old(Current()).value, old(input)).None? ==>
        session.Snapshot() == old(session.Snapshot()) && input == old(input)
      ensures SubmitPayload(old(Current()).value, old(input)).Some? ==>
        && session.Snapshot() == Apply(old(session.Snapshot()), AddAnswer(SubmitPayload(old(Current()).value, old(input)).value))
        && input == ""
    {
      var p := SubmitPayload(Current().value, input);
      if p.Some? {
        session.AddAnswer(p.value);
        input := "";
      }
    }

    /** The countdown's `onTimeUp`. */
    method HandleTimeUp()
      requires Current().Some?
      modifies this, session
      ensures questions == old(questions) && input == ""
      ensures session.Snapshot() == Apply(old(session.Snapshot()), AddAnswer(TimeUpPayload(old(Current()).value, old(input))))
    {
      session.AddAnswer(TimeUpPayload(Current().value, input));
      input := "";
    }

    /** The Submit & Next / Skip Question button. */
    method HandleNext()
      requires Current().Some?
      modifies this, session
      ensures questions == old(questions) && input == ""
      ensures session.Snapshot() == Apply(old(session.Snapshot()), AddAnswer(NextPayload(old(Current()).value, old(input))))
    {
      session.AddAnswer(NextPayload(Current().value, input));
      input := "";
    }
  }
}
