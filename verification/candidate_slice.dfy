/**
 * The candidate session slice (frontend/src/redux/slices/candidatesSlice.js): the single
 * record of one interview attempt and the nine reducers that are the only way to change it.
 *
 * `Apply` is the reducer as a pure state transformer and is the specification; the class
 * `Session` holds the same fields and changes them in place, one method per reducer, each
 * proved to produce `Apply` of the old state.
 */
module CandidateSlice {

  import opened Wrappers

  /** Why a question ended. */
  datatype Reason = Submitted | Timeout | Skipped | NextWithAnswer

  /** What a screen hands to `addAnswer`. */
  datatype AnswerPayload = AnswerPayload(
    question: string,
    answer: string,
    difficulty: string,
    attended: bool,
    reason: Reason)

  /** A stored answer: the payload plus the seconds spent on the question. */
  datatype AnswerRecord = AnswerRecord(
    question: string,
    answer: string,
    difficulty: string,
    attended: bool,
    reason: Reason,
    timeSpent: int)

  /** What `setCandidateInfo` receives; `resumeFilename` is None when the payload has no
      string under that key. */
  datatype InfoPayload = InfoPayload(
    name: string,
    email: string,
    phone: string,
    resumeFilename: Option<string>)

  datatype State = State(
    name: string,
    email: string,
    phone: string,
    resumeFilename: string,
    answers: seq<AnswerRecord>,
    currentQuestion: nat,
    progressSaved: bool,
    currentDuration: int,
    timeLeft: int,
    paused: bool)

  /** `initialState`. */
  const Initial := State("", "", "", "", [], 0, false, 0, 0, false)

  /** One case per exported action creator. */
  datatype Action =
    | AddAnswer(payload: AnswerPayload)
    | IncrementQuestion
    | SetCandidateInfo(info: InfoPayload)
    | ResetCandidate
    | PauseCandidate
    | ResumeCandidate
    | SetTimer(duration: int)
    | SetTimeLeft(seconds: int)
    | SetPaused(value: bool)

  /** `Math.max(0, currentDuration - timeLeft)`: the least value that is neither negative
      nor below the elapsed time. */
  function TimeSpent(duration: int, timeLeft: int): (t: nat)
    ensures t >= duration - timeLeft
    ensures t == 0 || t == duration - timeLeft
    ensures timeLeft >= duration ==> t == 0
  {
    if duration - timeLeft > 0 then duration - timeLeft else 0
  }

  /** The record `addAnswer` appends: the payload spread, plus `timeSpent`. */
  function Record(p: AnswerPayload, timeSpent: int): AnswerRecord
  {
    AnswerRecord(p.question, p.answer, p.difficulty, p.attended, p.reason, timeSpent)
  }

  /** The session invariant: one answer per question already passed. */
  predicate Consistent(s: State)
  {
    |s.answers| == s.currentQuestion
  }

  /** The reducer. */
  function Apply(s: State, a: Action): (r: State)
    // every transition but `incrementQuestion` keeps the invariant ...
    ensures Consistent(s) && !a.IncrementQuestion? ==> Consistent(r)
    // ... and no transition lets the answers overtake the index
    ensures |s.answers| <= s.currentQuestion ==> |r.answers| <= r.currentQuestion
    // answers are append-only, one at a time, except on reset
    ensures !a.ResetCandidate? ==> s.answers <= r.answers && |r.answers| <= |s.answers| + 1
    ensures a.ResetCandidate? ==> r == Initial
    // identity fields change only through `setCandidateInfo` and reset
    ensures !a.SetCandidateInfo? && !a.ResetCandidate? ==>
      r.name == s.name && r.email == s.email && r.phone == s.phone && r.resumeFilename == s.resumeFilename
  {
    match a
    case AddAnswer(p) =>
      s.(answers := s.answers + [Record(p, TimeSpent(s.currentDuration, s.timeLeft))],
         currentQuestion := s.currentQuestion + 1,
         currentDuration := 0,
         timeLeft := 0,
         paused := false,
         progressSaved := false)
    case IncrementQuestion =>
      s.(currentQuestion := s.currentQuestion + 1)
    case SetCandidateInfo(info) =>
      s.(name := info.name,
         email := info.email,
         phone := info.phone,
         resumeFilename := if info.resumeFilename.Some? then info.resumeFilename.value else s.resumeFilename)
    case ResetCandidate =>
      Initial
    case PauseCandidate =>
      s.(progressSaved := true, paused := true)
    case ResumeCandidate =>
      s.(progressSaved := false, paused := false)
    case SetTimer(d) =>
      s.(currentDuration := d, timeLeft := d, paused := false)
    case SetTimeLeft(t) =>
      s.(timeLeft := t)
    case SetPaused(b) =>
      s.(paused := b)
  }

  /** The state reached from `s` by applying `actions` in order. */
  function Replay(s: State, actions: seq<Action>): State
    decreases |actions|
  {
    if actions == [] then s else Replay(Apply(s, actions[0]), actions[1..])
  }

  /** `addAnswer` appends exactly one record, the payload with `timeSpent` =
      max(0, currentDuration - timeLeft), keeps every earlier answer, advances the index by
      one and clears the timer and pause fields. */
  lemma AddAnswerStep(s: State, p: AnswerPayload)
    ensures var r := Apply(s, AddAnswer(p));
      && |r.answers| == |s.answers| + 1
      && r.answers[..|s.answers|] == s.answers
      && r.answers[|s.answers|] == Record(p, TimeSpent(s.currentDuration, s.timeLeft))
      && r.answers[|s.answers|].timeSpent >= 0
      && r.currentQuestion == s.currentQuestion + 1
      && r.currentDuration == 0 && r.timeLeft == 0 && !r.paused && !r.progressSaved
      && r.(answers := s.answers, currentQuestion := s.currentQuestion,
            currentDuration := s.currentDuration, timeLeft := s.timeLeft,
            paused := s.paused, progressSaved := s.progressSaved) == s
  {
    var r := Apply(s, AddAnswer(p));
    assert r.answers[..|s.answers|] == s.answers;
  }

  /** Starting from `initialState`, every run that never uses `incrementQuestion` keeps one
      answer per passed question. */
  lemma {:induction false} ReplayKeepsConsistent(s: State, actions: seq<Action>)
    requires Consistent(s)
    requires forall i :: 0 <= i < |actions| ==> !actions[i].IncrementQuestion?
    ensures Consistent(Replay(s, actions))
    decreases |actions|
  {
    if actions != [] {
      ReplayKeepsConsistent(Apply(s, actions[0]), actions[1..]);
    }
  }

  lemma InitialRunsStayConsistent(actions: seq<Action>)
    requires forall i :: 0 <= i < |actions| ==> !actions[i].IncrementQuestion?
    ensures Consistent(Replay(Initial, actions))
  {
    ReplayKeepsConsistent(Initial, actions);
  }

  /** With `incrementQuestion` allowed, the answers can fall behind the index but never
      overtake it. */
  lemma {:induction false} ReplayNeverOvertakes(s: State, actions: seq<Action>)
    requires |s.answers| <= s.currentQuestion
    ensures |Replay(s, actions).answers| <= Replay(s, actions).currentQuestion
    decreases |actions|
  {
    if actions != [] {
      ReplayNeverOvertakes(Apply(s, actions[0]), actions[1..]);
    }
  }

  /** `incrementQuestion` alone breaks the invariant, from every consistent state. */
  lemma IncrementQuestionBreaksConsistency(s: State)
    requires Consistent(s)
    ensures !Consistent(Apply(s, IncrementQuestion))
    ensures Apply(s, IncrementQuestion).answers == s.answers
  {
  }

  /** `resetCandidate` yields `initialState` from any state, so it is idempotent, and every
      run that ends with it ends in `initialState`. */
  lemma ResetForgetsEverything(s: State, actions: seq<Action>)
    ensures Replay(s, actions + [ResetCandidate]) == Initial
    ensures Apply(Apply(s, ResetCandidate), ResetCandidate) == Apply(s, ResetCandidate)
  {
    ReplayAppend(s, actions, ResetCandidate);
  }

  lemma {:induction false} ReplayAppend(s: State, actions: seq<Action>, a: Action)
    ensures Replay(s, actions + [a]) == Apply(Replay(s, actions), a)
    decreases |actions|
  {
    if actions != [] {
      assert (actions + [a])[1..] == actions[1..] + [a];
      ReplayAppend(Apply(s, actions[0]), actions[1..], a);
    }
  }

  /** `setCandidateInfo` overwrites name, email and phone, replaces the filename only when
      the payload carries a string, and touches nothing else. */
  lemma SetCandidateInfoFrame(s: State, info: InfoPayload)
    ensures var r := Apply(s, SetCandidateInfo(info));
      && r.name == info.name && r.email == info.email && r.phone == info.phone
      && (info.resumeFilename.None? ==> r.resumeFilename == s.resumeFilename)
      && (info.resumeFilename.Some? ==> r.resumeFilename == info.resumeFilename.value)
      && r.(name := s.name, email := s.email, phone := s.phone, resumeFilename := s.resumeFilename) == s
  {
  }

  /** Pausing and resuming move `paused` and `progressSaved` together; `setTimer` and
      `setPaused` move `paused` alone. Each leaves every other field, the answers, the
      index and (apart from `setTimer`) the timer, as it was. */
  lemma PauseFlags(s: State, d: int, b: bool)
    ensures Apply(s, PauseCandidate) == s.(paused := true, progressSaved := true)
    ensures Apply(s, ResumeCandidate) == s.(paused := false, progressSaved := false)
    ensures Apply(s, SetTimer(d)) == s.(currentDuration := d, timeLeft := d, paused := false)
    ensures Apply(s, SetPaused(b)) == s.(paused := b)
  {
  }

  /** After `setTimer(d)` the duration and the time left both equal `d`; `setTimeLeft`
      changes the time left and nothing else. */
  lemma TimerFields(s: State, d: int, t: int)
    ensures Apply(s, SetTimer(d)).currentDuration == d && Apply(s, SetTimer(d)).timeLeft == d
    ensures Apply(s, SetTimeLeft(t)) == s.(timeLeft := t)
  {
  }

  /** The session record, updated in place as the reducers update the store's draft. */
  class Session {
    var name: string
    var email: string
    var phone: string
    var resumeFilename: string
    var answers: seq<AnswerRecord>
    var currentQuestion: nat
    var progressSaved: bool
    var currentDuration: int
    var timeLeft: int
    var paused: bool

    /** The current value of the record. */
    function Snapshot(): State
      reads this
    {
      State(name, email, phone, resumeFilename, answers, currentQuestion, progressSaved,
            currentDuration, timeLeft, paused)
    }

    /** A session restored from a previous value (the store's preloaded state). */
    constructor (s: State)
      ensures Snapshot() == s
    {
      name, email, phone, resumeFilename := s.name, s.email, s.phone, s.resumeFilename;
      answers, currentQuestion := s.answers, s.currentQuestion;
      progressSaved, currentDuration, timeLeft, paused :=
        s.progressSaved, s.currentDuration, s.timeLeft, s.paused;
    }

    method AddAnswer(p: AnswerPayload)
      modifies this
      ensures Snapshot() == Apply(old(Snapshot()), Action.AddAnswer(p))
      ensures answers == old(answers) + [Record(p, TimeSpent(old(currentDuration), old(timeLeft)))]
      ensures currentQuestion == old(currentQuestion) + 1
      ensures currentDuration == 0 && timeLeft == 0 && !paused && !progressSaved
    {
      answers := answers + [Record(p, TimeSpent(currentDuration, timeLeft))];
      currentQuestion := currentQuestion + 1;
      currentDuration := 0;
      timeLeft := 0;
      paused := false;
      progressSaved := false;
    }

    method IncrementQuestion()
      modifies this
      ensures Snapshot() == Apply(old(Snapshot()), Action.IncrementQuestion)
      ensures currentQuestion == old(currentQuestion) + 1 && answers == old(answers)
    {
      currentQuestion := currentQuestion + 1;
    }

    method SetCandidateInfo(info: InfoPayload)
      modifies this
      ensures Snapshot() == Apply(old(Snapshot()), Action.SetCandidateInfo(info))
      ensures name == info.name && email == info.email && phone == info.phone
      ensures resumeFilename == if info.resumeFilename.Some? then info.resumeFilename.value else old(resumeFilename)
    {
      name := info.name;
      email := info.email;
      phone := info.phone;
      if info.resumeFilename.Some? {
        resumeFilename := info.resumeFilename.value;
      }
    }

    method ResetCandidate()
      modifies this
      ensures Snapshot() == Apply(old(Snapshot()), Action.ResetCandidate)
      ensures Snapshot() == Initial
    {
      name, email, phone, resumeFilename := "", "", "", "";
      answers, currentQuestion := [], 0;
      progressSaved, currentDuration, timeLeft, paused := false, 0, 0, false;
    }

    method PauseCandidate()
      modifies this
      ensures Snapshot() == Apply(old(Snapshot()), Action.PauseCandidate)
      ensures paused && progressSaved
    {
      progressSaved := true;
      paused := true;
    }

    method ResumeCandidate()
      modifies this
      ensures Snapshot() == Apply(old(Snapshot()), Action.ResumeCandidate)
      ensures !paused && !progressSaved
    {
      progressSaved := false;
      paused := false;
    }

    method SetTimer(duration: int)
      modifies this
      ensures Snapshot() == Apply(old(Snapshot()), Action.SetTimer(duration))
      ensures currentDuration == duration && timeLeft == duration && !paused
    {
      currentDuration := duration;
      timeLeft := duration;
      paused := false;
    }

    method SetTimeLeft(seconds: int)
      modifies this
      ensures Snapshot() == Apply(old(Snapshot()), Action.SetTimeLeft(seconds))
      ensures timeLeft == seconds
    {
      timeLeft := seconds;
    }

    method SetPaused(value: bool)
      modifies this
      ensures Snapshot() == Apply(old(Snapshot()), Action.SetPaused(value))
      ensures paused == value
    {
      paused := value;
    }

    /** Runs the reducer for one dispatched action. */
    method Dispatch(a: Action)
      modifies this
      ensures Snapshot() == Apply(old(Snapshot()), a)
    {
      match a
      case AddAnswer(p) => AddAnswer(p);
      case IncrementQuestion => IncrementQuestion();
      case SetCandidateInfo(info) => SetCandidateInfo(info);
      case ResetCandidate => ResetCandidate();
      case PauseCandidate => PauseCandidate();
      case ResumeCandidate => ResumeCandidate();
      case SetTimer(d) => SetTimer(d);
      case SetTimeLeft(t) => SetTimeLeft(t);
      case SetPaused(b) => SetPaused(b);
    }
  }
}
