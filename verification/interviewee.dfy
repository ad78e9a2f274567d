/**
 * The candidate's page (frontend/src/pages/Interviewee.jsx): a three-step machine
 * (resume upload, profile form, interview) with a "welcome back" offer that is decided
 * once, when the page mounts, from the persisted session.
 */
module Interviewee {

  import opened Wrappers
  import opened CandidateSlice
  import ProfileForm

  /** The `step` state: "resume" | "profile" | "interview". */
  datatype Step = ResumeStep | ProfileStep | InterviewStep

  /** `hasUnfinishedInterview`: a started interview by a candidate whose contact details
      are all filled in. */
  predicate HasUnfinishedInterview(s: State)
  {
    s.currentQuestion > 0 && s.name != "" && s.email != "" && s.phone != ""
  }

  /** A fresh or reset session is never offered for resumption, and neither is one whose
      candidate has not given all contact details. */
  lemma FreshSessionNotOffered(s: State)
    ensures !HasUnfinishedInterview(Initial)
    ensures s.currentQuestion == 0 ==> !HasUnfinishedInterview(s)
    ensures HasUnfinishedInterview(s) ==> !HasUnfinishedInterview(Apply(s, ResetCandidate))
  {
  }

  /** Which of the three screens the page renders: upload, profile form, interview. */
  datatype Screens = Screens(upload: bool, profile: bool, chat: bool)

  function Render(step: Step): (r: Screens)
    ensures r.upload <==> step == ResumeStep
    ensures r.profile <==> step == ProfileStep
    ensures r.chat <==> step == InterviewStep
    ensures r.upload || r.profile || r.chat
    ensures !(r.upload && r.profile) && !(r.upload && r.chat) && !(r.profile && r.chat)
  {
    Screens(step == ResumeStep, step == ProfileStep, step == InterviewStep)
  }

  /** Exactly one screen is shown for every step. */
  lemma ExactlyOneScreen(step: Step)
    ensures var r := Render(step);
      (if r.upload then 1 else 0) + (if r.profile then 1 else 0) + (if r.chat then 1 else 0) == 1
  {
  }

  /** The events the page reacts to. */
  datatype Event = UploadSuccess(fields: ProfileForm.Parsed) | ProfileDone | ResumeInterview | StartNewInterview

  /** The step after an event. */
  function NextStep(step: Step, e: Event): Step
  {
    match e
    case UploadSuccess(_) => ProfileStep
    case ProfileDone => InterviewStep
    case ResumeInterview => InterviewStep
    case StartNewInterview => ResumeStep
  }

  function Rank(step: Step): nat
  {
    match step
    case ResumeStep => 0
    case ProfileStep => 1
    case InterviewStep => 2
  }

  /** An event can only happen on the screen that raises it: upload success on the upload
      screen, profile done on the form; the modal's two buttons at any step. */
  predicate Enabled(step: Step, e: Event)
  {
    match e
    case UploadSuccess(_) => Render(step).upload
    case ProfileDone => Render(step).profile
    case _ => true
  }

  /** The steps only move forward, resume, profile, interview, except Start New, which
      always goes back to the upload. */
  lemma OnlyStartNewGoesBack(step: Step, e: Event)
    requires Enabled(step, e)
    ensures e != StartNewInterview ==> Rank(NextStep(step, e)) > Rank(step) || NextStep(step, e) == step == InterviewStep
    ensures e == StartNewInterview ==> NextStep(step, e) == ResumeStep
  {
  }

  /** The page component. */
  class Page {
    const session: Session
    var step: Step
    var parsedData: Option<ProfileForm.Parsed>
    var showWelcomeBack: bool

    /** The initial step is the upload and the modal is hidden. */
    constructor (session: Session)
      ensures this.session == session
      ensures step == ResumeStep && parsedData == None && !showWelcomeBack
    {
      this.session := session;
      step := ResumeStep;
      parsedData := None;
      showWelcomeBack := false;
    }

    /** The mount effect: shows the modal when the restored session is unfinished. */
    method Mount()
      modifies this
      ensures showWelcomeBack == (old(showWelcomeBack) || HasUnfinishedInterview(session.Snapshot()))
      ensures step == old(step) && parsedData == old(parsedData)
    {
      if HasUnfinishedInterview(session.Snapshot()) {
        showWelcomeBack := true;
      }
    }

    /** Resume: hide the modal, unpause the session, show the interview. Answers and the
        question index are kept. */
    method HandleResumeInterview()
      modifies this, session
      ensures !showWelcomeBack && step == InterviewStep && parsedData == old(parsedData)
      ensures session.Snapshot() == Apply(old(session.Snapshot()), ResumeCandidate)
      ensures session.answers == old(session.answers) && session.currentQuestion == old(session.currentQuestion)
    {
      showWelcomeBack := false;
      session.ResumeCandidate();
      step := InterviewStep;
    }

    /** Start New: hide the modal, reset the session, back to the upload, forget the
        extracted fields. */
    method HandleStartNewInterview()
      modifies this, session
      ensures !showWelcomeBack && step == ResumeStep && parsedData == None
      ensures session.Snapshot() == Initial
    {
      showWelcomeBack := false;
      session.ResetCandidate();
      step := ResumeStep;
      parsedData := None;
    }

    /** The upload finished: keep the extracted fields, show the profile form. */
    method HandleUploadSuccess(fields: ProfileForm.Parsed)
      modifies this
      ensures parsedData == Some(fields) && step == NextStep(old(step), UploadSuccess(fields))
      ensures step == ProfileStep && showWelcomeBack == old(showWelcomeBack)
    {
      parsedData := Some(fields);
      step := ProfileStep;
    }

    /** The profile form's `onDone`: show the interview. */
    method HandleProfileDone()
      modifies this
      ensures step == InterviewStep && step == NextStep(old(step), ProfileDone)
      ensures parsedData == old(parsedData) && showWelcomeBack == old(showWelcomeBack)
    {
      step := InterviewStep;
    }

    /** The profile form's submit followed by its `onDone`: when the guard passes, the
        contact details are stored and the interview is shown; otherwise nothing changes. */
    method SubmitProfile(name: string, email: string, phone: string) returns (done: bool)
      modifies this, session
      ensures done <==> ProfileForm.Submit(name, email, phone).Some?
      ensures !done ==> session.Snapshot() == old(session.Snapshot()) && step == old(step)
      ensures done ==> session.Snapshot() == Apply(old(session.Snapshot()), SetCandidateInfo(ProfileForm.Submit(name, email, phone).value))
      ensures done ==> step == InterviewStep
      ensures parsedData == old(parsedData) && showWelcomeBack == old(showWelcomeBack)
    {
      var payload := ProfileForm.Submit(name, email, phone);
      done := payload.Some?;
      if done {
        session.SetCandidateInfo(payload.value);
        HandleProfileDone();
      }
    }
  }
}
