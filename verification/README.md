# AI Interview — a Dafny model

This project models the core of an interview application that is timed and scored by an AI. A candidate
uploads a resume and confirms their contact details in a profile form. They then answer six questions
(two Easy, two Medium, two Hard), each against a per-question countdown. The answers are posted to a
scoring endpoint, which computes a weighted score out of 100 and a summary. An interviewer dashboard
lists the stored candidates and can search, sort, delete and export them as CSV.

The modules follow the source files:

| module | models |
|---|---|
| `CandidateSlice` (`candidate_slice.dfy`) | the Redux session slice: the `State` record, the nine actions, the reducer `Apply` as the specification, and the class `Session` whose methods update the fields in place |
| `Store` (`store.dfy`) | the local-storage key, `loadState`/`saveState`, the JSON form of a session and its round trip, and the subscribe hook that saves after every dispatch |
| `Timer` (`timer.dfy`) | the countdown component as a class (`Countdown`) and the `m:ss` formatter |
| `Chat` (`chat.dfy`) | the interview screen: current question, time budgets, timer (re)initialisation, completion, the posted body, question cache acceptance, the three answer handlers |
| `ProfileForm` (`profile_form.dfy`) | the prefill, the missing-field list, the e-mail and phone regular expressions, the submit guard |
| `Interviewee` (`interviewee.dfy`) | the three-step candidate page and its "welcome back" decision |
| `Dashboard` (`dashboard.dfy`) | search, score sort, CSV export and its read-back, regex escaping, resume links, deletion, score badges |
| `Views` (`views.dfy`) | the backend endpoints: resume upload validation, answer scoring and summary, the static and generated question lists |
| `Text`, `Json`, `Wrappers` | JavaScript/Python string primitives (trim, strip, lower-case, number printing), a JSON value type, `Option` |

The reducer is a pure function `CandidateSlice.Apply`. Each mutating method of `Session` is proved
to move `Snapshot()` exactly as `Apply` does. The invariants are proved about `Apply` and `Replay`:

- `|answers| == currentQuestion` holds for every action except `incrementQuestion`;
- the answer list is append-only until a reset.

JSON parsing and printing are parameters. The round trips are proved under `Store.ReadsBack`, the one
law linking the two, stated for the value actually saved: parsing the printed object gives it back.

A phone number is accepted when it has an optional `+`, then one digit, then at least seven
digits, whitespace characters or hyphens.

## Model

| member | source | states |
|---|---|---|
| CandidateSlice.TimeSpent | frontend/src/redux/slices/candidatesSlice.js:25 | the recorded time is `max(0, duration - timeLeft)`: never negative, zero when no time was used |
| CandidateSlice.Apply | frontend/src/redux/slices/candidatesSlice.js:3-67 | every action except `incrementQuestion` keeps `|answers| == currentQuestion`; answers never get ahead of the index; outside reset, answers only gain one record at the end; reset restores the initial state; only `setCandidateInfo` and reset touch identity fields |
| CandidateSlice.AddAnswerStep | frontend/src/redux/slices/candidatesSlice.js:21-33 | `addAnswer` appends the payload with its time spent, advances the index by one, and zeroes the timer, pause and saved flags |
| CandidateSlice.ReplayKeepsConsistent | frontend/src/redux/slices/candidatesSlice.js:20-67 | any run of actions without `incrementQuestion` preserves `|answers| == currentQuestion` |
| CandidateSlice.InitialRunsStayConsistent | frontend/src/redux/slices/candidatesSlice.js:3-15 | starting from the initial state, such runs always have one answer per passed question |
| CandidateSlice.ReplayNeverOvertakes | frontend/src/redux/slices/candidatesSlice.js:20-67 | no run of actions gets more answers than the question index |
| CandidateSlice.IncrementQuestionBreaksConsistency | frontend/src/redux/slices/candidatesSlice.js:34-36 | `incrementQuestion` advances the index without an answer, which breaks the answer/index correspondence |
| CandidateSlice.ResetForgetsEverything | frontend/src/redux/slices/candidatesSlice.js:46 | after a reset the state is the initial state whatever came before; reset is idempotent |
| CandidateSlice.SetCandidateInfoFrame | frontend/src/redux/slices/candidatesSlice.js:37-45 | name, email and phone are replaced; the file name only when one is given; answers, index and timer are untouched |
| CandidateSlice.PauseFlags | frontend/src/redux/slices/candidatesSlice.js:47-66 | the whole new state: pause sets `paused` and `progressSaved`, resume clears both, `setTimer(d)` sets both timer fields to `d` and unpauses, `setPaused(b)` sets only `paused`; every other field, the answers and the index are unchanged |
| CandidateSlice.TimerFields | frontend/src/redux/slices/candidatesSlice.js:55-63 | `setTimer(d)` sets duration and time left to `d`; `setTimeLeft` changes only the time left |
| CandidateSlice.Session.constructor | frontend/src/redux/slices/candidatesSlice.js:17-19 | the session starts from the given (preloaded or initial) state |
| CandidateSlice.Session.AddAnswer | frontend/src/redux/slices/candidatesSlice.js:21-33 | in-place update equal to the reducer; the new record is appended, the index is one higher, the timer is zeroed |
| CandidateSlice.Session.IncrementQuestion | frontend/src/redux/slices/candidatesSlice.js:34-36 | the index is one higher and the answers are unchanged |
| CandidateSlice.Session.SetCandidateInfo | frontend/src/redux/slices/candidatesSlice.js:37-45 | identity replaced; the file name is kept unless one is given |
| CandidateSlice.Session.ResetCandidate | frontend/src/redux/slices/candidatesSlice.js:46 | the state becomes the initial state |
| CandidateSlice.Session.PauseCandidate | frontend/src/redux/slices/candidatesSlice.js:47-50 | paused and progress-saved |
| CandidateSlice.Session.ResumeCandidate | frontend/src/redux/slices/candidatesSlice.js:51-54 | not paused, progress not saved |
| CandidateSlice.Session.SetTimer | frontend/src/redux/slices/candidatesSlice.js:55-60 | duration and time left set, unpaused |
| CandidateSlice.Session.SetTimeLeft | frontend/src/redux/slices/candidatesSlice.js:61-63 | only the time left changes |
| CandidateSlice.Session.SetPaused | frontend/src/redux/slices/candidatesSlice.js:64-66 | only the pause flag changes |
| CandidateSlice.Session.Dispatch | frontend/src/redux/slices/candidatesSlice.js:20-67 | dispatching any action moves the state exactly as the reducer does |
| Store.LoadState | frontend/src/redux/store.js:7-18 | absent when no or empty stored text; restores only the `candidate` entry and only when it is truthy; unparseable text gives nothing |
| Store.ToSave | frontend/src/redux/store.js:22 | the saved object has at most the `candidate` key, holding exactly the current candidate |
| Store.SaveState | frontend/src/redux/store.js:20-25 | a failing write leaves storage unchanged; otherwise only the state key is (re)written; other keys are kept |
| Store.SaveThenLoad | frontend/src/redux/store.js:7-25 | whenever the parser reads back the printed object, loading what was just saved gives back the saved candidate entry, and nothing when the candidate is missing or falsy |
| Store.LoadRestoresVerbatim | frontend/src/redux/store.js:11-14 | a stored object with a truthy candidate is restored as that candidate alone |
| Store.ToJson | frontend/src/redux/store.js:22-23 | the JSON form of a session is truthy, so it is always restored |
| Store.RecordRoundTrip | frontend/src/redux/store.js:22-23 | an answer record survives JSON encoding and decoding |
| Store.AnswersRoundTrip | frontend/src/redux/store.js:22-23 | an answer list survives JSON encoding and decoding |
| Store.SessionRoundTrip | frontend/src/redux/store.js:22-23 | a session survives JSON encoding and decoding |
| Store.PersistedSessionSurvivesReload | frontend/src/redux/store.js:7-27 | whenever the parser reads back the printed object, saving a session and loading it on the next page load restores the same session |
| Store.PersistedStore.constructor | frontend/src/redux/store.js:27-38 | the store starts with the given session and storage |
| Store.PersistedStore.Dispatch | frontend/src/redux/store.js:41-43 | every dispatch updates the session by the reducer and then saves the new session |
| Timer.TickValues | frontend/src/components/Timer.jsx:16-21 | counting down from n reports n-1, n-2, ..., 0; nothing when n is not positive |
| Timer.TickValuesDescend | frontend/src/components/Timer.jsx:16-21 | reported values are non-negative, fall by one per tick, and the last is 0 |
| Timer.Countdown.constructor | frontend/src/components/Timer.jsx:4 | time left starts at `seconds`; nothing reported yet |
| Timer.Countdown.SetSeconds | frontend/src/components/Timer.jsx:7-9 | a changed prop resets and restarts the countdown; an unchanged one does nothing |
| Timer.Countdown.Step | frontend/src/components/Timer.jsx:11-24 | at or below zero, `onTimeUp` fires once and the countdown stops; otherwise one second passes and the new value is reported |
| Timer.Countdown.RunToExpiry | frontend/src/components/Timer.jsx:11-24 | left alone, the countdown reports exactly `TickValues(timeLeft)` and then fires `onTimeUp` exactly once |
| Timer.JsRem | frontend/src/components/Timer.jsx:44 | JavaScript `%`: the remainder has the dividend's sign and is smaller than the divisor |
| Timer.JsRemDivision | frontend/src/components/Timer.jsx:44 | the dividend is the divisor times the quotient truncated toward zero plus the remainder, so the dividend minus the remainder is a multiple of the divisor |
| Timer.PadTwo | frontend/src/components/Timer.jsx:45 | the padded length is two, or the text's own length if longer |
| Timer.PadTwoShape | frontend/src/components/Timer.jsx:45 | padding only adds `0`s in front: the result ends with the text and everything before it is `0` |
| Timer.TwoDigits | frontend/src/components/Timer.jsx:44-45 | seconds below 60 are written as exactly two digits |
| Timer.FmtReadsBack | frontend/src/components/Timer.jsx:42-46 | for a non-negative total, `m:ss` has digits around one colon, seconds below 60, and 60*m+ss equals the total |
| Timer.FmtInjective | frontend/src/components/Timer.jsx:42-46 | distinct non-negative totals display differently |
| Chat.QuestionTime | frontend/src/components/Chat.jsx:102-103 | every question gets a positive budget |
| Chat.QuestionBudgets | frontend/src/components/Chat.jsx:102-103 | Easy 20 s, Medium 60 s, Hard 120 s, anything else or no question 30 s, each an if-and-only-if |
| Chat.ServerTimesAgree | frontend/src/components/Chat.jsx:102-103 | the screen's budget for a generated question equals the time the server attached to it |
| Chat.TimerResumesOrRestarts | frontend/src/components/Chat.jsx:105-115 | a kept timer resumes from the stored positive time left; a re-initialised one starts from the full budget and needs no further re-initialisation |
| Chat.FinishExactlyPastTheEnd | frontend/src/components/Chat.jsx:61-69 | finishing happens exactly when a non-empty question list has been run past and there is an answer; in a consistent session, exactly when every question has an answer |
| Chat.FinishRequest | frontend/src/components/Chat.jsx:74-83 | the posted body holds the session's name, email and phone, the session's file name exactly when it is non-empty, and every answer's text, difficulty and attended flag in order |
| Chat.FinishRequestScoring | frontend/src/components/Chat.jsx:67-83 | only answers marked attended can earn points; a run of skips and timeouts scores 0; a finishing body is never empty |
| Chat.AcceptCache | frontend/src/components/Chat.jsx:26-41 | the cache is used exactly when stored text exists, parses, and is an array of six items |
| Chat.HandlersProduceWellFormed | frontend/src/components/Chat.jsx:168-220 | submit does nothing on blank input; every record is attended exactly for `submitted`/`next_with_answer`, attended answers are trimmed and non-blank, skips have empty answers |
| Chat.ChatScreen.constructor | frontend/src/components/Chat.jsx:8-16 | the screen starts with empty input over the given questions and shared session |
| Chat.ChatScreen.UnpauseEffect | frontend/src/components/Chat.jsx:19-23 | a paused session is resumed; an unpaused one is untouched |
| Chat.ChatScreen.TimerEffect | frontend/src/components/Chat.jsx:106-115 | dispatches `setTimer(questionTime)` exactly when needed, after which no re-initialisation is needed |
| Chat.ChatScreen.OnInputChange | frontend/src/components/Chat.jsx:264-266 | typing sets the input to the box's text and leaves the session and questions unchanged |
| Chat.ChatScreen.HandleSubmit | frontend/src/components/Chat.jsx:168-181 | blank input changes nothing; otherwise the trimmed answer is recorded and the input cleared |
| Chat.ChatScreen.HandleTimeUp | frontend/src/components/Chat.jsx:183-194 | a timeout record is added with whatever was typed, and the input cleared |
| Chat.ChatScreen.HandleNext | frontend/src/components/Chat.jsx:196-220 | an answered or skipped record is added and the input cleared |
| ProfileForm.InitialValues | frontend/src/components/ProfileForm.jsx:7-9 | a field starts empty exactly when there is no extracted data or the parser did not find it or found it empty; a found field starts with its value |
| ProfileForm.PrefillMissing | frontend/src/components/ProfileForm.jsx:7-17 | without extracted data every field is listed missing; with data, each of Name, Email, Phone is listed missing iff the parser did not find it or found it empty, and a found field starts with its value |
| ProfileForm.Missing | frontend/src/components/ProfileForm.jsx:11-17 | a field is listed iff it is empty, in Name, Email, Phone order; the list is empty iff all are filled |
| ProfileForm.EmailOkUnanchored | frontend/src/components/ProfileForm.jsx:21 | the e-mail check is unanchored: surrounding text does not make a valid address fail |
| ProfileForm.EmailOkShape | frontend/src/components/ProfileForm.jsx:21 | a passing address has at least five characters and contains `@` and `.` |
| ProfileForm.EmailExamples | frontend/src/components/ProfileForm.jsx:21 | `a@b.c` passes; addresses missing a part around `@` or `.` fail |
| ProfileForm.PhoneOkPlus | frontend/src/components/ProfileForm.jsx:22 | a valid number may gain one leading `+` but not two; a valid number has at least eight characters and no letters |
| ProfileForm.PhoneExamples | frontend/src/components/ProfileForm.jsx:22 | `+91 98765-43210` and `12345678` pass; seven digits, a leading hyphen, or a space after `+` fail |
| ProfileForm.Submit | frontend/src/components/ProfileForm.jsx:19-25 | a payload is dispatched iff the name is non-empty and both formats pass; it carries no file name |
| ProfileForm.SubmitImpliesNothingMissing | frontend/src/components/ProfileForm.jsx:19-25 | whatever the guard accepts has no missing field, and dispatching it keeps an earlier file name |
| Interviewee.FreshSessionNotOffered | frontend/src/pages/Interviewee.jsx:18-29 | a fresh, reset, or not-started session is never offered for resumption |
| Interviewee.Render | frontend/src/pages/Interviewee.jsx:66-74 | each screen is shown iff the step names it; at least one and no two screens are shown at once |
| Interviewee.ExactlyOneScreen | frontend/src/pages/Interviewee.jsx:66-74 | exactly one of upload, profile and chat is shown |
| Interviewee.OnlyStartNewGoesBack | frontend/src/pages/Interviewee.jsx:31-51 | enabled events move forward through resume, profile, interview; only Start New goes back to the upload |
| Interviewee.Page.constructor | frontend/src/pages/Interviewee.jsx:13-15 | the page starts at the upload step, with no extracted data and the modal hidden |
| Interviewee.Page.Mount | frontend/src/pages/Interviewee.jsx:18-29 | the modal is shown iff the restored session is unfinished |
| Interviewee.Page.HandleResumeInterview | frontend/src/pages/Interviewee.jsx:31-35 | the modal is hidden, the session unpaused with answers and index kept, the interview shown |
| Interviewee.Page.HandleStartNewInterview | frontend/src/pages/Interviewee.jsx:37-42 | the modal is hidden, the session reset to initial, back to the upload with no extracted data |
| Interviewee.Page.HandleUploadSuccess | frontend/src/pages/Interviewee.jsx:44-47 | the extracted fields are kept and the profile form is shown |
| Interviewee.Page.HandleProfileDone | frontend/src/pages/Interviewee.jsx:49-51 | the interview is shown |
| Interviewee.Page.SubmitProfile | frontend/src/components/ProfileForm.jsx:19-26 | when the guard passes, the contact details are stored and the interview is shown; otherwise nothing changes |
| Dashboard.Filter | frontend/src/components/Dashboard.jsx:30-36 | keeps exactly the candidates whose lower-cased name contains the lower-cased search, with their multiplicities |
| Dashboard.EmptySearchKeepsAll | frontend/src/components/Dashboard.jsx:31-36 | an empty search shows every candidate |
| Dashboard.Insert | frontend/src/components/Dashboard.jsx:37-41 | insertion keeps the list sorted by score and adds exactly the new element |
| Dashboard.SortByScore | frontend/src/components/Dashboard.jsx:37-41 | the result is sorted by score in the chosen order and is a permutation of the input |
| Dashboard.Visible | frontend/src/components/Dashboard.jsx:30-42 | the shown list is sorted and is a permutation of the filtered candidates |
| Dashboard.VisibleExtremes | frontend/src/components/Dashboard.jsx:37-41 | with no search, the first row is the highest score (descending) or the lowest (ascending) |
| Dashboard.DoubleQuotes | frontend/src/components/Dashboard.jsx:86 | doubling quotes never shortens the text |
| Dashboard.QuoteCell | frontend/src/components/Dashboard.jsx:84-87 | every cell is wrapped in quotes |
| Dashboard.ParseQuotedRoundTrip | frontend/src/components/Dashboard.jsx:86 | a reader of doubled quotes recovers the original text and the rest |
| Dashboard.CellRoundTrip | frontend/src/components/Dashboard.jsx:84-87 | a quoted cell reads back as the original text |
| Dashboard.JoinCells | frontend/src/components/Dashboard.jsx:82-89 | a non-empty row starts with a quote |
| Dashboard.RecordRoundTrip | frontend/src/components/Dashboard.jsx:81-91 | a comma-joined row reads back as its cells |
| Dashboard.CsvRoundTrip | frontend/src/components/Dashboard.jsx:81-91 | the newline-joined CSV text reads back as its rows |
| Dashboard.RowCells | frontend/src/components/Dashboard.jsx:72-79 | six cells: id, name, email, phone (missing as empty), score (missing as 0), creation time |
| Dashboard.ExportRows | frontend/src/components/Dashboard.jsx:70-80 | the header followed by one six-cell row per shown candidate, in order |
| Dashboard.ExportReadsBack | frontend/src/components/Dashboard.jsx:69-91 | the exported CSV text reads back as exactly the header and the shown rows |
| Dashboard.EscapeRegExp | frontend/src/components/Dashboard.jsx:111-113 | escaping never shortens; text without special characters is unchanged |
| Dashboard.EscapeRegExpChar | frontend/src/components/Dashboard.jsx:111-113 | a single character gets a backslash in front iff it is one of the fourteen special characters (`.*+?^${}()`, the vertical bar, `[`, `]` and backslash), and is otherwise kept |
| Dashboard.EscapeRegExpConcat | frontend/src/components/Dashboard.jsx:111-113 | escaping is character by character: the escape of `a + b` is the escape of `a` followed by the escape of `b` |
| Dashboard.EscapeRegExpRoundTrip | frontend/src/components/Dashboard.jsx:111-113 | removing the escapes gives the original text back |
| Dashboard.BuildResumeUrl | frontend/src/components/Dashboard.jsx:44-55 | empty iff no resume; an http(s) link (any case) is kept; a path gets the API origin in front; without a computable origin the path is returned as it is; the result always ends with the resume text |
| Dashboard.ResumeUrlExamples | frontend/src/components/Dashboard.jsx:44-55 | an upper-case `HTTP://` link is kept as given; the path `/cv` becomes `http://api/cv` |
| Dashboard.RemoveId | frontend/src/components/Dashboard.jsx:61 | removes exactly the candidates with that id and keeps all others with their multiplicities |
| Dashboard.DeletedNotShown | frontend/src/components/Dashboard.jsx:57-67 | after deletion no shown row has the deleted id, whatever the search and order |
| Dashboard.Board.constructor | frontend/src/components/Dashboard.jsx:6-9 | no candidates, nothing selected, empty search, descending order |
| Dashboard.Board.Loaded | frontend/src/components/Dashboard.jsx:13-28 | the fetched list replaces the candidates; nothing else changes |
| Dashboard.Board.DeleteCandidate | frontend/src/components/Dashboard.jsx:57-67 | without confirmation or on server failure nothing changes; otherwise the id is removed and its selection cleared |
| Dashboard.TierOf | frontend/src/components/Dashboard.jsx:253-257 | green iff score >= 70, amber iff 40 <= score < 70, red iff score < 40 |
| Dashboard.HighCountMatchesBadges | frontend/src/components/Dashboard.jsx:157 | the "High Score" count equals the number of green badges; the three tiers partition the list |
| Views.AfterLastDot | backend/api/views.py:41 | the text after the last dot has no dot and ends the name, with a dot before it when shorter |
| Views.ResumeUpload | backend/api/views.py:23-58 | no file, or a file with an empty name (falsy in Django), is refused first; a file over 10 MB is refused before its type is looked at; only files within 10 MB reach a text extractor |
| Views.UploadAccepted | backend/api/views.py:39-58 | a file goes to the PDF reader iff within 10 MB and ending in `.pdf`, to the DOCX reader iff within 10 MB and ending in `.docx` |
| Views.UpperCaseExtensionRejected | backend/api/views.py:41-58 | `CV.PDF` passes the case-insensitive type check, then is refused by the case-sensitive dispatch |
| Views.ResumeUploadIntended | backend/api/views.py:39-53 | the corrected dispatch never gives the second refusal; a named file within 10 MB with a pdf/docx extension in any case reaches a reader |
| Views.IntendedAgreesExceptOnCase | backend/api/views.py:39-58 | the corrected version differs only on uploads the original refused by case, which it now reads |
| Views.Weight | backend/api/views.py:117-128 | every answer weighs 1 to 3 points |
| Views.WeightTable | backend/api/views.py:117-128 | Medium weighs 2 and Hard 3, each an iff; Easy, an absent or null difficulty and any other value weigh 1 |
| Views.RawScoreBounds | backend/api/views.py:121-129 | attended count is at most the number of answers; raw points lie between 1x and 3x the attended count |
| Views.ScoreAnswers | backend/api/views.py:117-129 | the scoring loop computes the raw points and the attended count of the specification |
| Views.Score | backend/api/views.py:118-131 | the score is the nearest integer to 100*raw/12 and is at most 100 iff raw <= 12 |
| Views.ScoreIsNearest | backend/api/views.py:131 | no other integer is as close to 100*raw/12 |
| Views.OverfullScore | backend/api/views.py:118-131 | six Hard answers score 150, above the nominal maximum |
| Views.RawScoreAtMostWeights | backend/api/views.py:117-129 | raw points never exceed the total weight of the answers |
| Views.AllCountFullWeight | backend/api/views.py:122-129 | when every answer is attended with non-blank text, the raw points equal the total weight |
| Views.MissedAnswerLosesWeight | backend/api/views.py:122-129 | one answer that does not count makes the raw points fall short of the total weight |
| Views.FullWeightIffAllCount | backend/api/views.py:117-129 | raw points reach the total weight iff every answer counts |
| Views.StandardInterviewScore | backend/api/views.py:117-131 | for the standard two-Easy/two-Medium/two-Hard interview the score is at most 100, and exactly 100 iff every answer counts |
| Views.SummaryParts | backend/api/views.py:133-147 | the summary opens with answered/total and the score; the skipped sentence follows the opening iff some are skipped, whether or not a file name follows; the resume sentence ends it iff the stripped file name is non-empty |
| Views.SubmitAnswers | backend/api/views.py:90-173 | missing identity is refused first, then no answers; storage failure is a server error; otherwise the response carries the score, summary, stored id, attended and total |
| Views.StaticQuestionsShape | backend/api/views.py:76-87 | six static questions with difficulties Easy, Easy, Medium, Medium, Hard, Hard and times 20, 20, 60, 60, 120, 120 |
| Views.Fallbacks | backend/api/views.py:204-219 | each known difficulty has two fallback questions |
| Views.QuestionAtShape | backend/api/views.py:194-225 | the k-th generated question has the k-th difficulty and its time; its text is the model's when that succeeds, otherwise one of the fallbacks |
| Views.GenerateQuestions | backend/api/views.py:192-227 | the loop produces six questions, each as specified |

## Left out

- Network calls become parameters. The language-model question generator is `ask`. `random.choice` is `pick`. The database insert is the stored id (or its failure) passed to `Views.SubmitAnswers`. The axios calls are not modelled; their results are parameters of the methods.
- Document text extraction and field extraction (`backend/api/utils.py`) are not part of this model. `Views.ResumeUpload` stops at choosing the reader. Parser failures (the 500 response) are not modelled.
- React scheduling and rendering are left out: effect ordering, the loading/error/submitting flags, alerts, the `key` that remounts the countdown, progress-bar widths, and the countdown's colour warning.
- Chat's question fetch is left out: the request, `setQuestions`, writing and removing the cached list. `Chat.AcceptCache` models only the decision to use the cache.
- Dashboard left-outs:
  - `highlightText` (a dynamic regular expression replacement) is modelled only through `EscapeRegExp`.
  - The file-name timestamp, Blob download and `toLocaleString` are left out.
  - `toISOString` is left out: `createdAt` is given as text.
  - `new URL(API_BASE).origin` is a parameter; an unparseable base is `None`.
  - `window.confirm` and the server's answer are the `confirmed` and `accepted` parameters.
- Strings use ASCII case mapping only (`Text.Lower`). JavaScript `toLowerCase` and Python `lower` also map other Unicode letters.
- Numbers are integers. Fractional, `NaN` or absent values of the timer fields are not modelled, and neither are `|| 0` on undefined or `Number(...)` of non-numeric scores.
- Views.Score: assumes exact arithmetic. For raw scores beyond about 2^50, floating-point rounding of `raw / 12 * 100` could differ.
- Chat.DifficultyTime: a difficulty naming an `Object.prototype` member (such as `"constructor"`) finds a function in `timePerDifficulty`, not 30. Those names are not modelled.
- Dashboard.SortByScore: the order among equal scores is not stated. JavaScript's sort is stable; the model's insertion order is not claimed to match it.
- Views.SubmitAnswers: request fields that are present but not strings are not modelled. Python then raises, and the response is 500. Absent fields are modelled as `None`.
- Views.GenerateQuestions: `str.title()` is modelled only for the one-word lower-case difficulties the loop uses.
- `Store.LoadState` returns the stored candidate verbatim. A restored candidate that is not shaped like a session (`Store.FromJson` gives `None`) is not given a reducer behaviour.
- JavaScript `trim` and Python `strip` differ in whitespace; both are modelled (`Text.Trim`, `Text.PyStrip`), but Unicode space separators beyond the listed ones are not.
- `WelcomeBackModal.jsx`, `ResumeUpload.jsx`, `App.jsx`, the serializers, models, URL table and the list/detail/delete views are framework declarations. They are not part of this model, except as the inputs above.

## Findings

| source | as written | input that shows it | evidently intended | confidence | as-written member | corrected member |
|---|---|---|---|---|---|---|
| backend/api/views.py:41-58 | the type check lower-cases the extension, but the reader is chosen by a case-sensitive `endswith(".pdf")` / `endswith(".docx")`, so an upper-case extension passes the check and is then refused with "Unsupported file type" | an upload named `CV.PDF` of 1000 bytes | choose the reader by the lower-cased extension, so `CV.PDF` is read as a PDF | high; not executed | Views.UpperCaseExtensionRejected | Views.ResumeUploadIntended |
