/**
 * The backend's request handlers (backend/api/views.py): the guards in front of resume
 * text extraction, the scoring and summary of a submitted interview, and the generation of
 * the six interview questions.
 *
 * Strings follow Python: `strip()` removes `str.isspace` characters, `lower()` is modelled
 * on ASCII letters. The language model, the random fallback choice and the database are
 * parameters.
 */
module Views {

  import opened Wrappers
  import opened Text

  // ---- Resume upload ----

  /** An uploaded file: its client-side name and its size in bytes. */
  datatype Upload = Upload(name: string, size: nat)

  /** What the upload view does with a request: one of four rejections (HTTP 400), or
      text extraction with the PDF or the DOCX reader. */
  datatype UploadOutcome = NoFile | TooLarge | UnsupportedType | UnsupportedCase | ExtractPdf | ExtractDocx

  function UploadError(o: UploadOutcome): Option<string>
  {
    match o
    case NoFile => Some("No file uploaded")
    case TooLarge => Some("File too large. Maximum size is 10MB.")
    case UnsupportedType => Some("Unsupported file type. Only PDF and DOCX allowed.")
    case UnsupportedCase => Some("Unsupported file type")
    case _ => None
  }

  const MaxBytes: nat := 10 * 1024 * 1024

  /** `s.split('.')[-1]`: the text after the last dot, or all of `s` when it has none. */
  function AfterLastDot(s: string): (r: string)
    ensures '.' !in r
    ensures EndsWith(s, r)
    ensures |r| < |s| ==> s[|s| - |r| - 1] == '.'
  {
    if s == [] then []
    else if s[|s| - 1] == '.' then []
    else AfterLastDot(s[..|s| - 1]) + [s[|s| - 1]]
  }

  /** A name ending in a dot and a dot-free extension has that extension as its last
      segment. */
  lemma {:induction false} AfterLastDotOfSuffix(s: string, ext: string)
    requires '.' !in ext && EndsWith(s, "." + ext)
    ensures AfterLastDot(s) == ext
    decreases |ext|
  {
    if ext == [] {
      assert s[|s| - 1] == (".")[0];
    } else {
      var init := s[..|s| - 1];
      var e := ext[..|ext| - 1];
      assert s[|s| - 1] == ext[|ext| - 1] && ext[|ext| - 1] != '.';
      assert init[|init| - |"." + e|..] == s[|s| - |"." + ext|..|s| - 1] == "." + e;
      assert '.' !in e by {
        forall k | 0 <= k < |e|
          ensures e[k] != '.'
        {
          assert e[k] == ext[k];
        }
      }
      AfterLastDotOfSuffix(init, e);
      assert e + [ext[|ext| - 1]] == ext;
    }
  }

  /** The lower-cased extension: lower-casing commutes with taking the last segment. */
  function LowerExtension(name: string): string
  {
    AfterLastDot(Lower(name))
  }

  /** `ResumeUploadView.post` up to the extraction, as written. */
  function ResumeUpload(file: Option<Upload>): (r: UploadOutcome)
    ensures file.None? || file.value.name == "" ==> r == NoFile
    ensures file.Some? && file.value.name != "" && file.value.size > MaxBytes ==> r == TooLarge
    ensures r.ExtractPdf? || r.ExtractDocx? ==> file.Some? && file.value.size <= MaxBytes
  {
    if file.None? || file.value.name == "" then NoFile
    else if file.value.size > MaxBytes then TooLarge
    else
      var ext := LowerExtension(file.value.name);
      if ext != "pdf" && ext != "docx" then UnsupportedType
      else if EndsWith(file.value.name, ".pdf") then ExtractPdf
      else if EndsWith(file.value.name, ".docx") then ExtractDocx
      else UnsupportedCase
  }

  /** A name that ends in a dot and a dot-free, lower-case extension has that extension
      as its lower-cased last segment. */
  lemma ExtensionOfSuffix(name: string, ext: string)
    requires '.' !in ext && forall k :: 0 <= k < |ext| ==> !('A' <= ext[k] <= 'Z')
    requires EndsWith(name, "." + ext)
    ensures LowerExtension(name) == ext
  {
    var low := Lower(name);
    var n := |"." + ext|;
    assert low[|low| - n..] == "." + ext by {
      forall k | 0 <= k < n
        ensures low[|low| - n + k] == ("." + ext)[k]
      {
        assert name[|name| - n + k] == ("." + ext)[k];
      }
    }
    AfterLastDotOfSuffix(low, ext);
  }

  /** A file of at most 10 MB whose name ends in exactly `.pdf` or `.docx` goes to the
      matching reader, and only such a file reaches a reader at all. */
  lemma UploadAccepted(f: Upload)
    ensures ResumeUpload(Some(f)) == ExtractPdf <==> f.size <= MaxBytes && EndsWith(f.name, ".pdf")
    ensures ResumeUpload(Some(f)) == ExtractDocx <==>
      f.size <= MaxBytes && EndsWith(f.name, ".docx") && !EndsWith(f.name, ".pdf")
  {
    if f.name != "" && f.size <= MaxBytes {
      if EndsWith(f.name, ".pdf") {
        ExtensionOfSuffix(f.name, "pdf");
      } else if EndsWith(f.name, ".docx") {
        ExtensionOfSuffix(f.name, "docx");
      }
    }
  }

  /** The as-written guard turns away `CV.PDF`, although its extension passed the
      case-insensitive check. */
  lemma UpperCaseExtensionRejected()
    ensures LowerExtension("CV.PDF") == "pdf"
    ensures ResumeUpload(Some(Upload("CV.PDF", 1000))) == UnsupportedCase
  {
    var low := Lower("CV.PDF");
    assert low[2] == '.' && low[3] == 'p' && low[4] == 'd' && low[5] == 'f';
    assert low[|low| - 4..] == ".pdf";
    AfterLastDotOfSuffix(low, "pdf");
    assert "CV.PDF"[3] != 'p';
  }

  /** The guard as evidently intended: the reader is chosen by the lower-cased extension
      that was just checked. */
  function ResumeUploadIntended(file: Option<Upload>): (r: UploadOutcome)
    ensures !r.UnsupportedCase?
    ensures file.Some? && file.value.name != "" && file.value.size <= MaxBytes ==>
      (r == ExtractPdf <==> LowerExtension(file.value.name) == "pdf")
      && (r == ExtractDocx <==> LowerExtension(file.value.name) == "docx")
  {
    if file.None? || file.value.name == "" then NoFile
    else if file.value.size > MaxBytes then TooLarge
    else
      var ext := LowerExtension(file.value.name);
      if ext == "pdf" then ExtractPdf
      else if ext == "docx" then ExtractDocx
      else UnsupportedType
  }

  /** The intended guard rejects exactly what the as-written one rejects for a reason it
      states, and accepts every name the as-written one accepts. */
  lemma IntendedAgreesExceptOnCase(file: Option<Upload>)
    ensures ResumeUpload(file).UnsupportedCase? ==> ResumeUploadIntended(file).ExtractPdf? || ResumeUploadIntended(file).ExtractDocx?
    ensures !ResumeUpload(file).UnsupportedCase? ==> ResumeUploadIntended(file) == ResumeUpload(file)
  {
    if file.Some? && file.value.name != "" && file.value.size <= MaxBytes {
      UploadAccepted(file.value);
    }
  }

  // ---- Submitting an interview ----

  /** One submitted answer: `difficulty` and `answer` may be absent or null (None);
      `attended` is the truthiness of the field (absent is false). */
  datatype Answer = Answer(difficulty: Option<string>, answer: Option<string>, attended: bool)

  /** The request body; an absent name, email or phone is None. `resume` is Some only for
      a string value. */
  datatype Submission = Submission(
    name: Option<string>, email: Option<string>, phone: Option<string>,
    resume: Option<string>, answers: seq<Answer>)

  datatype Response =
    | BadRequest(error: string)
    | ServerError(error: string)
    | Created(id: int, score: nat, summary: string, attended: nat, total: nat)

  /** `weights.get(diff, 1)` with `diff` defaulting to "Easy". */
  function Weight(difficulty: Option<string>): (w: nat)
    ensures 1 <= w <= 3
  {
    if difficulty == Some("Medium") then 2
    else if difficulty == Some("Hard") then 3
    else 1
  }

  /** The weights: Medium 2, Hard 3, and 1 for Easy, an absent or null difficulty, or any
      other value. */
  lemma WeightTable(difficulty: Option<string>)
    ensures Weight(difficulty) == 2 <==> difficulty == Some("Medium")
    ensures Weight(difficulty) == 3 <==> difficulty == Some("Hard")
    ensures Weight(difficulty) == 1 <==> difficulty != Some("Medium") && difficulty != Some("Hard")
    ensures Weight(Some("Easy")) == 1 && Weight(None) == 1
  {
  }

  function OrEmpty(o: Option<string>): string
  {
    if o.Some? then o.value else ""
  }

  /** An answer earns points when it is attended and its stripped text is non-empty. */
  predicate Counts(a: Answer)
  {
    a.attended && PyStrip(OrEmpty(a.answer)) != ""
  }

  /** The weighted points of the answers. */
  function RawScore(answers: seq<Answer>): nat
  {
    if answers == [] then 0
    else RawScore(answers[..|answers| - 1]) + (if Counts(answers[|answers| - 1]) then Weight(answers[|answers| - 1].difficulty) else 0)
  }

  /** The number of answers that earn points. */
  function AttendedCount(answers: seq<Answer>): nat
  {
    if answers == [] then 0
    else AttendedCount(answers[..|answers| - 1]) + (if Counts(answers[|answers| - 1]) then 1 else 0)
  }

  /** Each counted answer earns one to three points, and at most every answer counts. */
  lemma {:induction false} RawScoreBounds(answers: seq<Answer>)
    ensures AttendedCount(answers) <= |answers|
    ensures AttendedCount(answers) <= RawScore(answers) <= 3 * AttendedCount(answers)
  {
    if answers != [] {
      RawScoreBounds(answers[..|answers| - 1]);
    }
  }

  /** The scoring loop of `submit_answers`. */
  method ScoreAnswers(answers: seq<Answer>) returns (raw: nat, attended: nat)
    ensures raw == RawScore(answers) && attended == AttendedCount(answers)
  {
    raw, attended := 0, 0;
    for i := 0 to |answers|
      invariant raw == RawScore(answers[..i])
      invariant attended == AttendedCount(answers[..i])
    {
      assert answers[..i + 1][..i] == answers[..i];
      var a := answers[i];
      if Counts(a) {
        raw := raw + Weight(a.difficulty);
        attended := attended + 1;
      }
    }
    assert answers[..|answers|] == answers;
  }

  /** `max_points`: two questions of each difficulty. */
  const MaxPoints: nat := 2 * (1 + 2 + 3)

  /** `int(round(raw / max_points * 100))`. 100 * raw / 12 is 25 * raw / 3, whose fraction
      is 0, 1/3 or 2/3, so rounding is never at a tie and gives (25 * raw + 1) div 3. */
  function Score(raw: nat): (s: nat)
    ensures -1 <= 3 * s - 25 * raw <= 1
    ensures s <= 100 <==> raw <= MaxPoints
  {
    (25 * raw + 1) / 3
  }

  /** The score is within a third of 100 * raw / 12, and every other integer is more than
      a half away: it is the rounded percentage whatever the rounding rule for ties. */
  lemma ScoreIsNearest(raw: nat, n: int)
    ensures -4 <= 12 * Score(raw) - 100 * raw <= 4
    ensures n != Score(raw) ==> 12 * n - 100 * raw > 6 || 12 * n - 100 * raw < -6
  {
  }

  /** Six answers of one difficulty each can exceed the scale: all Hard and answered
      gives 150. */
  lemma OverfullScore()
    ensures Score(6 * 3) == 150
  {
  }

  /** The weights of all answers, counted or not. */
  function WeightSum(answers: seq<Answer>): nat
  {
    if answers == [] then 0
    else WeightSum(answers[..|answers| - 1]) + Weight(answers[|answers| - 1].difficulty)
  }

  /** The points never exceed the weights on offer. */
  lemma {:induction false} RawScoreAtMostWeights(answers: seq<Answer>)
    ensures RawScore(answers) <= WeightSum(answers)
  {
    if answers != [] {
      RawScoreAtMostWeights(answers[..|answers| - 1]);
    }
  }

  /** When every answer counts, the points are all the weights on offer. */
  lemma {:induction false} AllCountFullWeight(answers: seq<Answer>)
    requires forall k :: 0 <= k < |answers| ==> Counts(answers[k])
    ensures RawScore(answers) == WeightSum(answers)
  {
    if answers != [] {
      var init := answers[..|answers| - 1];
      assert forall k :: 0 <= k < |init| ==> init[k] == answers[k];
      AllCountFullWeight(init);
    }
  }

  /** An answer that does not count loses at least its own weight. */
  lemma {:induction false} MissedAnswerLosesWeight(answers: seq<Answer>, k: nat)
    requires k < |answers| && !Counts(answers[k])
    ensures RawScore(answers) < WeightSum(answers)
  {
    var init := answers[..|answers| - 1];
    RawScoreAtMostWeights(init);
    if k < |init| {
      assert init[k] == answers[k];
      MissedAnswerLosesWeight(init, k);
    }
  }

  /** The points reach the weights on offer exactly when every answer counts. */
  lemma FullWeightIffAllCount(answers: seq<Answer>)
    ensures (forall k :: 0 <= k < |answers| ==> Counts(answers[k])) <==> RawScore(answers) == WeightSum(answers)
  {
    if forall k :: 0 <= k < |answers| ==> Counts(answers[k]) {
      AllCountFullWeight(answers);
    } else {
      var k :| 0 <= k < |answers| && !Counts(answers[k]);
      MissedAnswerLosesWeight(answers, k);
    }
  }

  /** For the six generated questions (two of each difficulty) the score is at most 100,
      and exactly 100 when every answer counts. */
  lemma StandardInterviewScore(answers: seq<Answer>)
    requires |answers| == 6
    requires forall k :: 0 <= k < 6 ==> answers[k].difficulty == Some(ExpectedDifficulty[k])
    ensures Score(RawScore(answers)) <= 100
    ensures (forall k :: 0 <= k < 6 ==> Counts(answers[k])) <==> Score(RawScore(answers)) == 100
  {
    RawScoreAtMostWeights(answers);
    FullWeightIffAllCount(answers);
    assert answers[..6][..5] == answers[..5];
    assert answers[..5][..4] == answers[..4];
    assert answers[..4][..3] == answers[..3];
    assert answers[..3][..2] == answers[..2];
    assert answers[..2][..1] == answers[..1];
    assert answers[..1][..0] == [];
    assert answers[..6] == answers;
    assert WeightSum(answers) == MaxPoints by {
      assert WeightSum(answers[..1]) == 1;
      assert WeightSum(answers[..2]) == 2;
      assert WeightSum(answers[..3]) == 4;
      assert WeightSum(answers[..4]) == 6;
      assert WeightSum(answers[..5]) == 9;
    }
  }

  /** `summary`: who, how many answered, the score, then the skipped sentence when some
      were not answered and the resume sentence when a non-blank file name was sent. */
  function Summary(name: string, attended: nat, total: nat, score: nat, resume: Option<string>): string
  {
    var skipped := total - attended;
    SummaryHead(name, attended, total, score)
    + (if skipped > 0 then SkippedSentence(skipped) else "")
    + (if resume.Some? && PyStrip(resume.value) != "" then ResumeSentence(PyStrip(resume.value)) else "")
  }

  function SummaryHead(name: string, attended: nat, total: nat, score: nat): string
  {
    name + " completed the interview with " + IntToString(attended) + "/" + IntToString(total)
    + " questions answered. Weighted score: " + IntToString(score) + "/100. "
  }

  function SkippedSentence(skipped: int): string
  {
    IntToString(skipped) + " question(s) were skipped or timed out."
  }

  function ResumeSentence(file: string): string
  {
    " Resume file: " + file + "."
  }

  /** The summary always opens with the head; the skipped sentence follows exactly when
      something was not answered, and the resume sentence ends it exactly when a non-blank
      name was sent. */
  lemma SummaryParts(name: string, attended: nat, total: nat, score: nat, resume: Option<string>)
    ensures var s := Summary(name, attended, total, score, resume);
      var head := SummaryHead(name, attended, total, score);
      var hasResume := resume.Some? && PyStrip(resume.value) != "";
      && StartsWith(s, head)
      && (hasResume ==> EndsWith(s, ResumeSentence(PyStrip(resume.value))))
      && (!hasResume && total > attended ==> s == head + SkippedSentence(total - attended))
      && (s == head <==> !hasResume && total <= attended)
      && (total > attended ==> StartsWith(s, head + SkippedSentence(total - attended)))
      && (total <= attended ==> s == head + (if hasResume then ResumeSentence(PyStrip(resume.value)) else ""))
  {
    var s := Summary(name, attended, total, score, resume);
    var head := SummaryHead(name, attended, total, score);
    assert s[..|head|] == head;
  }

  function Identity(s: Option<string>): string
  {
    PyStrip(OrEmpty(s))
  }

  /** `submit_answers`: 400 when the stripped name, email or phone is empty (checked
      first) or there are no answers; otherwise the score and summary, stored under the
      id the database assigns (`stored`), or 500 when the write fails. */
  method SubmitAnswers(req: Submission, stored: Option<int>) returns (resp: Response)
    ensures Identity(req.name) == "" || Identity(req.email) == "" || Identity(req.phone) == "" ==>
      resp == BadRequest("Name, email, and phone are required")
    ensures Identity(req.name) != "" && Identity(req.email) != "" && Identity(req.phone) != "" && req.answers == [] ==>
      resp == BadRequest("No answers provided")
    ensures resp.BadRequest? <==>
      Identity(req.name) == "" || Identity(req.email) == "" || Identity(req.phone) == "" || req.answers == []
    ensures resp.ServerError? <==> !resp.BadRequest? && stored.None?
    ensures resp.Created? ==>
      && resp.id == stored.value
      && resp.total == |req.answers| && resp.attended == AttendedCount(req.answers)
      && resp.attended <= resp.total
      && resp.score == Score(RawScore(req.answers))
      && resp.summary == Summary(Identity(req.name), resp.attended, resp.total, resp.score, req.resume)
  {
    var name, email, phone := Identity(req.name), Identity(req.email), Identity(req.phone);
    if name == "" || email == "" || phone == "" {
      return BadRequest("Name, email, and phone are required");
    }
    if req.answers == [] {
      return BadRequest("No answers provided");
    }
    var raw, attended := ScoreAnswers(req.answers);
    RawScoreBounds(req.answers);
    var score := Score(raw);
    var total := |req.answers|;
    var summary := Summary(name, attended, total, score, req.resume);
    if stored.None? {
      return ServerError("Failed to submit answers. Please try again.");
    }
    resp := Created(stored.value, score, summary, attended, total);
  }

  // ---- Question generation ----

  const Difficulties: seq<string> := ["easy", "easy", "medium", "medium", "hard", "hard"]
  const ExpectedDifficulty: seq<string> := ["Easy", "Easy", "Medium", "Medium", "Hard", "Hard"]
  const ExpectedTime: seq<nat> := [20, 20, 60, 60, 120, 120]

  datatype GeneratedQuestion = GeneratedQuestion(text: string, difficulty: string, time: nat)

  /** `time_map.get(d, 30)`. */
  function TimeFor(d: string): nat
  {
    if d == "easy" then 20 else if d == "medium" then 60 else if d == "hard" then 120 else 30
  }

  /** `d.title()` for a one-word lower-case `d`: its first letter in upper case. */
  function TitleWord(d: string): string
  {
    if d == [] then [] else [if 'a' <= d[0] <= 'z' then (d[0] as int - 32) as char else d[0]] + d[1..]
  }

  /** `QuestionsView.get`: the fixed list served when question generation is not used. */
  const StaticQuestions: seq<GeneratedQuestion> := [
    GeneratedQuestion("Explain React hooks and their benefits.", "Easy", 20),
    GeneratedQuestion("What is Redux and when would you use it?", "Easy", 20),
    GeneratedQuestion("Explain the Virtual DOM and reconciliation.", "Medium", 60),
    GeneratedQuestion("How do you optimize React performance?", "Medium", 60),
    GeneratedQuestion("Implement a dynamic form with validation in React.", "Hard", 120),
    GeneratedQuestion("How would you architect a scalable full-stack application?", "Hard", 120)]

  /** The fixed list has the same six difficulties and times as a generated one. */
  lemma StaticQuestionsShape(k: nat)
    requires k < 6
    ensures |StaticQuestions| == 6
    ensures StaticQuestions[k].difficulty == ExpectedDifficulty[k] && StaticQuestions[k].time == ExpectedTime[k]
  {
  }

  /** The two fallback questions of each difficulty. */
  function Fallbacks(d: string): (r: seq<string>)
    ensures d == "easy" || d == "medium" || d == "hard" ==> |r| == 2
  {
    if d == "easy" then
      ["What are React components and how do they work?",
       "Explain the difference between state and props in React."]
    else if d == "medium" then
      ["How does React's useEffect hook work?",
       "Explain the concept of lifting state up in React."]
    else if d == "hard" then
      ["Design a custom hook for data fetching with caching.",
       "Explain React's reconciliation algorithm and fiber architecture."]
    else ["Explain React state management."]
  }

  lemma KnownDifficulty(k: nat)
    requires k < 6
    ensures |Fallbacks(Difficulties[k])| == 2
  {
    assert Difficulties[k] in {"easy", "medium", "hard"};
  }

  /** The question produced for the `k`-th difficulty. */
  function QuestionAt(k: nat, ask: nat -> Option<string>, pick: nat -> bool): GeneratedQuestion
    requires k < 6
  {
    var d := Difficulties[k];
    var text := if ask(k).Some? then ask(k).value else Fallbacks(d)[if pick(k) then 1 else 0];
    GeneratedQuestion(text, TitleWord(d), TimeFor(d))
  }

  /** Whatever the model answers, the `k`-th question has the `k`-th expected difficulty and
      time, and its text is the model's or one of that difficulty's two fallbacks. */
  lemma QuestionAtShape(k: nat, ask: nat -> Option<string>, pick: nat -> bool)
    requires k < 6
    ensures QuestionAt(k, ask, pick).difficulty == ExpectedDifficulty[k]
    ensures QuestionAt(k, ask, pick).time == ExpectedTime[k]
    ensures ask(k).Some? ==> QuestionAt(k, ask, pick).text == ask(k).value
    ensures ask(k).None? ==> QuestionAt(k, ask, pick).text in Fallbacks(Difficulties[k])
  {
    var d := Difficulties[k];
    if d == "easy" {
      assert TitleWord(d) == "Easy";
    } else if d == "medium" {
      assert TitleWord(d) == "Medium";
    } else {
      assert TitleWord(d) == "Hard";
    }
  }

  /** `generate_questions`: for each of the six difficulties in order, the model's question
      (`ask(i)`, None when the call raised) or the fallback chosen by `pick(i)`. */
  method GenerateQuestions(ask: nat -> Option<string>, pick: nat -> bool) returns (result: seq<GeneratedQuestion>)
    ensures |result| == 6
    ensures forall k :: 0 <= k < 6 ==> result[k] == QuestionAt(k, ask, pick)
    ensures forall k :: 0 <= k < 6 ==>
      result[k].difficulty == ExpectedDifficulty[k] && result[k].time == ExpectedTime[k]
  {
    result := [];
    for i := 0 to 6
      invariant |result| == i
      invariant forall k :: 0 <= k < i ==> result[k] == QuestionAt(k, ask, pick)
    {
      KnownDifficulty(i);
      var d := Difficulties[i];
      var text;
      match ask(i) {
        case Some(t) => text := t;
        case None => text := Fallbacks(d)[if pick(i) then 1 else 0];
      }
      var q := GeneratedQuestion(text, TitleWord(d), TimeFor(d));
      assert q == QuestionAt(i, ask, pick);
      result := result + [q];
    }
    forall k | 0 <= k < 6
      ensures result[k].difficulty == ExpectedDifficulty[k] && result[k].time == ExpectedTime[k]
    {
      QuestionAtShape(k, ask, pick);
    }
  }
}
