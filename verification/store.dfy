/**
 * Persistence of the session (frontend/src/redux/store.js): the browser's storage is a map
 * from keys to strings, and only the `candidate` part of the application state is written
 * to, and read back from, the slot `ai_interviewer_state_v1`.
 *
 * `JSON.parse` and `JSON.stringify` are parameters: `parse` returns None where the real
 * one throws. `writable` is false when the browser refuses the write (quota, privacy mode).
 */
module Store {

  import opened Wrappers
  import opened Json
  import opened CandidateSlice

  const StorageKey := "ai_interviewer_state_v1"
  const CandidateKey := "candidate"

  /** The browser's durable key/value storage. */
  type Slot = map<string, string>

  /** The application state object: top-level keys to values. */
  type Root = map<string, Json>

  /** `parse` reads back what `stringify` writes for the value `j`, and the text written
      is not empty. Stated for one value at a time: a printer of finite text cannot tell
      every real number apart, so no pair reads back every value. */
  ghost predicate ReadsBack(parse: string -> Option<Json>, stringify: Json -> string, j: Json)
  {
    parse(stringify(j)) == Some(j) && stringify(j) != ""
  }

  /** `loadState`: never fails, answers None ("undefined") unless the slot holds an object
      with a truthy `candidate`, and then keeps that key only. */
  function LoadState(slot: Slot, parse: string -> Option<Json>): (r: Option<Root>)
    ensures StorageKey !in slot || slot[StorageKey] == "" ==> r.None?
    ensures r.Some? ==>
      && parse(slot[StorageKey]).Some?
      && r.value.Keys == {CandidateKey}
      && Prop(parse(slot[StorageKey]).value, CandidateKey) == Some(r.value[CandidateKey])
      && Truthy(r.value[CandidateKey])
    ensures r.None? && StorageKey in slot && slot[StorageKey] != "" && parse(slot[StorageKey]).Some? ==>
      var c := Prop(parse(slot[StorageKey]).value, CandidateKey);
      c.None? || !Truthy(c.value)
  {
    if StorageKey !in slot || slot[StorageKey] == "" then None
    else
      match parse(slot[StorageKey])
      case None => None
      case Some(parsed) =>
        var c := Prop(parsed, CandidateKey);
        if Truthy(parsed) && c.Some? && Truthy(c.value) then Some(map[CandidateKey := c.value])
        else None
  }

  /** The object `saveState` serialises: `{candidate: state.candidate}`; an undefined
      candidate is dropped by `JSON.stringify`. */
  function ToSave(root: Root): (j: Json)
    ensures j.JObj? && j.fields.Keys <= {CandidateKey}
    ensures CandidateKey in root <==> CandidateKey in j.fields
    ensures CandidateKey in root ==> j.fields[CandidateKey] == root[CandidateKey]
  {
    if CandidateKey in root then JObj(map[CandidateKey := root[CandidateKey]]) else JObj(map[])
  }

  /** `saveState`: writes only the candidate part under the fixed key; a refused write is
      swallowed and leaves the storage as it was. */
  function SaveState(slot: Slot, root: Root, stringify: Json -> string, writable: bool): (r: Slot)
    ensures !writable ==> r == slot
    ensures writable ==> r.Keys == slot.Keys + {StorageKey} && r[StorageKey] == stringify(ToSave(root))
    ensures forall k :: k in slot && k != StorageKey ==> k in r && r[k] == slot[k]
  {
    if writable then slot[StorageKey := stringify(ToSave(root))] else slot
  }

  /** Saving then loading gives back the candidate part and nothing else; other top-level
      state never survives the round trip. */
  lemma SaveThenLoad(slot: Slot, root: Root, parse: string -> Option<Json>, stringify: Json -> string)
    requires ReadsBack(parse, stringify, ToSave(root))
    ensures var loaded := LoadState(SaveState(slot, root, stringify, true), parse);
      if CandidateKey in root && Truthy(root[CandidateKey])
      then loaded == Some(map[CandidateKey := root[CandidateKey]])
      else loaded.None?
  {
    var saved := SaveState(slot, root, stringify, true);
    assert parse(saved[StorageKey]) == Some(ToSave(root));
  }

  /** Whatever truthy value the stored object has under `candidate` is restored verbatim,
      whatever its fields are. */
  lemma LoadRestoresVerbatim(slot: Slot, parse: string -> Option<Json>, fields: map<string, Json>)
    requires StorageKey in slot && slot[StorageKey] != ""
    requires parse(slot[StorageKey]) == Some(JObj(fields))
    requires CandidateKey in fields && Truthy(fields[CandidateKey])
    ensures LoadState(slot, parse) == Some(map[CandidateKey := fields[CandidateKey]])
  {
  }

  // ---- The session as a JSON object, field for field ----

  function ReasonName(r: Reason): string
  {
    match r
    case Submitted => "submitted"
    case Timeout => "timeout"
    case Skipped => "skipped"
    case NextWithAnswer => "next_with_answer"
  }

  function ReasonFromName(s: string): Option<Reason>
  {
    if s == "submitted" then Some(Submitted)
    else if s == "timeout" then Some(Timeout)
    else if s == "skipped" then Some(Skipped)
    else if s == "next_with_answer" then Some(NextWithAnswer)
    else None
  }

  function RecordToJson(a: AnswerRecord): Json
  {
    JObj(map[
      "question" := JStr(a.question),
      "answer" := JStr(a.answer),
      "difficulty" := JStr(a.difficulty),
      "attended" := JBool(a.attended),
      "reason" := JStr(ReasonName(a.reason)),
      "timeSpent" := JNum(a.timeSpent as real)])
  }

  function AnswersToJson(answers: seq<AnswerRecord>): seq<Json>
  {
    if answers == [] then [] else [RecordToJson(answers[0])] + AnswersToJson(answers[1..])
  }

  /** The object the store holds as `state.candidate`. */
  function ToJson(s: State): (j: Json)
    ensures Truthy(j)
  {
    JObj(map[
      "name" := JStr(s.name),
      "email" := JStr(s.email),
      "phone" := JStr(s.phone),
      "resumeFilename" := JStr(s.resumeFilename),
      "answers" := JArr(AnswersToJson(s.answers)),
      "currentQuestion" := JNum(s.currentQuestion as real),
      "progressSaved" := JBool(s.progressSaved),
      "currentDuration" := JNum(s.currentDuration as real),
      "timeLeft" := JNum(s.timeLeft as real),
      "paused" := JBool(s.paused)])
  }

  function GetStr(f: map<string, Json>, k: string): Option<string>
  {
    if k in f && f[k].JStr? then Some(f[k].s) else None
  }

  function GetBool(f: map<string, Json>, k: string): Option<bool>
  {
    if k in f && f[k].JBool? then Some(f[k].b) else None
  }

  function GetInt(f: map<string, Json>, k: string): Option<int>
  {
    if k in f && f[k].JNum? && f[k].n.Floor as real == f[k].n then Some(f[k].n.Floor) else None
  }

  function RecordFromJson(j: Json): Option<AnswerRecord>
  {
    if !j.JObj? then None
    else
      var f := j.fields;
      var q, a, d, att, rs, t :=
        GetStr(f, "question"), GetStr(f, "answer"), GetStr(f, "difficulty"),
        GetBool(f, "attended"), GetStr(f, "reason"), GetInt(f, "timeSpent");
      if q.None? || a.None? || d.None? || att.None? || rs.None? || t.None? then None
      else
        var r := ReasonFromName(rs.value);
        if r.None? then None
        else Some(AnswerRecord(q.value, a.value, d.value, att.value, r.value, t.value))
  }

  function AnswersFromJson(items: seq<Json>): Option<seq<AnswerRecord>>
  {
    if items == [] then Some([])
    else
      var head := RecordFromJson(items[0]);
      var tail := AnswersFromJson(items[1..]);
      if head.None? || tail.None? then None else Some([head.value] + tail.value)
  }

  /** Reads a restored `candidate` object as a session, or None when it lacks a field or a
      field has the wrong kind of value. */
  function FromJson(j: Json): Option<State>
  {
    if !j.JObj? then None
    else
      var f := j.fields;
      var name, email, phone, file := GetStr(f, "name"), GetStr(f, "email"), GetStr(f, "phone"), GetStr(f, "resumeFilename");
      var answers := if "answers" in f && f["answers"].JArr? then AnswersFromJson(f["answers"].items) else None;
      var index, duration, left := GetInt(f, "currentQuestion"), GetInt(f, "currentDuration"), GetInt(f, "timeLeft");
      var saved, paused := GetBool(f, "progressSaved"), GetBool(f, "paused");
      if name.None? || email.None? || phone.None? || file.None? || answers.None?
         || index.None? || index.value < 0 || duration.None? || left.None? || saved.None? || paused.None?
      then None
      else Some(State(name.value, email.value, phone.value, file.value, answers.value,
                      index.value, saved.value, duration.value, left.value, paused.value))
  }

  lemma RecordRoundTrip(a: AnswerRecord)
    ensures RecordFromJson(RecordToJson(a)) == Some(a)
  {
    assert ReasonFromName(ReasonName(a.reason)) == Some(a.reason);
  }

  lemma {:induction false} AnswersRoundTrip(answers: seq<AnswerRecord>)
    ensures AnswersFromJson(AnswersToJson(answers)) == Some(answers)
  {
    if answers != [] {
      RecordRoundTrip(answers[0]);
      AnswersRoundTrip(answers[1..]);
      assert AnswersToJson(answers)[1..] == AnswersToJson(answers[1..]);
      assert [answers[0]] + answers[1..] == answers;
    }
  }

  /** Reading the session object back gives the same session. */
  lemma SessionRoundTrip(s: State)
    ensures FromJson(ToJson(s)) == Some(s)
  {
    AnswersRoundTrip(s.answers);
    ToJsonText(s);
    ToJsonNumbers(s);
  }

  /** The text fields and the answer list of the session object. */
  lemma ToJsonText(s: State)
    ensures var f := ToJson(s).fields;
      && GetStr(f, "name") == Some(s.name) && GetStr(f, "email") == Some(s.email)
      && GetStr(f, "phone") == Some(s.phone) && GetStr(f, "resumeFilename") == Some(s.resumeFilename)
      && "answers" in f && f["answers"] == JArr(AnswersToJson(s.answers))
  {
  }

  /** The numeric and boolean fields of the session object read back as themselves. */
  lemma ToJsonNumbers(s: State)
    ensures var f := ToJson(s).fields;
      && GetInt(f, "currentQuestion") == Some(s.currentQuestion as int)
      && GetInt(f, "currentDuration") == Some(s.currentDuration)
      && GetInt(f, "timeLeft") == Some(s.timeLeft)
      && GetBool(f, "progressSaved") == Some(s.progressSaved) && GetBool(f, "paused") == Some(s.paused)
  {
    IntRoundTrip(s.currentQuestion);
    IntRoundTrip(s.currentDuration);
    IntRoundTrip(s.timeLeft);
  }

  /** A whole number written as a JSON number reads back as itself. */
  lemma IntRoundTrip(i: int)
    ensures (i as real).Floor == i && (i as real).Floor as real == i as real
  {
  }

  /** Persisting a session and loading it on the next page load restores a deep-equal
      session. */
  lemma PersistedSessionSurvivesReload(slot: Slot, s: State, parse: string -> Option<Json>, stringify: Json -> string)
    requires ReadsBack(parse, stringify, JObj(map[CandidateKey := ToJson(s)]))
    ensures var loaded := LoadState(SaveState(slot, map[CandidateKey := ToJson(s)], stringify, true), parse);
      loaded.Some? && FromJson(loaded.value[CandidateKey]) == Some(s)
  {
    SaveThenLoad(slot, map[CandidateKey := ToJson(s)], parse, stringify);
    SessionRoundTrip(s);
  }

  /** The store: the candidate reducer plus a subscription that saves after every
      dispatched action. */
  class PersistedStore {
    const session: Session
    var slot: Slot

    constructor (session: Session, slot: Slot)
      ensures this.session == session && this.slot == slot
    {
      this.session := session;
      this.slot := slot;
    }

    /** `store.dispatch(a)` followed by the subscriber's `saveState(store.getState())`. */
    method Dispatch(a: Action, stringify: Json -> string, writable: bool)
      modifies this, session
      ensures session.Snapshot() == Apply(old(session.Snapshot()), a)
      ensures slot == SaveState(old(slot), map[CandidateKey := ToJson(session.Snapshot())], stringify, writable)
    {
      session.Dispatch(a);
      slot := SaveState(slot, map[CandidateKey := ToJson(session.Snapshot())], stringify, writable);
    }
  }
}
