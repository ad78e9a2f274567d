/**
 * The contact-details form (frontend/src/components/ProfileForm.jsx): the list of missing
 * fields, the two format checks written as regular expressions in the source, and the
 * guard in front of `setCandidateInfo`.
 *
 * The regular expressions are stated as predicates with the matching semantics of
 * JavaScript's `RegExp.prototype.test`: `/.+@.+\..+/` is unanchored and its `.` matches
 * any character but a line terminator; `/^(\+?\d[\d\s\-]{7,})$/` is anchored at both ends.
 */
module ProfileForm {

  import opened Wrappers
  import opened Text
  import opened CandidateSlice

  /** The fields the resume parser extracted; any of them may be absent. */
  datatype Parsed = Parsed(name: Option<string>, email: Option<string>, phone: Option<string>)

  function OrEmpty(o: Option<string>): string
  {
    if o.Some? then o.value else ""
  }

  /** The form's starting name, email and phone: `parsed?.field || ""`. */
  function InitialValues(parsed: Option<Parsed>): (r: (string, string, string))
    ensures r.0 == "" <==> parsed.None? || parsed.value.name.None? || parsed.value.name == Some("")
    ensures r.1 == "" <==> parsed.None? || parsed.value.email.None? || parsed.value.email == Some("")
    ensures r.2 == "" <==> parsed.None? || parsed.value.phone.None? || parsed.value.phone == Some("")
    ensures parsed.Some? && parsed.value.name.Some? ==> r.0 == parsed.value.name.value
    ensures parsed.Some? && parsed.value.email.Some? ==> r.1 == parsed.value.email.value
    ensures parsed.Some? && parsed.value.phone.Some? ==> r.2 == parsed.value.phone.value
  {
    if parsed.None? then ("", "", "")
    else (OrEmpty(parsed.value.name), OrEmpty(parsed.value.email), OrEmpty(parsed.value.phone))
  }

  /** Without extracted data the form starts empty and lists every field as missing; with
      data, a field is listed as missing exactly when the parser did not find it or found
      it empty, and a field it found non-empty starts with that value. */
  lemma PrefillMissing(parsed: Option<Parsed>)
    ensures var (n, e, p) := InitialValues(parsed);
      && (parsed.None? ==> Missing(n, e, p) == ["Name", "Email", "Phone"])
      && (parsed.Some? ==>
        && ("Name" in Missing(n, e, p) <==> parsed.value.name.None? || parsed.value.name == Some(""))
        && ("Email" in Missing(n, e, p) <==> parsed.value.email.None? || parsed.value.email == Some(""))
        && ("Phone" in Missing(n, e, p) <==> parsed.value.phone.None? || parsed.value.phone == Some(""))
        && (parsed.value.name.Some? ==> n == parsed.value.name.value)
        && (parsed.value.email.Some? ==> e == parsed.value.email.value)
        && (parsed.value.phone.Some? ==> p == parsed.value.phone.value))
  {
  }

  /** Position of a field name in the form. */
  function FieldRank(f: string): nat
  {
    if f == "Name" then 0 else if f == "Email" then 1 else 2
  }

  /** `missing`: the names of the empty fields among Name, Email and Phone, in that order. */
  function Missing(name: string, email: string, phone: string): (r: seq<string>)
    ensures forall f :: f in r <==>
      (f == "Name" && name == "") || (f == "Email" && email == "") || (f == "Phone" && phone == "")
    ensures forall i, j :: 0 <= i < j < |r| ==> FieldRank(r[i]) < FieldRank(r[j])
    ensures r == [] <==> name != "" && email != "" && phone != ""
  {
    (if name == "" then ["Name"] else [])
    + (if email == "" then ["Email"] else [])
    + (if phone == "" then ["Phone"] else [])
  }

  /** `s[p]` is an `@` and `s[q]` a `.`, with a non-terminator character before the `@`,
      only non-terminators between them, and a non-terminator after the `.`: a match of
      `.+@.+\..+` with its first and last `.+` shortened to one character. */
  predicate EmailMatchAt(s: string, p: int, q: int)
  {
    && 1 <= p && p + 1 < q && q + 1 < |s|
    && s[p] == '@' && s[q] == '.'
    && !IsLineTerminator(s[p - 1]) && !IsLineTerminator(s[q + 1])
    && forall k :: p < k < q ==> !IsLineTerminator(s[k])
  }

  /** `/.+@.+\..+/.test(email)`. */
  predicate EmailOk(s: string)
  {
    exists p, q | 0 <= p < |s| && 0 <= q < |s| :: EmailMatchAt(s, p, q)
  }

  /** The check is unanchored: text around a valid address does not hurt. */
  lemma EmailOkUnanchored(s: string, before: string, after: string)
    requires EmailOk(s)
    ensures EmailOk(before + s + after)
  {
    var p, q :| EmailMatchAt(s, p, q);
    assert EmailMatchAt(s, p, q);
    var t := before + s + after;
    forall k | 0 <= k < |s|
      ensures t[|before| + k] == s[k]
    {
    }
    assert t[|before| + p] == s[p] && t[|before| + q] == s[q];
    assert t[|before| + p - 1] == s[p - 1] && t[|before| + q + 1] == s[q + 1];
    assert EmailMatchAt(t, |before| + p, |before| + q);
  }

  /** A passing address has a character, an `@`, a character, a `.` and a character, so it
      has at least five characters and contains both separators. */
  lemma EmailOkShape(s: string)
    requires EmailOk(s)
    ensures |s| >= 5 && '@' in s && '.' in s
  {
    var p, q :| EmailMatchAt(s, p, q);
    assert EmailMatchAt(s, p, q);
    assert s[p] == '@' && s[q] == '.';
  }

  lemma EmailExamples()
    ensures EmailOk("a@b.c")
    ensures !EmailOk("@b.c") && !EmailOk("a@b.") && !EmailOk("a@.c") && !EmailOk("ab.c")
  {
    assert EmailMatchAt("a@b.c", 1, 3);
  }

  /** `[\d\s\-]`. */
  predicate PhoneChar(c: char)
  {
    IsDigit(c) || IsJsSpace(c) || c == '-'
  }

  /** `/^(\+?\d[\d\s\-]{7,})$/.test(phone)`: an optional `+`, one digit, then at least seven
      digits, whitespace characters or hyphens, and nothing else. */
  predicate PhoneOk(s: string)
  {
    var body := if |s| > 0 && s[0] == '+' then s[1..] else s;
    |body| >= 8 && IsDigit(body[0]) && forall k :: 1 <= k < |body| ==> PhoneChar(body[k])
  }

  /** A valid number may gain a leading `+` but not a second one; a valid number has at
      least eight characters and no letters. */
  lemma PhoneOkPlus(s: string)
    requires PhoneOk(s) && s[0] != '+'
    ensures PhoneOk("+" + s)
    ensures !PhoneOk("++" + s)
    ensures |s| >= 8 && forall k :: 0 <= k < |s| ==> !('a' <= s[k] <= 'z') && !('A' <= s[k] <= 'Z')
  {
    assert ("+" + s)[1..] == s;
    forall k | 0 <= k < |s|
      ensures !('a' <= s[k] <= 'z') && !('A' <= s[k] <= 'Z')
    {
      if k > 0 {
        assert PhoneChar(s[k]);
      }
    }
  }

  lemma PhoneExamples()
    ensures PhoneOk("+91 98765-43210") && PhoneOk("12345678")
    ensures !PhoneOk("1234567") && !PhoneOk("-12345678") && !PhoneOk("+ 12345678")
  {
    var a := "91 98765-43210";
    assert ("+" + a)[1..] == a;
    forall k | 1 <= k < |a|
      ensures PhoneChar(a[k])
    {
    }
    var b := "12345678";
    forall k | 1 <= k < |b|
      ensures PhoneChar(b[k])
    {
    }
  }

  /** `submit`: the `setCandidateInfo` payload when the name is non-empty and both checks
      pass, nothing otherwise. The payload carries no file name. */
  function Submit(name: string, email: string, phone: string): (r: Option<InfoPayload>)
    ensures r.Some? <==> name != "" && EmailOk(email) && PhoneOk(phone)
    ensures r.Some? ==> r.value == InfoPayload(name, email, phone, None)
  {
    if name != "" && EmailOk(email) && PhoneOk(phone) then Some(InfoPayload(name, email, phone, None))
    else None
  }

  /** The submit guard is stricter than the disabled button: whatever it lets through has
      no missing field. Dispatching it keeps a previously uploaded file name. */
  lemma SubmitImpliesNothingMissing(name: string, email: string, phone: string, s: State)
    requires Submit(name, email, phone).Some?
    ensures Missing(name, email, phone) == []
    ensures var r := Apply(s, SetCandidateInfo(Submit(name, email, phone).value));
      r.name == name && r.email == email && r.phone == phone && r.resumeFilename == s.resumeFilename
  {
    EmailOkShape(email);
  }
}
