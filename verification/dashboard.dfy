/**
 * The interviewer's dashboard (frontend/src/components/Dashboard.jsx): the search filter
 * and score ordering of the candidate list, the CSV export, the escaping of the search
 * text for a regular expression, the resume link, deletion, and the score badges.
 *
 * A candidate is the row the backend lists; every field but the id may be missing
 * (`null`/`undefined`). `createdAt` is the already formatted `toISOString()` text.
 */
module Dashboard {

  import opened Wrappers
  import opened Text

  datatype Candidate = Candidate(
    id: int,
    name: Option<string>,
    email: Option<string>,
    phone: Option<string>,
    score: Option<int>,
    createdAt: Option<string>,
    resume: Option<string>)

  /** `x ?? ""`. */
  function OrEmpty(o: Option<string>): string
  {
    if o.Some? then o.value else ""
  }

  /** `Number(c?.score ?? 0)`. */
  function ScoreOf(c: Candidate): int
  {
    if c.score.Some? then c.score.value else 0
  }

  // ---- Search ----

  /** The lower-cased name (empty when missing) contains the lower-cased search text. */
  predicate Matches(c: Candidate, search: string)
  {
    Contains(Lower(OrEmpty(c.name)), Lower(search))
  }

  /** The `filter` step: the matching candidates, in their original order. */
  function Filter(cs: seq<Candidate>, search: string): (r: seq<Candidate>)
    ensures forall c :: multiset(r)[c] == if Matches(c, search) then multiset(cs)[c] else 0
    ensures forall c :: c in r <==> c in cs && Matches(c, search)
    ensures |r| <= |cs|
  {
    if cs == [] then []
    else
      assert cs == [cs[0]] + cs[1..];
      (if Matches(cs[0], search) then [cs[0]] else []) + Filter(cs[1..], search)
  }

  lemma ContainsEmpty(s: string)
    ensures Contains(s, "")
  {
    assert OccursAt(s, "", 0);
  }

  /** An empty search keeps the whole list, in order. */
  lemma {:induction false} EmptySearchKeepsAll(cs: seq<Candidate>)
    ensures Filter(cs, "") == cs
  {
    if cs != [] {
      ContainsEmpty(Lower(OrEmpty(cs[0].name)));
      EmptySearchKeepsAll(cs[1..]);
      assert [cs[0]] + cs[1..] == cs;
    }
  }

  // ---- Ordering by score ----

  /** The `sortOrder` state: "asc" or "desc" (the initial one). */
  datatype SortOrder = Asc | Desc

  predicate InOrder(a: int, b: int, order: SortOrder)
  {
    if order == Asc then a <= b else a >= b
  }

  predicate SortedBy(xs: seq<Candidate>, order: SortOrder)
  {
    forall i, j :: 0 <= i < j < |xs| ==> InOrder(ScoreOf(xs[i]), ScoreOf(xs[j]), order)
  }

  /** Places `x` before the first element it may precede; ties keep `x` first. */
  function Insert(x: Candidate, xs: seq<Candidate>, order: SortOrder): (r: seq<Candidate>)
    requires SortedBy(xs, order)
    ensures SortedBy(r, order)
    ensures multiset(r) == multiset(xs) + multiset{x}
    decreases |xs|
  {
    if xs == [] || InOrder(ScoreOf(x), ScoreOf(xs[0]), order) then [x] + xs
    else
      var tail := Insert(x, xs[1..], order);
      InsertBehindHead(x, xs, order, tail);
      [xs[0]] + tail
  }

  /** The step of `Insert` that keeps the head in front: a sorted tail holding `x` and the
      rest, behind a head that may precede `x`, gives a sorted list. */
  lemma InsertBehindHead(x: Candidate, xs: seq<Candidate>, order: SortOrder, tail: seq<Candidate>)
    requires xs != [] && SortedBy(xs, order) && !InOrder(ScoreOf(x), ScoreOf(xs[0]), order)
    requires SortedBy(tail, order) && multiset(tail) == multiset(xs[1..]) + multiset{x}
    ensures SortedBy([xs[0]] + tail, order)
    ensures multiset([xs[0]] + tail) == multiset(xs) + multiset{x}
  {
    assert xs == [xs[0]] + xs[1..];
    forall k | 0 <= k < |tail|
      ensures InOrder(ScoreOf(xs[0]), ScoreOf(tail[k]), order)
    {
      assert tail[k] in multiset(tail);
      assert tail[k] == x || tail[k] in xs[1..];
    }
    var r := [xs[0]] + tail;
    forall i, j | 0 <= i < j < |r|
      ensures InOrder(ScoreOf(r[i]), ScoreOf(r[j]), order)
    {
      if i > 0 {
        assert r[i] == tail[i - 1] && r[j] == tail[j - 1];
      } else {
        assert r[j] == tail[j - 1];
      }
    }
  }

  /** The `sort` step with the score comparator of the chosen order. */
  function SortByScore(xs: seq<Candidate>, order: SortOrder): (r: seq<Candidate>)
    ensures SortedBy(r, order)
    ensures multiset(r) == multiset(xs)
  {
    if xs == [] then []
    else
      assert xs == [xs[0]] + xs[1..];
      Insert(xs[0], SortByScore(xs[1..], order), order)
  }

  /** `filteredCandidates`: exactly the matching candidates, each as often as in the list,
      ordered by score in the chosen direction. */
  function Visible(cs: seq<Candidate>, search: string, order: SortOrder): (r: seq<Candidate>)
    ensures SortedBy(r, order)
    ensures forall c :: multiset(r)[c] == if Matches(c, search) then multiset(cs)[c] else 0
    ensures |r| <= |cs|
  {
    var kept := Filter(cs, search);
    var r := SortByScore(kept, order);
    assert |multiset(r)| == |multiset(kept)|;
    r
  }

  /** With an empty search every candidate is shown; "desc" puts a highest score first and
      "asc" a lowest one. */
  lemma VisibleExtremes(cs: seq<Candidate>, c: Candidate)
    requires c in cs
    ensures c in Visible(cs, "", Desc) && c in Visible(cs, "", Asc)
    ensures ScoreOf(Visible(cs, "", Desc)[0]) >= ScoreOf(c)
    ensures ScoreOf(Visible(cs, "", Asc)[0]) <= ScoreOf(c)
  {
    EmptySearchKeepsAll(cs);
    ContainsEmpty(Lower(OrEmpty(c.name)));
    var d, a := Visible(cs, "", Desc), Visible(cs, "", Asc);
    assert c in multiset(d) && c in multiset(a);
    var i :| 0 <= i < |d| && d[i] == c;
    var j :| 0 <= j < |a| && a[j] == c;
    if i > 0 {
      assert InOrder(ScoreOf(d[0]), ScoreOf(d[i]), Desc);
    }
    if j > 0 {
      assert InOrder(ScoreOf(a[0]), ScoreOf(a[j]), Asc);
    }
  }

  // ---- CSV export ----

  /** `s.replaceAll('"', '""')`. */
  function DoubleQuotes(s: string): (r: string)
    ensures |r| >= |s|
  {
    if s == [] then []
    else (if s[0] == '"' then "\"\"" else [s[0]]) + DoubleQuotes(s[1..])
  }

  /** One cell: the text with every quote doubled, between quotes. */
  function QuoteCell(s: string): (r: string)
    ensures |r| >= 2 && r[0] == '"' && r[|r| - 1] == '"'
  {
    "\"" + DoubleQuotes(s) + "\""
  }

  /** Reads a quoted cell's content, starting after its opening quote: `""` stands for a
      quote and a lone `"` closes the cell. Gives the content and the text after it. */
  function ParseQuoted(s: string): (r: Option<(string, string)>)
    ensures r.Some? ==> |r.value.1| < |s|
  {
    if s == [] then None
    else if s[0] == '"' then
      if |s| >= 2 && s[1] == '"' then
        match ParseQuoted(s[2..])
        case None => None
        case Some((c, rest)) => Some(("\"" + c, rest))
      else Some(([], s[1..]))
    else
      match ParseQuoted(s[1..])
      case None => None
      case Some((c, rest)) => Some(([s[0]] + c, rest))
  }

  /** Reading back a quoted cell stops exactly at its closing quote. */
  lemma {:induction false} ParseQuotedRoundTrip(s: string, rest: string)
    requires rest == [] || rest[0] != '"'
    ensures ParseQuoted(DoubleQuotes(s) + "\"" + rest) == Some((s, rest))
  {
    if s == [] {
      assert DoubleQuotes(s) + "\"" + rest == "\"" + rest;
    } else {
      ParseQuotedRoundTrip(s[1..], rest);
      var t := DoubleQuotes(s[1..]) + "\"" + rest;
      if s[0] == '"' {
        assert DoubleQuotes(s) + "\"" + rest == "\"\"" + t;
        assert ("\"\"" + t)[2..] == t;
      } else {
        assert DoubleQuotes(s) + "\"" + rest == [s[0]] + t;
        assert ([s[0]] + t)[1..] == t;
      }
      assert [s[0]] + s[1..] == s;
    }
  }

  /** Stripping the outer quotes of a cell and halving its doubled quotes. */
  function UnquoteCell(cell: string): Option<string>
  {
    if cell == [] || cell[0] != '"' then None
    else
      match ParseQuoted(cell[1..])
      case Some((c, rest)) => if rest == [] then Some(c) else None
      case None => None
  }

  /** Quoting is undone by unquoting, so distinct texts give distinct cells. */
  lemma CellRoundTrip(s: string)
    ensures UnquoteCell(QuoteCell(s)) == Some(s)
  {
    ParseQuotedRoundTrip(s, []);
    assert QuoteCell(s)[1..] == DoubleQuotes(s) + "\"" + [];
  }

  /** A record: its quoted cells joined by commas. */
  function JoinCells(cells: seq<string>): (r: string)
    ensures cells != [] ==> r != [] && r[0] == '"'
  {
    if cells == [] then ""
    else if |cells| == 1 then QuoteCell(cells[0])
    else QuoteCell(cells[0]) + "," + JoinCells(cells[1..])
  }

  /** The file: the records joined by newlines. */
  function CsvText(rows: seq<seq<string>>): string
  {
    if rows == [] then ""
    else if |rows| == 1 then JoinCells(rows[0])
    else JoinCells(rows[0]) + "\n" + CsvText(rows[1..])
  }

  /** Reads one record: quoted cells separated by commas. Gives the cells and the text
      after the record. */
  function ParseRecord(s: string): (r: Option<(seq<string>, string)>)
    ensures r.Some? ==> |r.value.1| < |s|
    decreases |s|
  {
    if s == [] || s[0] != '"' then None
    else
      match ParseQuoted(s[1..])
      case None => None
      case Some((c, rest)) =>
        if rest != [] && rest[0] == ',' then
          match ParseRecord(rest[1..])
          case None => None
          case Some((cells, after)) => Some(([c] + cells, after))
        else Some(([c], rest))
  }

  /** Reads records separated by newlines up to the end of the text. */
  function ParseCsv(s: string): Option<seq<seq<string>>>
    decreases |s|
  {
    match ParseRecord(s)
    case None => None
    case Some((cells, rest)) =>
      if rest == [] then Some([cells])
      else if rest[0] == '\n' then
        match ParseCsv(rest[1..])
        case None => None
        case Some(rows) => Some([cells] + rows)
      else None
  }

  lemma RecordLast(c: string, rest: string)
    requires rest == [] || rest[0] == '\n'
    ensures ParseRecord(QuoteCell(c) + rest) == Some(([c], rest))
  {
    ParseQuotedRoundTrip(c, rest);
    var s := QuoteCell(c) + rest;
    assert s == "\"" + (DoubleQuotes(c) + "\"" + rest);
    assert s[1..] == DoubleQuotes(c) + "\"" + rest;
  }

  lemma RecordCons(c: string, more: seq<string>, rest: string)
    requires more != []
    requires ParseRecord(JoinCells(more) + rest) == Some((more, rest))
    ensures ParseRecord(QuoteCell(c) + "," + JoinCells(more) + rest) == Some(([c] + more, rest))
  {
    var after := JoinCells(more) + rest;
    ParseQuotedRoundTrip(c, "," + after);
    var s := QuoteCell(c) + "," + JoinCells(more) + rest;
    assert s == "\"" + (DoubleQuotes(c) + "\"" + ("," + after));
    assert s[1..] == DoubleQuotes(c) + "\"" + ("," + after);
    assert ("," + after)[1..] == after;
  }

  lemma {:induction false} RecordRoundTrip(cells: seq<string>, rest: string)
    requires cells != []
    requires rest == [] || rest[0] == '\n'
    ensures ParseRecord(JoinCells(cells) + rest) == Some((cells, rest))
    decreases |cells|
  {
    if |cells| == 1 {
      RecordLast(cells[0], rest);
      assert [cells[0]] == cells;
    } else {
      RecordRoundTrip(cells[1..], rest);
      RecordCons(cells[0], cells[1..], rest);
      assert [cells[0]] + cells[1..] == cells;
    }
  }

  /** Reading the text back gives the records, when each record has a cell. */
  lemma {:induction false} CsvRoundTrip(rows: seq<seq<string>>)
    requires rows != []
    requires forall i :: 0 <= i < |rows| ==> rows[i] != []
    ensures ParseCsv(CsvText(rows)) == Some(rows)
  {
    if |rows| == 1 {
      RecordRoundTrip(rows[0], []);
      assert CsvText(rows) == JoinCells(rows[0]) + [];
      assert [rows[0]] == rows;
    } else {
      var more := CsvText(rows[1..]);
      CsvRoundTrip(rows[1..]);
      RecordRoundTrip(rows[0], "\n" + more);
      assert CsvText(rows) == JoinCells(rows[0]) + ("\n" + more);
      assert ("\n" + more)[1..] == more;
      assert [rows[0]] + rows[1..] == rows;
    }
  }

  const Header: seq<string> := ["ID", "Name", "Email", "Phone", "Score", "Created At"]

  /** One candidate's record: id, name, email, phone, score, creation time. */
  function RowCells(c: Candidate): (r: seq<string>)
    ensures |r| == 6
    ensures r[0] == IntToString(c.id) && r[4] == IntToString(ScoreOf(c))
    ensures r[1] == OrEmpty(c.name) && r[2] == OrEmpty(c.email) && r[3] == OrEmpty(c.phone)
    ensures r[5] == OrEmpty(c.createdAt)
  {
    [IntToString(c.id), OrEmpty(c.name), OrEmpty(c.email), OrEmpty(c.phone),
     IntToString(ScoreOf(c)), OrEmpty(c.createdAt)]
  }

  function ExportRows(shown: seq<Candidate>): (r: seq<seq<string>>)
    ensures |r| == |shown| + 1 && r[0] == Header
    ensures forall i :: 0 <= i < |shown| ==> r[i + 1] == RowCells(shown[i])
    ensures forall i :: 0 <= i < |r| ==> |r[i]| == 6
  {
    [Header] + seq(|shown|, i requires 0 <= i < |shown| => RowCells(shown[i]))
  }

  /** `exportCsv`'s text for the shown candidates. */
  function ExportCsv(shown: seq<Candidate>): string
  {
    CsvText(ExportRows(shown))
  }

  /** The export reads back as the header plus one six-cell record per shown candidate,
      in display order. */
  lemma ExportReadsBack(shown: seq<Candidate>)
    ensures ParseCsv(ExportCsv(shown)) == Some(ExportRows(shown))
  {
    CsvRoundTrip(ExportRows(shown));
  }

  // ---- Search text as a regular expression ----

  /** The characters `escapeRegExp` escapes: `. * + ? ^ $ { } ( ) | [ ] \`. */
  predicate RegExpSpecial(c: char)
  {
    c in ".*+?^${}()|[]\\"
  }

  /** The replacement `$&` with a backslash before it, for one character. */
  function EscapeChar(c: char): string
  {
    if RegExpSpecial(c) then ['\\', c] else [c]
  }

  /** `escapeRegExp`: a backslash before every special character. */
  function EscapeRegExp(s: string): (r: string)
    ensures |r| >= |s|
    ensures (forall k :: 0 <= k < |s| ==> !RegExpSpecial(s[k])) ==> r == s
  {
    if s == [] then []
    else EscapeChar(s[0]) + EscapeRegExp(s[1..])
  }

  /** A single character is escaped exactly when it is special: a backslash is put before
      it, and any other character is kept as it is. */
  lemma EscapeRegExpChar(c: char)
    ensures EscapeRegExp([c]) == if RegExpSpecial(c) then ['\\', c] else [c]
  {
    assert [c][1..] == [];
  }

  /** Escaping works character by character: the escape of a concatenation is the
      concatenation of the escapes. */
  lemma {:induction false} EscapeRegExpConcat(a: string, b: string)
    ensures EscapeRegExp(a + b) == EscapeRegExp(a) + EscapeRegExp(b)
  {
    if a != [] {
      var h := EscapeChar(a[0]);
      assert (a + b)[0] == a[0];
      assert (a + b)[1..] == a[1..] + b;
      assert EscapeRegExp(a + b) == h + EscapeRegExp(a[1..] + b);
      assert EscapeRegExp(a) == h + EscapeRegExp(a[1..]);
      EscapeRegExpConcat(a[1..], b);
      assert h + (EscapeRegExp(a[1..]) + EscapeRegExp(b)) == (h + EscapeRegExp(a[1..])) + EscapeRegExp(b);
    } else {
      assert a + b == b;
    }
  }

  /** Reads an escaped pattern back: a backslash stands for the character after it. */
  function UnescapeRegExp(r: string): string
  {
    if r == [] then []
    else if r[0] == '\\' && |r| >= 2 then [r[1]] + UnescapeRegExp(r[2..])
    else [r[0]] + UnescapeRegExp(r[1..])
  }

  /** Escaping loses nothing: the pattern spells the search text literally. */
  lemma {:induction false} EscapeRegExpRoundTrip(s: string)
    ensures UnescapeRegExp(EscapeRegExp(s)) == s
  {
    if s != [] {
      EscapeRegExpRoundTrip(s[1..]);
      var t := EscapeRegExp(s[1..]);
      if RegExpSpecial(s[0]) {
        assert (['\\', s[0]] + t)[2..] == t;
      } else {
        assert s[0] != '\\';
        assert ([s[0]] + t)[1..] == t;
      }
      assert [s[0]] + s[1..] == s;
    }
  }

  // ---- Resume link ----

  /** `/^https?:\/\//i`. */
  predicate HasHttpScheme(s: string)
  {
    StartsWith(Lower(s), "http://") || StartsWith(Lower(s), "https://")
  }

  /** `buildResumeUrl`: empty for no path; an absolute http(s) URL as it is; otherwise the
      path after the API's origin, or the path alone when the origin cannot be computed. */
  function BuildResumeUrl(resume: Option<string>, origin: Option<string>): (r: string)
    ensures r == "" <==> OrEmpty(resume) == ""
    ensures EndsWith(r, OrEmpty(resume))
    ensures HasHttpScheme(OrEmpty(resume)) ==> r == OrEmpty(resume)
    ensures OrEmpty(resume) != "" && !HasHttpScheme(OrEmpty(resume)) && origin.Some? ==>
      r == origin.value + OrEmpty(resume)
    ensures OrEmpty(resume) != "" && !HasHttpScheme(OrEmpty(resume)) && origin.None? ==> r == OrEmpty(resume)
  {
    var src := OrEmpty(resume);
    if src == "" then ""
    else if HasHttpScheme(src) then src
    else if origin.Some? then origin.value + src
    else src
  }

  lemma ResumeUrlExamples()
    ensures BuildResumeUrl(Some("HTTP://cv"), Some("http://api")) == "HTTP://cv"
    ensures BuildResumeUrl(Some("/cv"), Some("http://api")) == "http://api/cv"
  {
    var up := Lower("HTTP://cv");
    assert up[0] == 'h' && up[1] == 't' && up[2] == 't' && up[3] == 'p';
    assert up[..7] == "http://";
    assert HasHttpScheme("HTTP://cv");
    assert Lower("/cv")[0] == '/';
    assert !HasHttpScheme("/cv");
  }

  // ---- Deletion ----

  /** `prev.filter(c => c.id !== id)`. */
  function RemoveId(cs: seq<Candidate>, id: int): (r: seq<Candidate>)
    ensures forall c :: multiset(r)[c] == if c.id != id then multiset(cs)[c] else 0
    ensures forall c :: c in r <==> c in cs && c.id != id
  {
    if cs == [] then []
    else
      assert cs == [cs[0]] + cs[1..];
      (if cs[0].id != id then [cs[0]] else []) + RemoveId(cs[1..], id)
  }

  /** After a deletion no candidate with that id is shown, whatever the search and order. */
  lemma DeletedNotShown(cs: seq<Candidate>, id: int, search: string, order: SortOrder)
    ensures forall c :: c in Visible(RemoveId(cs, id), search, order) ==> c.id != id
  {
    var v := Visible(RemoveId(cs, id), search, order);
    forall c | c in v
      ensures c.id != id
    {
      assert c in multiset(v);
    }
  }

  /** The dashboard's state. */
  class Board {
    var candidates: seq<Candidate>
    var selected: Option<Candidate>
    var search: string
    var order: SortOrder

    constructor ()
      ensures candidates == [] && selected == None && search == "" && order == Desc
    {
      candidates := [];
      selected := None;
      search := "";
      order := Desc;
    }

    function Shown(): seq<Candidate>
      reads this
    {
      Visible(candidates, search, order)
    }

    /** The list fetched on mount. */
    method Loaded(fetched: seq<Candidate>)
      modifies this
      ensures candidates == fetched
      ensures selected == old(selected) && search == old(search) && order == old(order)
    {
      candidates := fetched;
    }

    /** `deleteCandidate(id)`: nothing unless the user confirms and the server accepts;
        then every candidate with the id goes, and so does the selection if it was one. */
    method DeleteCandidate(id: int, confirmed: bool, accepted: bool)
      modifies this
      ensures !(confirmed && accepted) ==> candidates == old(candidates) && selected == old(selected)
      ensures confirmed && accepted ==> candidates == RemoveId(old(candidates), id)
      ensures confirmed && accepted ==>
        selected == if old(selected).Some? && old(selected).value.id == id then None else old(selected)
      ensures confirmed && accepted ==> forall c :: c in candidates ==> c.id != id
      ensures search == old(search) && order == old(order)
    {
      if confirmed && accepted {
        candidates := RemoveId(candidates, id);
        if selected.Some? && selected.value.id == id {
          selected := None;
        }
      }
    }
  }

  // ---- Score badges ----

  datatype Tier = High | Middle | Low

  /** `getScoreBadgeStyle`'s three colours. */
  function TierOf(score: int): (t: Tier)
    ensures t == High <==> score >= 70
    ensures t == Middle <==> 40 <= score < 70
    ensures t == Low <==> score < 40
  {
    if score >= 70 then High else if score >= 40 then Middle else Low
  }

  /** The "High Score" statistic: candidates scoring at least 70. */
  function HighScoreCount(cs: seq<Candidate>): nat
  {
    if cs == [] then 0 else (if ScoreOf(cs[0]) >= 70 then 1 else 0) + HighScoreCount(cs[1..])
  }

  function CountTier(cs: seq<Candidate>, t: Tier): nat
  {
    if cs == [] then 0 else (if TierOf(ScoreOf(cs[0])) == t then 1 else 0) + CountTier(cs[1..], t)
  }

  /** The statistic counts exactly the green badges, and every candidate has one badge. */
  lemma {:induction false} HighCountMatchesBadges(cs: seq<Candidate>)
    ensures HighScoreCount(cs) == CountTier(cs, High)
    ensures CountTier(cs, High) + CountTier(cs, Middle) + CountTier(cs, Low) == |cs|
  {
    if cs != [] {
      HighCountMatchesBadges(cs[1..]);
    }
  }
}
