/** The CSV report of an opportunity import, and the RFC 4180 reader that takes it apart again. */
module ReportCsv {
  import opened Text

  datatype Status = Created | Updated | Ignored | Error

  datatype RowResult = RowResult(
    row: nat,
    status: Status,
    reason: Option<string>,
    message: Option<string>,
    matchedId: Option<string>,
    matchedTitle: Option<string>,
    matchedClientName: Option<string>,
    matchedCreatedAt: Option<string>)

  // ----- Printing -----

  predicate NeedsQuotes(text: string) {
    exists c | c in text :: c == '"' || c == ',' || c == '\n'
  }

  /** `text.replace(/"/g, '""')`. */
  function Doubled(text: string): string {
    if text == "" then "" else (if text[0] == '"' then ['"', '"'] else [text[0]]) + Doubled(text[1..])
  }

  function EscapeCsv(text: string): string {
    if NeedsQuotes(text) then ['"'] + Doubled(text) + ['"'] else text
  }

  function Join(parts: seq<string>, separator: char): string {
    if parts == [] then "" else if |parts| == 1 then parts[0]
    else parts[0] + [separator] + Join(parts[1..], separator)
  }

  function EscapeAll(fields: seq<string>): (r: seq<string>)
    ensures |r| == |fields| && forall i | 0 <= i < |r| :: r[i] == EscapeCsv(fields[i])
  {
    seq(|fields|, i requires 0 <= i < |fields| => EscapeCsv(fields[i]))
  }

  function Line(fields: seq<string>): string {
    Join(EscapeAll(fields), ',')
  }

  function Lines(rows: seq<seq<string>>): (r: seq<string>)
    ensures |r| == |rows| && forall i | 0 <= i < |r| :: r[i] == Line(rows[i])
  {
    seq(|rows|, i requires 0 <= i < |rows| => Line(rows[i]))
  }

  function Print(rows: seq<seq<string>>): string {
    Join(Lines(rows), '\n')
  }

  function StatusText(s: Status): string {
    match s
    case Created => "created"
    case Updated => "updated"
    case Ignored => "ignored"
    case Error => "error"
  }

  function Header(): seq<string> {
    ["row", "status", "reason", "message", "matchedId", "matchedTitle", "matchedClientName", "matchedCreatedAt"]
  }

  function Cells(r: RowResult): seq<string> {
    [NatText(r.row), StatusText(r.status), TextOf(r.reason), TextOf(r.message), TextOf(r.matchedId),
     TextOf(r.matchedTitle), TextOf(r.matchedClientName), TextOf(r.matchedCreatedAt)]
  }

  function Shown(text: Option<string>): string {
    match text
    case Some(t) => t
    case None => ""
  }

  /** The cell under each heading. */
  predicate Under(heading: string, r: RowResult, cell: string) {
    if heading == "row" then cell == NatText(r.row)
    else if heading == "status" then cell == StatusText(r.status)
    else if heading == "reason" then cell == Shown(r.reason)
    else if heading == "message" then cell == Shown(r.message)
    else if heading == "matchedId" then cell == Shown(r.matchedId)
    else if heading == "matchedTitle" then cell == Shown(r.matchedTitle)
    else if heading == "matchedClientName" then cell == Shown(r.matchedClientName)
    else heading == "matchedCreatedAt" && cell == Shown(r.matchedCreatedAt)
  }

  /** Every column of the report holds what its heading says. */
  lemma ColumnsHoldTheirFields(r: RowResult, i: nat)
    requires i < |Header()|
    ensures |Cells(r)| == |Header()| && Under(Header()[i], r, Cells(r)[i])
  {
    hide NatText, StatusText;
    assert |"row"| == 3 && |"status"| == 6 && |"reason"| == 6 && |"message"| == 7 && |"matchedId"| == 9;
    assert |"matchedTitle"| == 12 && |"matchedClientName"| == 17 && |"matchedCreatedAt"| == 16;
    assert "status"[0] == 's' && "reason"[0] == 'r';
  }

  function AllCells(rows: seq<RowResult>): (cells: seq<seq<string>>)
    ensures |cells| == |rows| && forall i | 0 <= i < |cells| :: cells[i] == Cells(rows[i])
  {
    seq(|rows|, i requires 0 <= i < |rows| => Cells(rows[i]))
  }

  /** The printer of the source: a header line joined without escaping, then one escaped line per row. */
  method BuildReport(rowResults: seq<RowResult>) returns (text: string)
    ensures text == Print([Header()] + AllCells(rowResults))
  {
    hide Cells, Header, Line;
    var lines := [Join(Header(), ',')];
    for i := 0 to |rowResults|
      invariant lines == [Join(Header(), ',')] + Lines(AllCells(rowResults[..i]))
    {
      lines := lines + [Line(Cells(rowResults[i]))];
      assert Lines(AllCells(rowResults[..i + 1])) == Lines(AllCells(rowResults[..i])) + [Line(Cells(rowResults[i]))];
    }
    assert rowResults[..|rowResults|] == rowResults;
    HeaderIsPlain();
    assert lines == Lines([Header()] + AllCells(rowResults));
    text := Join(lines, '\n');
  }

  lemma HeaderIsPlain()
    ensures Line(Header()) == Join(Header(), ',')
  {
    var h := Header();
    PlainWord("row");
    PlainWord("status");
    PlainWord("reason");
    PlainWord("message");
    PlainWord("matchedId");
    PlainWord("matchedTitle");
    PlainWord("matchedClientName");
    PlainWord("matchedCreatedAt");
    hide EscapeCsv;
    assert EscapeAll(h) == h;
  }

  lemma PlainWord(w: string)
    requires forall i | 0 <= i < |w| :: 'A' <= w[i] <= 'z'
    ensures EscapeCsv(w) == w
  {
  }

  // ----- Reading: RFC 4180 section 2, rules 5 to 7, with LF between rows -----

  predicate EndsField(rest: string) {
    rest == "" || rest[0] == ',' || rest[0] == '\n'
  }

  /** After the opening quote: `""` is a quote, a lone quote closes. */
  function ReadQuoted(s: string): (r: Option<(string, string)>)
    ensures r.Some? ==> |r.value.1| < |s|
  {
    if s == "" then None
    else if s[0] == '"' then
      if |s| > 1 && s[1] == '"' then Prepend('"', ReadQuoted(s[2..])) else Some(("", s[1..]))
    else Prepend(s[0], ReadQuoted(s[1..]))
  }

  /** An unquoted field holds no quote. */
  function ReadBare(s: string): (r: Option<(string, string)>)
    ensures r.Some? ==> |r.value.1| <= |s|
  {
    if EndsField(s) then Some(("", s)) else if s[0] == '"' then None else Prepend(s[0], ReadBare(s[1..]))
  }

  function Prepend(c: char, r: Option<(string, string)>): Option<(string, string)> {
    match r
    case Some((field, rest)) => Some(([c] + field, rest))
    case None => None
  }

  function ReadField(s: string): (r: Option<(string, string)>)
    ensures r.Some? ==> |r.value.1| <= |s|
  {
    if s != "" && s[0] == '"' then ReadQuoted(s[1..]) else ReadBare(s)
  }

  function ReadRow(s: string): (r: Option<(seq<string>, string)>)
    ensures r.Some? ==> |r.value.1| <= |s|
    decreases |s|
  {
    match ReadField(s)
    case None => None
    case Some((field, rest)) =>
      if rest == "" || rest[0] == '\n' then Some(([field], rest))
      else if rest[0] == ',' then
        match ReadRow(rest[1..])
        case Some((fields, rest')) => Some(([field] + fields, rest'))
        case None => None
      else None
  }

  function ReadRows(s: string): Option<seq<seq<string>>>
    decreases |s|
  {
    match ReadRow(s)
    case None => None
    case Some((row, rest)) =>
      if rest == "" then Some([row])
      else
        match ReadRows(rest[1..])
        case Some(rows) => Some([row] + rows)
        case None => None
  }

  // ----- The round trip -----

  lemma {:induction false} ReadsQuoted(text: string, rest: string)
    requires rest == "" || rest[0] != '"'
    ensures ReadQuoted(Doubled(text) + ['"'] + rest) == Some((text, rest))
  {
    var s := Doubled(text) + ['"'] + rest;
    if text == "" {
      assert s == ['"'] + rest;
      assert s[1..] == rest;
    } else {
      ReadsQuoted(text[1..], rest);
      var tail := Doubled(text[1..]) + ['"'] + rest;
      assert text == [text[0]] + text[1..];
      if text[0] == '"' {
        assert s == ['"', '"'] + tail;
        assert s[2..] == tail;
      } else {
        assert s == [text[0]] + tail;
        assert s[1..] == tail;
      }
    }
  }

  lemma {:induction false} ReadsBare(text: string, rest: string)
    requires !NeedsQuotes(text) && EndsField(rest)
    ensures ReadBare(text + rest) == Some((text, rest))
  {
    if text == "" {
      assert text + rest == rest;
    } else {
      assert text[0] in text;
      assert forall c | c in text[1..] :: c in text;
      ReadsBare(text[1..], rest);
      assert (text + rest)[1..] == text[1..] + rest;
      assert text == [text[0]] + text[1..];
    }
  }

  lemma ReadsField(text: string, rest: string)
    requires EndsField(rest)
    ensures ReadField(EscapeCsv(text) + rest) == Some((text, rest))
  {
    hide ReadQuoted, ReadBare, Doubled, NeedsQuotes;
    var s := EscapeCsv(text) + rest;
    if NeedsQuotes(text) {
      var closed := Doubled(text) + ['"'] + rest;
      ReadsQuoted(text, rest);
      assert s == ['"'] + closed;
      assert s[1..] == closed;
    } else {
      NoLeadingQuote(text, rest);
      ReadsBare(text, rest);
    }
  }

  lemma NoLeadingQuote(text: string, rest: string)
    requires !NeedsQuotes(text) && EndsField(rest)
    ensures text + rest == "" || (text + rest)[0] != '"'
  {
    if text != "" {
      assert text[0] in text;
    }
  }

  lemma {:induction false} ReadsRow(fields: seq<string>, rest: string)
    requires fields != [] && (rest == "" || rest[0] == '\n')
    ensures ReadRow(Line(fields) + rest) == Some((fields, rest))
    decreases |fields|
  {
    hide EscapeCsv, ReadField;
    var s := Line(fields) + rest;
    if |fields| == 1 {
      ReadsField(fields[0], rest);
      assert fields == [fields[0]];
    } else {
      var tail := Line(fields[1..]) + rest;
      assert EscapeAll(fields)[1..] == EscapeAll(fields[1..]);
      assert s == EscapeCsv(fields[0]) + ([','] + tail);
      ReadsField(fields[0], [','] + tail);
      ReadsRow(fields[1..], rest);
      assert ([','] + tail)[1..] == tail;
      assert fields == [fields[0]] + fields[1..];
    }
  }

  /** Every table with at least one row, and a field in each row, survives printing and reading. */
  lemma {:induction false} RoundTrip(rows: seq<seq<string>>)
    requires rows != [] && forall i | 0 <= i < |rows| :: rows[i] != []
    ensures ReadRows(Print(rows)) == Some(rows)
    decreases |rows|
  {
    hide Line, ReadRow;
    if |rows| == 1 {
      ReadsRow(rows[0], "");
      assert Line(rows[0]) + "" == Print(rows);
      assert rows == [rows[0]];
    } else {
      var tail := Print(rows[1..]);
      assert Lines(rows)[1..] == Lines(rows[1..]);
      assert Print(rows) == Line(rows[0]) + (['\n'] + tail);
      ReadsRow(rows[0], ['\n'] + tail);
      RoundTrip(rows[1..]);
      assert (['\n'] + tail)[1..] == tail;
      assert rows == [rows[0]] + rows[1..];
    }
  }

  /** Reading a report gives back the header and every cell of every row, whatever the texts contain. */
  lemma ReportRoundTrip(rowResults: seq<RowResult>)
    ensures ReadRows(Print([Header()] + AllCells(rowResults))) == Some([Header()] + AllCells(rowResults))
  {
    RoundTrip([Header()] + AllCells(rowResults));
  }

  function TextNat(s: string): nat {
    if s == "" then 0
    else 10 * TextNat(s[..|s| - 1]) + if IsDigit(s[|s| - 1]) then s[|s| - 1] as int - '0' as int else 0
  }

  lemma {:induction false} NatTextBack(n: nat)
    ensures TextNat(NatText(n)) == n
  {
    var s := NatText(n);
    if n >= 10 {
      NatTextBack(n / 10);
      assert s[..|s| - 1] == NatText(n / 10);
    } else {
      assert s[..|s| - 1] == "";
    }
  }

  /** Two imports whose reports read the same reported the same rows, in the same order, with the same
      row numbers and statuses, and the same texts up to "absent" versus "empty". */
  lemma ReportsTellApart(a: seq<RowResult>, b: seq<RowResult>, i: nat)
    requires Print([Header()] + AllCells(a)) == Print([Header()] + AllCells(b)) && i < |a|
    ensures |a| == |b| && Cells(a[i]) == Cells(b[i])
    ensures a[i].row == b[i].row && a[i].status == b[i].status && TextOf(a[i].message) == TextOf(b[i].message)
  {
    hide Print, Header;
    ReportRoundTrip(a);
    ReportRoundTrip(b);
    assert ([Header()] + AllCells(a))[i + 1] == Cells(a[i]);
    assert |a| == |b|;
    assert ([Header()] + AllCells(b))[i + 1] == Cells(b[i]);
    CellsTell(a[i], b[i]);
  }

  lemma CellsTell(x: RowResult, y: RowResult)
    requires Cells(x) == Cells(y)
    ensures x.row == y.row && x.status == y.status && TextOf(x.message) == TextOf(y.message)
  {
    assert Cells(x)[0] == Cells(y)[0] && Cells(x)[1] == Cells(y)[1] && Cells(x)[3] == Cells(y)[3];
    NatTextBack(x.row);
    NatTextBack(y.row);
    assert StatusText(x.status)[0] == StatusText(y.status)[0];
  }
}
