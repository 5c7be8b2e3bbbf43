/** The CSV export built in server/routes.ts: a fixed header line, then one line
    per lead, lines separated by a bare "\n". Every field but the id is wrapped
    in double quotes and nothing inside a field is escaped, so this is not the
    format of RFC 4180 (which doubles embedded quotes and ends lines with CRLF). */
module CsvExport {
  import opened Wrappers
  import opened Text
  import opened Schema

  /** A field as written: bare, or wrapped in double quotes. */
  datatype Cell = Bare(text: string) | Quoted(text: string)

  /** The header line, one title per column. */
  const Header: string :=
    "ID," + "Full Name," + "Mobile," + "Email," + "PAN Card," + "Occupation," + "Company,"
    + "Monthly Salary," + "Status," + "Created At"

  lemma HeaderIsOneLine()
    ensures '\n' !in Header
  {
  }

  function RenderCell(c: Cell): string {
    match c
    case Bare(t) => t
    case Quoted(t) => "\"" + t + "\""
  }

  function RenderCells(cells: seq<Cell>): (r: seq<string>)
    ensures |r| == |cells|
    ensures forall i :: 0 <= i < |cells| ==> r[i] == RenderCell(cells[i])
  {
    if |cells| == 0 then [] else [RenderCell(cells[0])] + RenderCells(cells[1..])
  }

  /** One line: the rendered fields joined by commas. */
  function RenderRecord(cells: seq<Cell>): string {
    Join(RenderCells(cells), ',')
  }

  /** `${x || ''}` for a nullable text column: NULL and "" both come out as "". */
  function TextOrEmpty(v: Option<string>): string {
    v.GetOr("")
  }

  /** `${lead.monthlySalary || ''}`: NULL and 0 come out as "", other values as decimals. */
  function SalaryText(v: Option<int>): (r: string)
    ensures r == "" <==> v.None? || v.value == 0
    ensures r != "" ==> ParseInt(r) == Int(v.value)
  {
    if v.None? || v.value == 0 then "" else
      ParseIntOfDecimal(v.value);
      IntToDecimal(v.value)
  }

  /** The ten fields of a lead's line in header order. `showDate` is
      `Date.prototype.toString`, which depends on the server's time zone. */
  function RowCells(l: LoanLead, showDate: int -> string): (r: seq<Cell>)
    ensures |r| == 10
  {
    [ Bare(NatToDecimal(l.id)), Quoted(TextOrEmpty(l.fullName)), Quoted(l.mobileNumber),
      Quoted(TextOrEmpty(l.email)), Quoted(TextOrEmpty(l.panCard)), Quoted(l.occupationType),
      Quoted(TextOrEmpty(l.companyName)), Quoted(SalaryText(l.monthlySalary)), Quoted(l.status),
      Quoted(showDate(l.createdAt)) ]
  }

  function Row(l: LoanLead, showDate: int -> string): string {
    RenderRecord(RowCells(l, showDate))
  }

  function Rows(leads: seq<LoanLead>, showDate: int -> string): (r: seq<string>)
    ensures |r| == |leads|
    ensures forall i :: 0 <= i < |leads| ==> r[i] == Row(leads[i], showDate)
  {
    if |leads| == 0 then [] else [Row(leads[0], showDate)] + Rows(leads[1..], showDate)
  }

  /** The whole document: header, "\n", then the rows joined by "\n". */
  function Export(leads: seq<LoanLead>, showDate: int -> string): (r: string)
    ensures |r| > |Header| && r[..|Header| + 1] == Header + "\n"
    ensures |leads| == 0 ==> r == Header + "\n"
  {
    Header + "\n" + Join(Rows(leads, showDate), '\n')
  }

  // ---------------------------------------------------------------------------
  // Reading a line back. The reader takes a field that starts with a quote to
  // run to the next quote; any other field runs to the next comma.

  function ParseRecord(s: string): (r: Option<seq<Cell>>)
    ensures r.Some? ==> |r.value| > 0
    decreases |s|
  {
    if |s| > 0 && s[0] == '"' then
      match IndexOf(s[1..], '"')
      case None => None
      case Some(j) =>
        var rest := s[j + 2..];
        if |rest| == 0 then Some([Quoted(s[1..j + 1])])
        else if rest[0] != ',' then None
        else
          match ParseRecord(rest[1..])
          case None => None
          case Some(cells) => Some([Quoted(s[1..j + 1])] + cells)
    else
      match IndexOf(s, ',')
      case None => Some([Bare(s)])
      case Some(k) =>
        match ParseRecord(s[k + 1..])
        case None => None
        case Some(cells) => Some([Bare(s[..k])] + cells)
  }

  /** A cell the writer renders unambiguously: quoted text without a quote,
      bare text without a quote or a comma. */
  predicate Readable(c: Cell) {
    match c
    case Bare(t) => '"' !in t && ',' !in t
    case Quoted(t) => '"' !in t
  }

  lemma RenderedCellShape(c: Cell)
    ensures '\n' !in c.text ==> '\n' !in RenderCell(c)
  {
  }

  lemma RenderRecordCons(cells: seq<Cell>)
    requires |cells| > 1
    ensures RenderRecord(cells) == RenderCell(cells[0]) + "," + RenderRecord(cells[1..])
  {
    assert RenderCells(cells)[1..] == RenderCells(cells[1..]);
  }

  /** A quoted first field is read up to its closing quote. */
  lemma ParseQuotedFirst(t: string, tail: string)
    requires '"' !in t
    requires tail == "" || tail[0] == ','
    ensures ParseRecord("\"" + t + "\"" + tail) ==
      if tail == "" then Some([Quoted(t)])
      else match ParseRecord(tail[1..])
           case None => None
           case Some(cells) => Some([Quoted(t)] + cells)
  {
    var s := "\"" + t + "\"" + tail;
    assert s[1..] == t + ['"'] + tail;
    IndexOfAfterPrefix(t, '"', tail);
    assert s[1..|t| + 1] == t;
    assert s[|t| + 2..] == tail;
  }

  /** A bare first field is read up to the next comma. */
  lemma ParseBareFirst(t: string, tail: string)
    requires '"' !in t && ',' !in t
    requires tail == "" || tail[0] == ','
    ensures ParseRecord(t + tail) ==
      if tail == "" then Some([Bare(t)])
      else match ParseRecord(tail[1..])
           case None => None
           case Some(cells) => Some([Bare(t)] + cells)
  {
    var s := t + tail;
    if |t| > 0 {
      assert s[0] == t[0];
    }
    if tail == "" {
      assert s == t;
      IndexOfAbsent(s, ',');
    } else {
      assert s == t + [','] + tail[1..];
      IndexOfAfterPrefix(t, ',', tail[1..]);
      assert s[..|t|] == t;
      assert s[|t| + 1..] == tail[1..];
    }
  }

  /** A readable first cell is read back whatever follows its closing comma. */
  lemma ParseFirst(c: Cell, tail: string)
    requires Readable(c)
    requires tail == "" || tail[0] == ','
    ensures ParseRecord(RenderCell(c) + tail) ==
      if tail == "" then Some([c])
      else match ParseRecord(tail[1..])
           case None => None
           case Some(cells) => Some([c] + cells)
  {
    match c
    case Quoted(t) => ParseQuotedFirst(t, tail);
    case Bare(t) => ParseBareFirst(t, tail);
  }

  /** What follows the first field of a line: nothing, or a comma and the rest. */
  function AfterFirst(cells: seq<Cell>): (r: string)
    requires |cells| > 0
    ensures RenderRecord(cells) == RenderCell(cells[0]) + r
    ensures r == "" <==> |cells| == 1
    ensures |cells| > 1 ==> r[0] == ',' && r[1..] == RenderRecord(cells[1..])
  {
    if |cells| == 1 then
      assert RenderCells(cells) == [RenderCell(cells[0])];
      ""
    else
      RenderRecordCons(cells);
      "," + RenderRecord(cells[1..])
  }

  /** Reading a line written from readable cells gives those cells back. */
  lemma {:induction false} ParseRenderRecord(cells: seq<Cell>)
    requires |cells| > 0
    requires forall i :: 0 <= i < |cells| ==> Readable(cells[i])
    ensures ParseRecord(RenderRecord(cells)) == Some(cells)
  {
    if |cells| == 1 {
      var tail := AfterFirst(cells);
      ParseFirst(cells[0], tail);
      assert cells == [cells[0]];
    } else {
      ParseRenderRecord(cells[1..]);
      ParseRecordStep(cells);
    }
  }

  /** A line reads back when its first cell is readable and the rest of it reads back. */
  lemma ParseRecordStep(cells: seq<Cell>)
    requires |cells| > 1 && Readable(cells[0])
    requires ParseRecord(RenderRecord(cells[1..])) == Some(cells[1..])
    ensures ParseRecord(RenderRecord(cells)) == Some(cells)
  {
    var tail := AfterFirst(cells);
    ParseFirst(cells[0], tail);
    assert cells == [cells[0]] + cells[1..];
  }

  /** Text free of double quotes: the condition under which a line reads back. */
  predicate QuoteFree(l: LoanLead, showDate: int -> string) {
    && '"' !in TextOrEmpty(l.fullName) && '"' !in l.mobileNumber && '"' !in TextOrEmpty(l.email)
    && '"' !in TextOrEmpty(l.panCard) && '"' !in l.occupationType && '"' !in TextOrEmpty(l.companyName)
    && '"' !in l.status && '"' !in showDate(l.createdAt)
  }

  lemma DigitsAreNot(s: string, c: char)
    requires AllDigits(s) && !IsDigit(c)
    ensures c !in s
  {
    assert forall i :: 0 <= i < |s| ==> s[i] != c;
  }

  lemma SalaryTextIsPlain(v: Option<int>)
    ensures '"' !in SalaryText(v) && ',' !in SalaryText(v) && '\n' !in SalaryText(v)
  {
    if v.Some? && v.value != 0 {
      var r := IntToDecimal(v.value);
      if v.value >= 0 {
        DigitsAreNot(r, '"'); DigitsAreNot(r, ','); DigitsAreNot(r, '\n');
      } else {
        assert r == [r[0]] + r[1..];
        DigitsAreNot(r[1..], '"'); DigitsAreNot(r[1..], ','); DigitsAreNot(r[1..], '\n');
      }
    }
  }

  /** A lead whose fields hold no double quote reads back field by field from its line. */
  lemma RowReadsBack(l: LoanLead, showDate: int -> string)
    requires QuoteFree(l, showDate)
    ensures ParseRecord(Row(l, showDate)) == Some(RowCells(l, showDate))
  {
    var cells := RowCells(l, showDate);
    DigitsAreNot(NatToDecimal(l.id), '"');
    DigitsAreNot(NatToDecimal(l.id), ',');
    SalaryTextIsPlain(l.monthlySalary);
    assert forall i :: 0 <= i < |cells| ==> Readable(cells[i]);
    ParseRenderRecord(cells);
  }

  /** Because nothing is escaped, two different leads can export the same line:
      a name `p","q` swallows the boundary before the mobile number, so it reads
      like the name `p` followed by the mobile number `q","m`. */
  lemma ExportIsAmbiguous(a: LoanLead, p: string, q: string, showDate: int -> string)
    requires a.fullName == Some(p + "\",\"" + q)
    ensures
      var b := a.(fullName := Some(p), mobileNumber := q + "\",\"" + a.mobileNumber);
      a != b && Row(a, showDate) == Row(b, showDate)
  {
    var m := a.mobileNumber;
    var b := a.(fullName := Some(p), mobileNumber := q + "\",\"" + m);
    assert |a.fullName.value| > |b.fullName.value|;
    RowSplits(a, showDate);
    RowSplits(b, showDate);
    RowTailsAgree(a, b, showDate);
    SwallowedBoundary(NatToDecimal(a.id), p, q, m);
  }

  /** The quoted name `p","q` before the mobile `m` reads the same as the name
      `p` before the mobile `q","m`. */
  lemma SwallowedBoundary(id: string, p: string, q: string, m: string)
    ensures
      Join([id, "\"" + (p + "\",\"" + q) + "\"", "\"" + m + "\""], ',') ==
      Join([id, "\"" + p + "\"", "\"" + (q + "\",\"" + m) + "\""], ',')
  {
    var ha := [id, "\"" + (p + "\",\"" + q) + "\"", "\"" + m + "\""];
    var hb := [id, "\"" + p + "\"", "\"" + (q + "\",\"" + m) + "\""];
    JoinThree(ha, ',');
    JoinThree(hb, ',');
    var quote: string := "\"";
    var w := id + [','] + quote + p + quote + [','] + quote + q + quote + [','] + quote + m + quote;
    assert Join(ha, ',') == w;
    assert Join(hb, ',') == w;
  }

  /** A row is its first three rendered fields, a comma, and the other seven. */
  lemma RowSplits(l: LoanLead, showDate: int -> string)
    ensures
      var x := RenderCells(RowCells(l, showDate));
      && x[..3] == [NatToDecimal(l.id), "\"" + TextOrEmpty(l.fullName) + "\"", "\"" + l.mobileNumber + "\""]
      && Row(l, showDate) == Join(x[..3], ',') + "," + Join(x[3..], ',')
  {
    var x := RenderCells(RowCells(l, showDate));
    assert x == x[..3] + x[3..];
    JoinAppend(x[..3], x[3..], ',');
  }

  /** Leads that agree from the email column on render the same last seven fields. */
  lemma RowTailsAgree(a: LoanLead, b: LoanLead, showDate: int -> string)
    requires a.email == b.email && a.panCard == b.panCard && a.occupationType == b.occupationType
    requires a.companyName == b.companyName && a.monthlySalary == b.monthlySalary
    requires a.status == b.status && a.createdAt == b.createdAt
    ensures RenderCells(RowCells(a, showDate))[3..] == RenderCells(RowCells(b, showDate))[3..]
  {
    var ca := RowCells(a, showDate);
    var cb := RowCells(b, showDate);
    var rest := [Quoted(TextOrEmpty(a.email)), Quoted(TextOrEmpty(a.panCard)), Quoted(a.occupationType),
      Quoted(TextOrEmpty(a.companyName)), Quoted(SalaryText(a.monthlySalary)), Quoted(a.status),
      Quoted(showDate(a.createdAt))];
    assert ca[3..] == rest;
    assert cb[3..] == rest;
    RenderCellsSuffix(ca, 3);
    RenderCellsSuffix(cb, 3);
  }

  lemma RenderCellsSuffix(cells: seq<Cell>, k: nat)
    requires k <= |cells|
    ensures RenderCells(cells)[k..] == RenderCells(cells[k..])
  {
  }

  lemma JoinThree(p: seq<string>, sep: char)
    requires |p| == 3
    ensures Join(p, sep) == p[0] + [sep] + p[1] + [sep] + p[2]
  {
    assert p[1..][1..] == [p[2]];
    assert Join(p[1..], sep) == p[1] + [sep] + p[2];
    assert p[0] + [sep] + (p[1] + [sep] + p[2]) == p[0] + [sep] + p[1] + [sep] + p[2];
  }

  /** Text free of line feeds: the condition under which the document splits into lines. */
  predicate NewlineFree(l: LoanLead, showDate: int -> string) {
    && '\n' !in TextOrEmpty(l.fullName) && '\n' !in l.mobileNumber && '\n' !in TextOrEmpty(l.email)
    && '\n' !in TextOrEmpty(l.panCard) && '\n' !in l.occupationType && '\n' !in TextOrEmpty(l.companyName)
    && '\n' !in l.status && '\n' !in showDate(l.createdAt)
  }

  lemma RowHasNoNewline(l: LoanLead, showDate: int -> string)
    requires NewlineFree(l, showDate)
    ensures '\n' !in Row(l, showDate)
  {
    var cells := RowCells(l, showDate);
    DigitsAreNot(NatToDecimal(l.id), '\n');
    SalaryTextIsPlain(l.monthlySalary);
    var rendered := RenderCells(cells);
    assert forall k :: 0 <= k < |cells| ==> '\n' !in cells[k].text;
    forall k | 0 <= k < |rendered|
      ensures '\n' !in rendered[k]
    {
      RenderedCellShape(cells[k]);
    }
    JoinExcludes(rendered, ',', '\n');
  }

  lemma RowsHaveNoNewline(leads: seq<LoanLead>, showDate: int -> string)
    requires forall i :: 0 <= i < |leads| ==> NewlineFree(leads[i], showDate)
    ensures forall i :: 0 <= i < |leads| ==> '\n' !in Rows(leads, showDate)[i]
  {
    forall i | 0 <= i < |leads|
      ensures '\n' !in Rows(leads, showDate)[i]
    {
      RowHasNoNewline(leads[i], showDate);
    }
  }

  lemma SplitHeaderThen(rows: seq<string>)
    requires |rows| > 0
    requires forall i :: 0 <= i < |rows| ==> '\n' !in rows[i]
    ensures Split(Header + "\n" + Join(rows, '\n'), '\n') == [Header] + rows
  {
    var parts := [Header] + rows;
    HeaderIsOneLine();
    assert parts[1..] == rows;
    assert Join(parts, '\n') == Header + "\n" + Join(rows, '\n');
    SplitJoin(parts, '\n');
  }

  /** With no line feed inside any field, the document splits into the header
      and exactly one line per lead, in store order; an empty store yields the
      header and an empty last line. */
  lemma ExportLines(leads: seq<LoanLead>, showDate: int -> string)
    requires forall i :: 0 <= i < |leads| ==> NewlineFree(leads[i], showDate)
    ensures |leads| > 0 ==> Split(Export(leads, showDate), '\n') == [Header] + Rows(leads, showDate)
    ensures |leads| == 0 ==> Split(Export(leads, showDate), '\n') == [Header, ""]
  {
    if |leads| > 0 {
      RowsHaveNoNewline(leads, showDate);
      SplitHeaderThen(Rows(leads, showDate));
      assert Export(leads, showDate) == Header + "\n" + Join(Rows(leads, showDate), '\n');
    } else {
      SplitHeaderOnly();
    }
  }

  lemma SplitHeaderOnly()
    ensures Split(Header + "\n", '\n') == [Header, ""]
  {
    var parts := [Header, ""];
    HeaderIsOneLine();
    assert Join(parts, '\n') == Header + "\n";
    SplitJoin(parts, '\n');
  }
}
