/**
 * The CSV export of the link table (apps/web/src/lib/csv-export.ts) against a
 * strict reader for section 2 of RFC 4180: rules 5 to 7, with the bare line feed
 * the exporter writes as record separator.
 */
module Csv {
  import opened Options
  import opened LinkRows
  import opened RowStatus
  import opened Texts

  // ----- the printer -----

  const COLUMNS: seq<string> := [
    "donor_url", "acceptor", "status", "found", "occurrences", "follow",
    "http_status", "indexable", "canonical_match", "last_checked", "error"]

  const QUOTE: char := '"'

  /** s.replace(/"/g, '""') */
  function DoubleQuotes(s: string): string {
    if s == [] then []
    else (if s[0] == QUOTE then [QUOTE, QUOTE] else [s[0]]) + DoubleQuotes(s[1..])
  }

  function EscapeCell(s: string): string {
    [QUOTE] + DoubleQuotes(s) + [QUOTE]
  }

  function Join(parts: seq<string>, sep: char): string {
    if parts == [] then []
    else if |parts| == 1 then parts[0]
    else Join(parts[..|parts| - 1], sep) + [sep] + parts[|parts| - 1]
  }

  function EscapeAll(cells: seq<string>): seq<string> {
    seq(|cells|, i requires 0 <= i < |cells| => EscapeCell(cells[i]))
  }

  function YesNo(b: Option<bool>): string {
    match b
    case None => ""
    case Some(true) => "yes"
    case Some(false) => "no"
  }

  function ShowFollow(k: Option<FollowKind>): string {
    match k
    case None => ""
    case Some(Dofollow) => "dofollow"
    case Some(Nofollow) => "nofollow"
  }

  /** The eleven cells of a row; `showTime` prints a time stamp. */
  function CellsOf(row: Link, showTime: int -> string): (cells: seq<string>)
    ensures |cells| == |COLUMNS|
  {
    [row.donorUrl,
     row.acceptorRaw,
     RowStatusLabel(ComputeRowStatus(row)),
     YesNo(row.linkFound),
     ShowInt(row.occurrencesCount),
     ShowFollow(ComputeFollowKind(row)),
     if row.donorStatusCode.Some? then ShowInt(row.donorStatusCode.value) else "",
     YesNo(row.donorIndexable),
     YesNo(row.canonicalMatches),
     if row.lastCheckedAt.Some? then showTime(row.lastCheckedAt.value) else "",
     if row.error.Some? then row.error.value else ""]
  }

  function LineOf(cells: seq<string>): string {
    Join(EscapeAll(cells), ',')
  }

  function LinesOf(table: seq<seq<string>>): seq<string> {
    seq(|table|, i requires 0 <= i < |table| => LineOf(table[i]))
  }

  /** A bare header line, then one quoted line per row. */
  function FileOf(header: seq<string>, table: seq<seq<string>>): string {
    Join([Join(header, ',')] + LinesOf(table), '\n')
  }

  function CellTable(rows: seq<Link>, showTime: int -> string): seq<seq<string>> {
    seq(|rows|, i requires 0 <= i < |rows| => CellsOf(rows[i], showTime))
  }

  function LinksToCsv(rows: seq<Link>, showTime: int -> string): string {
    FileOf(COLUMNS, CellTable(rows, showTime))
  }

  // ----- the reader -----

  /**
   * One character at a time. A field is at its start, bare, inside quotes, or just
   * past a quote that either closed the field or begins an escaped quote.
   */
  datatype Mode = AtStart | Bare | Quoted | QuoteSeen | Malformed

  datatype Reader = Reader(mode: Mode, field: string, fields: seq<string>, records: seq<seq<string>>)

  const BEGIN: Reader := Reader(AtStart, [], [], [])

  function EndField(r: Reader): Reader {
    Reader(AtStart, [], r.fields + [r.field], r.records)
  }

  function EndRecord(r: Reader): Reader {
    Reader(AtStart, [], [], r.records + [r.fields + [r.field]])
  }

  function Add(r: Reader, mode: Mode, c: char): Reader {
    r.(mode := mode, field := r.field + [c])
  }

  function Fail(r: Reader): Reader {
    r.(mode := Malformed)
  }

  /** Quotes may not appear in a bare field, nor anything but a separator after a closing quote. */
  function Consume(r: Reader, c: char): Reader {
    match r.mode
    case AtStart =>
      if c == QUOTE then r.(mode := Quoted)
      else if c == ',' then EndField(r)
      else if c == '\n' then EndRecord(r)
      else if c == '\r' then Fail(r)
      else Add(r, Bare, c)
    case Bare =>
      if c == QUOTE || c == '\r' then Fail(r)
      else if c == ',' then EndField(r)
      else if c == '\n' then EndRecord(r)
      else Add(r, Bare, c)
    case Quoted => if c == QUOTE then r.(mode := QuoteSeen) else Add(r, Quoted, c)
    case QuoteSeen =>
      if c == QUOTE then Add(r, Quoted, c)
      else if c == ',' then EndField(r)
      else if c == '\n' then EndRecord(r)
      else Fail(r)
    case Malformed => r
  }

  function ReadAll(r: Reader, s: string): Reader
    decreases s
  {
    if s == [] then r else ReadAll(Consume(r, s[0]), s[1..])
  }

  /** The records of a file, or None if it breaks a rule. */
  function Parse(s: string): Option<seq<seq<string>>> {
    var r := ReadAll(BEGIN, s);
    if r.mode == Malformed || r.mode == Quoted then None else Some(EndRecord(r).records)
  }

  // ----- the round trip -----

  lemma {:induction false} ReadConcat(r: Reader, a: string, b: string)
    ensures ReadAll(r, a + b) == ReadAll(ReadAll(r, a), b)
    decreases a
  {
    if a == [] {
      assert a + b == b;
    } else {
      assert (a + b)[1..] == a[1..] + b;
      ReadConcat(Consume(r, a[0]), a[1..], b);
    }
  }

  lemma ReadOne(r: Reader, c: char)
    ensures ReadAll(r, [c]) == Consume(r, c)
  {
    assert [c][1..] == [];
  }

  /** Inside quotes, the escaped text is read back as the text. */
  lemma {:induction false} ReadEscaped(r: Reader, s: string)
    requires r.mode == Quoted
    ensures ReadAll(r, DoubleQuotes(s)) == r.(field := r.field + s)
    decreases s
  {
    if s == [] {
      assert r.field + s == r.field;
    } else {
      var head := if s[0] == QUOTE then [QUOTE, QUOTE] else [s[0]];
      var next := r.(field := r.field + [s[0]]);
      if s[0] == QUOTE {
        assert [QUOTE, QUOTE] == [QUOTE] + [QUOTE];
        ReadConcat(r, [QUOTE], [QUOTE]);
        ReadOne(r, QUOTE);
        ReadOne(r.(mode := QuoteSeen), QUOTE);
      } else {
        ReadOne(r, s[0]);
      }
      ReadConcat(r, head, DoubleQuotes(s[1..]));
      ReadEscaped(next, s[1..]);
      assert next.field + s[1..] == r.field + s;
    }
  }

  lemma ReadCell(r: Reader, s: string)
    requires r.mode == AtStart && r.field == []
    ensures ReadAll(r, EscapeCell(s)) == r.(mode := QuoteSeen, field := s)
  {
    var open := r.(mode := Quoted);
    ReadOne(r, QUOTE);
    ReadConcat(r, [QUOTE] + DoubleQuotes(s), [QUOTE]);
    ReadConcat(r, [QUOTE], DoubleQuotes(s));
    ReadEscaped(open, s);
    assert open.field + s == s;
    ReadOne(open.(field := s), QUOTE);
  }

  /** The reader stands after the last of `cells` and would now take a separator. */
  predicate Holding(r: Reader, before: Reader, cells: seq<string>) {
    && (r.mode == QuoteSeen || r.mode == Bare)
    && r.records == before.records
    && r.fields + [r.field] == before.fields + cells
  }

  lemma {:induction false} ReadLine(r: Reader, cells: seq<string>)
    requires r.mode == AtStart && r.field == [] && cells != []
    ensures Holding(ReadAll(r, LineOf(cells)), r, cells)
    decreases |cells|
  {
    var n := |cells| - 1;
    if n == 0 {
      assert LineOf(cells) == EscapeCell(cells[0]);
      ReadCell(r, cells[0]);
      assert cells == [cells[0]];
    } else {
      var init := LineOf(cells[..n]);
      assert EscapeAll(cells)[..n] == EscapeAll(cells[..n]);
      assert LineOf(cells) == init + [','] + EscapeCell(cells[n]);
      ReadLine(r, cells[..n]);
      ReadConcat(r, init + [','], EscapeCell(cells[n]));
      ReadConcat(r, init, [',']);
      ReadOne(ReadAll(r, init), ',');
      ReadCell(EndField(ReadAll(r, init)), cells[n]);
      assert cells == cells[..n] + [cells[n]];
    }
  }

  /** A name that needs no quoting. */
  predicate Plain(s: string) {
    s != [] && forall i :: 0 <= i < |s| ==> s[i] != QUOTE && s[i] != ',' && s[i] != '\n' && s[i] != '\r'
  }

  lemma {:induction false} ReadBare(r: Reader, s: string)
    requires r.mode == Bare
    requires forall i :: 0 <= i < |s| ==> s[i] != QUOTE && s[i] != ',' && s[i] != '\n' && s[i] != '\r'
    ensures ReadAll(r, s) == r.(field := r.field + s)
    decreases s
  {
    if s == [] {
      assert r.field + s == r.field;
    } else {
      ReadBare(Add(r, Bare, s[0]), s[1..]);
      assert r.field + [s[0]] + s[1..] == r.field + s;
    }
  }

  lemma ReadPlain(r: Reader, s: string)
    requires r.mode == AtStart && r.field == [] && Plain(s)
    ensures ReadAll(r, s) == r.(mode := Bare, field := s)
  {
    ReadBare(Add(r, Bare, s[0]), s[1..]);
    assert [] + [s[0]] + s[1..] == s;
  }

  lemma {:induction false} ReadPlainLine(r: Reader, cells: seq<string>)
    requires r.mode == AtStart && r.field == [] && cells != []
    requires forall i :: 0 <= i < |cells| ==> Plain(cells[i])
    ensures Holding(ReadAll(r, Join(cells, ',')), r, cells)
    decreases |cells|
  {
    var n := |cells| - 1;
    if n == 0 {
      ReadPlain(r, cells[0]);
      assert cells == [cells[0]];
    } else {
      var init := Join(cells[..n], ',');
      ReadPlainLine(r, cells[..n]);
      ReadConcat(r, init + [','], cells[n]);
      ReadConcat(r, init, [',']);
      ReadOne(ReadAll(r, init), ',');
      ReadPlain(EndField(ReadAll(r, init)), cells[n]);
      assert cells == cells[..n] + [cells[n]];
    }
  }

  lemma HeaderIsPlain()
    ensures forall i :: 0 <= i < |COLUMNS| ==> Plain(COLUMNS[i])
  {
    forall i | 0 <= i < |COLUMNS| ensures Plain(COLUMNS[i]) {
      if i < 4 { FirstColumnsArePlain(i); } else if i < 8 { NextColumnsArePlain(i); } else { LastColumnsArePlain(i); }
    }
  }

  lemma FirstColumnsArePlain(i: nat)
    requires i < 4
    ensures Plain(COLUMNS[i])
  {
    assert Plain("donor_url") && Plain("acceptor") && Plain("status") && Plain("found");
  }

  lemma NextColumnsArePlain(i: nat)
    requires 4 <= i < 8
    ensures Plain(COLUMNS[i])
  {
    assert Plain("occurrences") && Plain("follow") && Plain("http_status") && Plain("indexable");
  }

  lemma LastColumnsArePlain(i: nat)
    requires 8 <= i < |COLUMNS|
    ensures Plain(COLUMNS[i])
  {
    assert Plain("canonical_match") && Plain("last_checked") && Plain("error");
  }

  /** A line end stores the record so far, and the line after it is held next. */
  lemma ReadNextLine(r: Reader, cells: seq<string>)
    requires (r.mode == QuoteSeen || r.mode == Bare) && cells != []
    ensures var next := ReadAll(r, ['\n'] + LineOf(cells));
      && (next.mode == QuoteSeen || next.mode == Bare)
      && EndRecord(next).records == EndRecord(r).records + [cells]
  {
    ReadConcat(r, ['\n'], LineOf(cells));
    ReadOne(r, '\n');
    ReadLine(EndRecord(r), cells);
    assert [] + cells == cells;
  }

  lemma FileGrows(header: seq<string>, table: seq<seq<string>>, cells: seq<string>)
    ensures FileOf(header, table + [cells]) == FileOf(header, table) + (['\n'] + LineOf(cells))
  {
    var lines := [Join(header, ',')] + LinesOf(table);
    var longer := [Join(header, ',')] + LinesOf(table + [cells]);
    assert longer == lines + [LineOf(cells)];
    assert longer[..|longer| - 1] == lines;
  }

  lemma ReadHeader(header: seq<string>)
    requires header != [] && forall i :: 0 <= i < |header| ==> Plain(header[i])
    ensures Holding(ReadAll(BEGIN, FileOf(header, [])), BEGIN, header)
  {
    var lines := [Join(header, ',')] + LinesOf([]);
    assert lines == [Join(header, ',')];
    ReadPlainLine(BEGIN, header);
  }

  /** At the end of the file the reader holds the last record and has stored the ones before. */
  lemma {:induction false} ReadFile(header: seq<string>, table: seq<seq<string>>)
    requires header != [] && forall i :: 0 <= i < |header| ==> Plain(header[i])
    requires forall i :: 0 <= i < |table| ==> table[i] != []
    ensures var r := ReadAll(BEGIN, FileOf(header, table));
      (r.mode == QuoteSeen || r.mode == Bare) && EndRecord(r).records == [header] + table
    decreases |table|
  {
    if table == [] {
      ReadHeader(header);
      assert BEGIN.fields + header == header;
      assert BEGIN.records + [header] == [header] + table;
    } else {
      var init, cells := table[..|table| - 1], table[|table| - 1];
      assert table == init + [cells];
      ReadFile(header, init);
      FileGrows(header, init, cells);
      ReadConcat(BEGIN, FileOf(header, init), ['\n'] + LineOf(cells));
      ReadNextLine(ReadAll(BEGIN, FileOf(header, init)), cells);
      assert [header] + init + [cells] == [header] + table;
    }
  }

  lemma FileRoundTrip(header: seq<string>, table: seq<seq<string>>)
    requires header != [] && forall i :: 0 <= i < |header| ==> Plain(header[i])
    requires forall i :: 0 <= i < |table| ==> table[i] != []
    ensures Parse(FileOf(header, table)) == Some([header] + table)
  {
    ReadFile(header, table);
  }

  /**
   * The round trip: a reader of RFC 4180 gets back exactly the header and the eleven
   * cells of every row, whatever the cells contain.
   */
  lemma CsvRoundTrip(rows: seq<Link>, showTime: int -> string)
    ensures Parse(LinksToCsv(rows, showTime)) == Some([COLUMNS] + CellTable(rows, showTime))
    ensures forall i :: 0 <= i < |rows| ==> CellTable(rows, showTime)[i] == CellsOf(rows[i], showTime)
  {
    HeaderIsPlain();
    FileRoundTrip(COLUMNS, CellTable(rows, showTime));
  }

  /** So the file determines the text of every cell: equal files come from equal cells. */
  lemma CsvIsInjective(a: seq<Link>, b: seq<Link>, showTime: int -> string)
    requires LinksToCsv(a, showTime) == LinksToCsv(b, showTime)
    ensures CellTable(a, showTime) == CellTable(b, showTime)
  {
    CsvRoundTrip(a, showTime);
    CsvRoundTrip(b, showTime);
    var x, y := CellTable(a, showTime), CellTable(b, showTime);
    assert ([COLUMNS] + x)[1..] == x && ([COLUMNS] + y)[1..] == y;
  }

  // ----- what the cells say -----

  /**
   * The cells can be read back by position: two rows with the same cells have the same
   * URLs, the same numbers, the same flags, the same follow kind and the same verdict,
   * which the label alone does not tell.
   */
  lemma CellsDetermineRow(a: Link, b: Link, showTime: int -> string)
    requires CellsOf(a, showTime) == CellsOf(b, showTime)
    ensures a.donorUrl == b.donorUrl && a.acceptorRaw == b.acceptorRaw
    ensures a.linkFound == b.linkFound && a.occurrencesCount == b.occurrencesCount
    ensures a.donorStatusCode == b.donorStatusCode && a.donorIndexable == b.donorIndexable
    ensures a.canonicalMatches == b.canonicalMatches
    ensures ComputeFollowKind(a) == ComputeFollowKind(b)
    ensures ComputeRowStatus(a) == ComputeRowStatus(b)
    ensures a.error.Some? && b.error.Some? ==> a.error == b.error
  {
    var x, y := CellsOf(a, showTime), CellsOf(b, showTime);
    assert x[0] == y[0] && x[1] == y[1] && x[2] == y[2] && x[10] == y[10];
    SameFlag(a.linkFound, b.linkFound, x[3], y[3]);
    SameNumber(Some(a.occurrencesCount), Some(b.occurrencesCount), x[4], y[4]);
    SameFollow(ComputeFollowKind(a), ComputeFollowKind(b), x[5], y[5]);
    SameNumber(a.donorStatusCode, b.donorStatusCode, x[6], y[6]);
    SameFlag(a.donorIndexable, b.donorIndexable, x[7], y[7]);
    SameFlag(a.canonicalMatches, b.canonicalMatches, x[8], y[8]);
    assert x[2] == y[2];
    SameVerdict(a, b);
  }

  lemma SameVerdict(a: Link, b: Link)
    requires RowStatusLabel(ComputeRowStatus(a)) == RowStatusLabel(ComputeRowStatus(b))
    requires a.canonicalMatches == b.canonicalMatches
    ensures ComputeRowStatus(a) == ComputeRowStatus(b)
  {
    LabelTells(ComputeRowStatus(a), ComputeRowStatus(b));
  }

  lemma LabelTells(p: Quality, q: Quality)
    requires RowStatusLabel(p) == RowStatusLabel(q)
    ensures p == q || {p, q} == {Green, Yellow}
  {
    assert |RowStatusLabel(Pending)| == |RowStatusLabel(Problem)| == 7;
    assert RowStatusLabel(Pending)[1] == 'e' && RowStatusLabel(Problem)[1] == 'r';
    assert |RowStatusLabel(Checking)| == 8 && |RowStatusLabel(Green)| == 4 && |RowStatusLabel(Failed)| == 5;
  }

  lemma SameFlag(a: Option<bool>, b: Option<bool>, x: string, y: string)
    requires x == YesNo(a) && y == YesNo(b) && x == y
    ensures a == b
  {
    assert |x| == (if a.None? then 0 else if a.value then 3 else 2);
    assert |y| == (if b.None? then 0 else if b.value then 3 else 2);
  }

  lemma SameFollow(a: Option<FollowKind>, b: Option<FollowKind>, x: string, y: string)
    requires x == ShowFollow(a) && y == ShowFollow(b) && x == y
    ensures a == b
  {
    assert a.Some? ==> x[0] == if a.value.Dofollow? then 'd' else 'n';
    assert b.Some? ==> y[0] == if b.value.Dofollow? then 'd' else 'n';
  }

  lemma SameNumber(a: Option<int>, b: Option<int>, x: string, y: string)
    requires x == (if a.Some? then ShowInt(a.value) else "") && y == (if b.Some? then ShowInt(b.value) else "")
    requires x == y
    ensures a == b
  {
    if a.Some? { IntReadsBack(a.value); }
    if b.Some? { IntReadsBack(b.value); }
  }

  /** Each cell of a record says about the row what the header above it promises. */
  ghost predicate SaysUnder(header: seq<string>, c: seq<string>, row: Link, showTime: int -> string) {
    && |header| == |c| == 11
    && header[0] == "donor_url" && header[1] == "acceptor" && header[2] == "status" && header[3] == "found"
    && header[4] == "occurrences" && header[5] == "follow" && header[6] == "http_status"
    && header[7] == "indexable" && header[8] == "canonical_match" && header[9] == "last_checked"
    && header[10] == "error"
    && Says(c, row, showTime)
  }

  ghost predicate Says(c: seq<string>, row: Link, showTime: int -> string)
    requires |c| == 11
  {
    && c[0] == row.donorUrl && c[1] == row.acceptorRaw && c[2] == RowStatusLabel(ComputeRowStatus(row))
    && SaysFlag(c[3], row.linkFound) && ReadInt(c[4]) == row.occurrencesCount
    && c[5] == (if OccurrencesOf(row) == [] then ""
                else if HasDofollow(OccurrencesOf(row)) then "dofollow" else "nofollow")
    && (row.donorStatusCode.None? <==> c[6] == "")
    && (row.donorStatusCode.Some? ==> ReadInt(c[6]) == row.donorStatusCode.value)
    && SaysFlag(c[7], row.donorIndexable) && SaysFlag(c[8], row.canonicalMatches)
    && c[9] == (if row.lastCheckedAt.Some? then showTime(row.lastCheckedAt.value) else "")
    && c[10] == (if row.error.Some? then row.error.value else "")
  }

  predicate SaysFlag(cell: string, flag: Option<bool>) {
    cell == if flag == Some(true) then "yes" else if flag == Some(false) then "no" else ""
  }

  lemma CellsSay(row: Link, showTime: int -> string)
    ensures Says(CellsOf(row, showTime), row, showTime)
  {
    IntReadsBack(row.occurrencesCount);
    if row.donorStatusCode.Some? { IntReadsBack(row.donorStatusCode.value); }
    SaysYesNo(row.linkFound);
    SaysYesNo(row.donorIndexable);
    SaysYesNo(row.canonicalMatches);
  }

  lemma CellsUnderHeaders(row: Link, showTime: int -> string)
    ensures SaysUnder(COLUMNS, CellsOf(row, showTime), row, showTime)
  {
    CellsSay(row, showTime);
  }

  lemma SaysYesNo(b: Option<bool>)
    ensures SaysFlag(YesNo(b), b)
  {
    if b.Some? { assert b.value || !b.value; }
  }

  // ----- the text of the file -----

  lemma JoinOneMore(parts: seq<string>, sep: char, x: string)
    requires parts != []
    ensures Join(parts + [x], sep) == Join(parts, sep) + [sep] + x
  {
    assert (parts + [x])[..|parts|] == parts;
  }

  /** Doubling the quotes doubles each one and leaves every other character. */
  lemma {:induction false} QuotesInPlainTerms(s: string, c: char)
    ensures DoubleQuotes("") == ""
    ensures DoubleQuotes(s + [c]) == DoubleQuotes(s) + if c == '"' then "\"\"" else [c]
    decreases s
  {
    if s == [] {
      assert s + [c] == [c];
      assert [c][1..] == [];
    } else {
      assert (s + [c])[1..] == s[1..] + [c];
      QuotesInPlainTerms(s[1..], c);
    }
  }

  lemma HeaderAlone(header: seq<string>)
    ensures FileOf(header, []) == Join(header, ',')
  {
    assert [Join(header, ',')] + LinesOf([]) == [Join(header, ',')];
  }

  /** The header bare, every cell in quotes, commas in between, and a line feed before every row. */
  lemma FileInPlainTerms(header: seq<string>, table: seq<seq<string>>, cells: seq<string>, s: string)
    ensures LineOf([]) == "" && LineOf([s]) == "\"" + DoubleQuotes(s) + "\""
    ensures cells != [] ==> LineOf(cells + [s]) == LineOf(cells) + "," + ("\"" + DoubleQuotes(s) + "\"")
    ensures FileOf(header, table + [cells]) == FileOf(header, table) + "\n" + LineOf(cells)
    ensures FileOf([s], []) == s
    ensures header != [] ==> FileOf(header + [s], []) == FileOf(header, []) + "," + s
  {
    assert EscapeAll([s]) == [EscapeCell(s)];
    assert EscapeAll(cells + [s]) == EscapeAll(cells) + [EscapeCell(s)];
    if cells != [] { JoinOneMore(EscapeAll(cells), ',', EscapeCell(s)); }
    FileGrows(header, table, cells);
    HeaderAlone(header);
    HeaderAlone([s]);
    HeaderAlone(header + [s]);
    if header != [] { JoinOneMore(header, ',', s); }
  }

  /**
   * End to end: in the file a reader gets back, record `i + 1` says about row `i` what
   * record 0 promises, column by column.
   */
  lemma ExportSaysItsRows(rows: seq<Link>, showTime: int -> string, i: nat)
    requires i < |rows|
    ensures var file := Parse(LinksToCsv(rows, showTime));
      && file.Some? && |file.value| == |rows| + 1
      && SaysUnder(file.value[0], file.value[i + 1], rows[i], showTime)
  {
    CsvRoundTrip(rows, showTime);
    CellsUnderHeaders(rows[i], showTime);
  }
}
