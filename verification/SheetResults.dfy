/**
 * The result block a sheets run writes back (second half of
 * apps/worker/src/modules/sheets/sheets-task.service.ts): one cell row per link, at the
 * row the link came from, blanks in between, and the header.
 */
module SheetResults {
  import opened Options
  import opened LinkRows
  import opened RowStatus
  import opened SheetRows

  // ----- the cells of one link -----

  const RESULT_HEADERS: seq<string> := ["Status", "HTTP", "Found", "Indexable", "Canonical match", "Last checked"]
  const RESULT_WIDTH: nat := 6

  function DeriveCanonicalCell(l: Link): string {
    if l.donorCanonical.None? then "not found"
    else if l.canonicalMatches == Some(true) then "match" else "differs"
  }

  function IndexableCell(l: Link): string {
    match l.donorIndexable
    case None => ""
    case Some(true) => "yes"
    case Some(false) => "no"
  }

  /** Prints a time in the local format of the sheet. */
  type Stamp = int -> string

  function ResultCells(l: Link, stamp: Stamp): (cells: seq<CellValue>)
    ensures |cells| == RESULT_WIDTH
  {
    [Text(DeriveLabel(l)),
     if l.donorStatusCode.Some? then Number(l.donorStatusCode.value) else Text(""),
     Text(DeriveFoundCell(l)),
     Text(IndexableCell(l)),
     Text(DeriveCanonicalCell(l)),
     Text(if l.lastCheckedAt.Some? then stamp(l.lastCheckedAt.value) else "")]
  }

  /** Each cell says about the link what the title above it promises; the status is the one the table shows. */
  ghost predicate SaysUnder(titles: seq<CellValue>, c: seq<CellValue>, l: Link, stamp: Stamp) {
    && |titles| == |c| == 6
    && titles[0] == Text("Status") && c[0] == Text(SheetLabelOfQuality(ComputeRowStatus(l)))
    && titles[1] == Text("HTTP")
    && c[1] == (if l.donorStatusCode.Some? then Number(l.donorStatusCode.value) else Text(""))
    && titles[2] == Text("Found")
    && c[2] == Text(if l.linkFound != Some(true) then "no"
                    else if HasDofollow(OccurrencesOf(l)) then "dofollow" else "nofollow")
    && titles[3] == Text("Indexable")
    && c[3] == Text(if l.donorIndexable == Some(true) then "yes" else if l.donorIndexable.Some? then "no" else "")
    && titles[4] == Text("Canonical match")
    && c[4] == Text(if l.donorCanonical.None? then "not found"
                    else if l.canonicalMatches == Some(true) then "match" else "differs")
    && titles[5] == Text("Last checked")
    && c[5] == Text(if l.lastCheckedAt.Some? then stamp(l.lastCheckedAt.value) else "")
  }

  lemma CellsUnderTitles(l: Link, stamp: Stamp)
    ensures SaysUnder(HeaderCells(), ResultCells(l, stamp), l, stamp)
  {
    VerdictsAgree(l);
  }

  /** The canonical cell: none on the page, or one that matches, or one that does not. */
  function CanonicalKind(l: Link): Option<bool> {
    if l.donorCanonical.None? then None else Some(l.canonicalMatches == Some(true))
  }

  /**
   * Two links have the same six cells exactly when the table gives them the same verdict
   * and they agree in status code, follow kind, indexability, canonical and printed time.
   */
  lemma SameCellsIff(a: Link, b: Link, stamp: Stamp)
    ensures ResultCells(a, stamp) == ResultCells(b, stamp) <==>
      && ComputeRowStatus(a) == ComputeRowStatus(b) && a.donorStatusCode == b.donorStatusCode
      && CountedFollow(a) == CountedFollow(b) && a.donorIndexable == b.donorIndexable
      && CanonicalKind(a) == CanonicalKind(b) && ResultCells(a, stamp)[5] == ResultCells(b, stamp)[5]
  {
    var x, y := ResultCells(a, stamp), ResultCells(b, stamp);
    VerdictsAgree(a);
    VerdictsAgree(b);
    LabelTells(ComputeRowStatus(a), ComputeRowStatus(b));
    KindTells(CountedFollow(a), CountedFollow(b));
    assert |IndexableCell(a)| == (if a.donorIndexable.None? then 0 else if a.donorIndexable.value then 3 else 2);
    assert |IndexableCell(b)| == (if b.donorIndexable.None? then 0 else if b.donorIndexable.value then 3 else 2);
    assert |"not found"| == 9 && |"match"| == 5 && |"differs"| == 7;
    assert x == y <==> x[0] == y[0] && x[1] == y[1] && x[2] == y[2] && x[3] == y[3] && x[4] == y[4] && x[5] == y[5];
  }

  lemma LabelTells(p: Quality, q: Quality)
    ensures SheetLabelOfQuality(p) == SheetLabelOfQuality(q) <==> p == q
  {
    assert |SheetLabelOfQuality(Pending)| == |SheetLabelOfQuality(Problem)| == 7;
    assert SheetLabelOfQuality(Pending)[1] == 'e' && SheetLabelOfQuality(Problem)[1] == 'r';
    assert |SheetLabelOfQuality(Checking)| == 8 && |SheetLabelOfQuality(Failed)| == 5;
    assert |SheetLabelOfQuality(Green)| == 4 && |SheetLabelOfQuality(Yellow)| == 25;
  }

  lemma KindTells(p: Option<FollowKind>, q: Option<FollowKind>)
    ensures CellOfKind(p) == CellOfKind(q) <==> p == q
  {
    assert |CellOfKind(None)| == 2 && CellOfKind(Some(Dofollow))[0] == 'd' && CellOfKind(Some(Nofollow))[0] == 'n';
    assert |CellOfKind(Some(Nofollow))| == 8;
  }

  function BlankCells(): (cells: seq<CellValue>)
    ensures |cells| == RESULT_WIDTH
  {
    seq(RESULT_WIDTH, _ => Text(""))
  }

  function HeaderCells(): (cells: seq<CellValue>)
    ensures |cells| == RESULT_WIDTH
  {
    seq(RESULT_WIDTH, i requires 0 <= i < RESULT_WIDTH => Text(RESULT_HEADERS[i]))
  }

  // ----- what every cell of the sheet holds afterwards -----

  /** A fetched row: its id and its columns. */
  type Fetched = (LinkId, Link)

  function RowNumberOf(rowOf: map<LinkId, SheetRow>, id: LinkId): int {
    if id in rowOf then rowOf[id].rowNumber else -1
  }

  function Numbers(links: seq<Fetched>, rowOf: map<LinkId, SheetRow>): (numbers: seq<int>)
    ensures |numbers| == |links|
  {
    seq(|links|, i requires 0 <= i < |links| => RowNumberOf(rowOf, links[i].0))
  }

  /** Array.prototype.find, by position; the length if there is none. */
  function FirstAt(numbers: seq<int>, n: int): (k: nat)
    ensures k <= |numbers|
    ensures k < |numbers| ==> numbers[k] == n
    ensures forall i :: 0 <= i < k ==> numbers[i] != n
  {
    if numbers == [] then 0 else if numbers[0] == n then 0 else 1 + FirstAt(numbers[1..], n)
  }

  predicate InResults(t: Layout, col: int) {
    t.resultCol <= col < t.resultCol + RESULT_WIDTH
  }

  /** Some link has a row on the sheet. */
  predicate AnyRow(numbers: seq<int>) {
    exists a :: a in numbers && 0 < a
  }

  /** Row `n` lies between two rows that links came from. */
  predicate Spans(numbers: seq<int>, n: int) {
    exists a, b :: a in numbers && b in numbers && 0 < a <= n <= b
  }

  function RowCells(links: seq<Fetched>, numbers: seq<int>, stamp: Stamp, n: int): (cells: seq<CellValue>)
    requires |numbers| == |links|
    ensures |cells| == RESULT_WIDTH
  {
    var k := FirstAt(numbers, n);
    if k < |numbers| then ResultCells(links[k].1, stamp) else BlankCells()
  }

  /** The cell at zero-based (r, c) once the block of data rows is written over `before`. */
  function DataCell(t: Layout, links: seq<Fetched>, numbers: seq<int>, stamp: Stamp, before: Grid,
                    r: int, c: int): CellValue
    requires |numbers| == |links|
  {
    if InResults(t, c) && Spans(numbers, r + 1) then RowCells(links, numbers, stamp, r + 1)[c - t.resultCol]
    else before(r, c)
  }

  predicate InHeader(t: Layout, r: int, c: int) {
    InResults(t, c) && 0 < t.headerRow && r == t.headerRow - 1
  }

  /** And once the header is written too; without any row on the sheet there is no header either. */
  function WrittenCell(t: Layout, links: seq<Fetched>, numbers: seq<int>, stamp: Stamp, before: Grid,
                       r: int, c: int): CellValue
    requires |numbers| == |links|
  {
    if AnyRow(numbers) && InHeader(t, r, c) then HeaderCells()[c - t.resultCol]
    else DataCell(t, links, numbers, stamp, before, r, c)
  }

  ghost predicate SourceKept(t: Layout, before: Grid, after: Grid) {
    forall r, c :: !InResults(t, c) ==> after(r, c) == before(r, c)
  }

  // ----- the loops that do it -----

  /** The row numbers that exist, in link order. */
  method PresentRows(links: seq<Fetched>, rowOf: map<LinkId, SheetRow>) returns (present: seq<int>)
    ensures forall a :: a in present <==> a in Numbers(links, rowOf) && 0 < a
  {
    present := [];
    ghost var numbers := Numbers(links, rowOf);
    for i := 0 to |links|
      invariant forall a :: a in present <==> a in numbers[..i] && 0 < a
    {
      assert numbers[..i + 1] == numbers[..i] + [numbers[i]];
      var n: int := if links[i].0 in rowOf then rowOf[links[i].0].rowNumber else -1;
      if 0 < n { present := present + [n]; }
    }
    assert numbers[..|links|] == numbers;
  }

  method Bounds(present: seq<int>) returns (least: int, most: int)
    requires present != []
    ensures least in present && most in present
    ensures forall a :: a in present ==> least <= a <= most
  {
    least, most := present[0], present[0];
    for i := 1 to |present|
      invariant least in present && most in present
      invariant forall j :: 0 <= j < i ==> least <= present[j] <= most
    {
      if present[i] < least { least := present[i]; }
      if most < present[i] { most := present[i]; }
    }
  }

  method DataBlock(links: seq<Fetched>, rowOf: map<LinkId, SheetRow>, stamp: Stamp, minRow: int, maxRow: int)
    returns (cells: seq<seq<CellValue>>)
    requires minRow <= maxRow
    ensures |cells| == maxRow - minRow + 1
    ensures forall i :: 0 <= i < |cells| ==>
      cells[i] == RowCells(links, Numbers(links, rowOf), stamp, minRow + i)
  {
    cells := [];
    for r := minRow to maxRow + 1
      invariant |cells| == r - minRow
      invariant forall i :: 0 <= i < |cells| ==>
        cells[i] == RowCells(links, Numbers(links, rowOf), stamp, minRow + i)
    {
      var k := FirstAt(Numbers(links, rowOf), r);
      cells := cells + [if k < |links| then ResultCells(links[k].1, stamp) else BlankCells()];
    }
  }

  lemma SpansBetween(numbers: seq<int>, least: int, most: int, n: int)
    requires least in numbers && most in numbers && 0 < least
    requires forall a :: a in numbers && 0 < a ==> least <= a <= most
    ensures Spans(numbers, n) <==> least <= n <= most
  {
  }

  method WriteDataRows(sheet: SheetsClient, t: Layout, links: seq<Fetched>, rowOf: map<LinkId, SheetRow>,
                       stamp: Stamp, minRow: int, maxRow: int)
    requires minRow <= maxRow
    requires forall n :: Spans(Numbers(links, rowOf), n) <==> minRow <= n <= maxRow
    modifies sheet
    ensures forall r, c ::
      sheet.grid(r, c) == DataCell(t, links, Numbers(links, rowOf), stamp, old(sheet.grid), r, c)
  {
    var dataCells := DataBlock(links, rowOf, stamp, minRow, maxRow);
    sheet.WriteFormattedBlock(minRow - 1, t.resultCol, dataCells, RESULT_WIDTH);
  }

  /** Whether writing anything fails: nothing is written without a row on the sheet, and no header at row 0. */
  predicate WriteFails(t: Layout, numbers: seq<int>, dataFails: bool, headerFails: bool) {
    AnyRow(numbers) && (dataFails || (0 < t.headerRow && headerFails))
  }

  /** Either write may fail, and ends the write-back there: with nothing written, or all but the header. */
  method WriteResultsBack(sheet: SheetsClient, t: Layout, links: seq<Fetched>, rowOf: map<LinkId, SheetRow>,
                          stamp: Stamp, dataFails: bool, headerFails: bool)
    returns (ok: bool)
    modifies sheet
    ensures ok <==> !WriteFails(t, Numbers(links, rowOf), dataFails, headerFails)
    ensures ok ==> forall r, c ::
      sheet.grid(r, c) == WrittenCell(t, links, Numbers(links, rowOf), stamp, old(sheet.grid), r, c)
    ensures !ok ==> forall r, c :: sheet.grid(r, c) == if dataFails then old(sheet.grid)(r, c)
      else DataCell(t, links, Numbers(links, rowOf), stamp, old(sheet.grid), r, c)
    ensures SourceKept(t, old(sheet.grid), sheet.grid)
  {
    if |links| == 0 { return true; }
    ghost var numbers := Numbers(links, rowOf);
    var present := PresentRows(links, rowOf);
    if |present| == 0 {
      assert !AnyRow(numbers) by { assert forall a :: a in numbers && 0 < a ==> a in present; }
      return true;
    }
    var minRow, maxRow := Bounds(present);
    forall n ensures Spans(numbers, n) <==> minRow <= n <= maxRow {
      SpansBetween(numbers, minRow, maxRow, n);
    }
    assert AnyRow(numbers) by { assert minRow in numbers && 0 < minRow; }
    if dataFails { return false; }
    WriteDataRows(sheet, t, links, rowOf, stamp, minRow, maxRow);
    if 0 < t.headerRow {
      if headerFails { return false; }
      sheet.WriteFormattedBlock(t.headerRow - 1, t.resultCol, [HeaderCells()], RESULT_WIDTH);
    }
    return true;
  }
}
