/**
 * The spreadsheet as the worker reads it: rows by number, each judged, and the batch
 * of links they stand for (apps/worker/src/modules/sheets/sheets-client.service.ts and
 * the first half of apps/worker/src/modules/sheets/sheets-task.service.ts).
 */
module SheetRows {
  import opened Options
  import opened Texts

  // ----- the grid -----

  datatype CellValue = Text(s: string) | Number(n: int)

  /** The cell at every zero-based row and column; an empty cell holds the empty text. */
  type Grid = (int, int) -> CellValue

  function TextOf(v: CellValue): string {
    match v
    case Text(s) => s
    case Number(n) => ShowInt(n)
  }

  // ----- the task -----

  /** Where a task finds and puts things: columns by zero-based index, rows by their number on the sheet. */
  datatype Layout = Layout(donorCol: nat, acceptorCol: nat, resultCol: nat, headerRow: nat, dataStartRow: nat)

  // ----- reading rows -----

  datatype SheetRow = SheetRow(rowNumber: nat, donorUrl: string, acceptor: string)

  /** String(cell ?? '').trim() */
  function CellText(g: Grid, r: int, c: int): string {
    Trim(TextOf(g(r, c)))
  }

  function RowAt(g: Grid, t: Layout, i: nat): SheetRow {
    SheetRow(t.dataStartRow + i,
             CellText(g, t.dataStartRow - 1 + i, t.donorCol), CellText(g, t.dataStartRow - 1 + i, t.acceptorCol))
  }

  /** The first `n` data rows, empty ones too. */
  function DataRows(g: Grid, t: Layout, n: nat): (rows: seq<SheetRow>)
    ensures |rows| == n
  {
    seq(n, i requires 0 <= i < n => RowAt(g, t, i))
  }

  predicate IsEmptyRow(row: SheetRow) {
    row.donorUrl == "" && row.acceptor == ""
  }

  predicate IsFilledRow(row: SheetRow) {
    row.donorUrl != "" && row.acceptor != ""
  }

  /** The rows with a donor or an acceptor. */
  function NonEmpty(rows: seq<SheetRow>): seq<SheetRow> {
    if rows == [] then []
    else
      var row := rows[|rows| - 1];
      NonEmpty(rows[..|rows| - 1]) + if IsEmptyRow(row) then [] else [row]
  }

  lemma NonEmptyOneMore(rows: seq<SheetRow>, row: SheetRow)
    ensures NonEmpty(rows + [row]) == NonEmpty(rows) + if IsEmptyRow(row) then [] else [row]
  {
    assert (rows + [row])[..|rows|] == rows;
  }

  lemma ReadOneMore(g: Grid, t: Layout, n: nat)
    ensures NonEmpty(DataRows(g, t, n + 1))
         == NonEmpty(DataRows(g, t, n)) + if IsEmptyRow(RowAt(g, t, n)) then [] else [RowAt(g, t, n)]
  {
    assert DataRows(g, t, n + 1) == DataRows(g, t, n) + [RowAt(g, t, n)];
    NonEmptyOneMore(DataRows(g, t, n), RowAt(g, t, n));
  }

  // ----- judging rows -----

  /** The URL parser, as the service sees it. */
  datatype Urls = Urls(isValidDonor: string -> bool, acceptorHost: string -> Reading<string>)

  datatype NormalizedRow = NormalizedRow(
    donorUrl: string, acceptor: string, acceptorHost: Option<string>, errors: seq<string>)

  function DonorErrors(u: Urls, donorUrl: string): seq<string> {
    if donorUrl == "" then ["donor empty"]
    else if !u.isValidDonor(donorUrl) then ["donor not a valid URL"]
    else []
  }

  function AcceptorErrors(u: Urls, acceptor: string): seq<string> {
    if acceptor == "" then ["acceptor empty"]
    else match u.acceptorHost(acceptor)
         case Read(_) => []
         case Unreadable(message) => ["acceptor invalid: " + message]
  }

  function HostOf(u: Urls, acceptor: string): Option<string> {
    if acceptor != "" && u.acceptorHost(acceptor).Read? then Some(u.acceptorHost(acceptor).value) else None
  }

  function NormalizeRow(u: Urls, row: SheetRow): NormalizedRow {
    var donorUrl, acceptor := Trim(row.donorUrl), Trim(row.acceptor);
    NormalizedRow(donorUrl, acceptor, HostOf(u, acceptor), DonorErrors(u, donorUrl) + AcceptorErrors(u, acceptor))
  }

  /**
   * What a row is judged to be: its trimmed fields, the host if it can be read, and in this
   * order what is wrong with the donor and what is wrong with the acceptor.
   */
  lemma JudgementInPlainTerms(u: Urls, row: SheetRow)
    ensures var norm, donor, acceptor := NormalizeRow(u, row), Trim(row.donorUrl), Trim(row.acceptor);
      && norm.donorUrl == donor && norm.acceptor == acceptor
      && norm.acceptorHost == (if acceptor != "" && u.acceptorHost(acceptor).Read?
           then Some(u.acceptorHost(acceptor).value) else None)
      && norm.errors == (if donor == "" then ["donor empty"]
                         else if u.isValidDonor(donor) then [] else ["donor not a valid URL"])
           + (if acceptor == "" then ["acceptor empty"]
              else if u.acceptorHost(acceptor).Read? then []
              else ["acceptor invalid: " + u.acceptorHost(acceptor).message])
  {
  }

  datatype ValidRow = ValidRow(norm: NormalizedRow, sheetRow: SheetRow)

  /** How rows are judged, given a URL parser. */
  type Judge = SheetRow -> NormalizedRow

  function JudgeBy(u: Urls): Judge {
    row => NormalizeRow(u, row)
  }

  /** Both fields filled, well formed or not: the row becomes a link. */
  predicate BecomesLink(norm: NormalizedRow) {
    norm.donorUrl != "" && norm.acceptor != ""
  }

  function ValidRows(judge: Judge, rows: seq<SheetRow>): seq<ValidRow> {
    if rows == [] then []
    else
      var row := rows[|rows| - 1];
      ValidRows(judge, rows[..|rows| - 1]) + if BecomesLink(judge(row)) then [ValidRow(judge(row), row)] else []
  }

  /** The batch of links that a list of data rows stands for. */
  function Batch(judge: Judge, rows: seq<SheetRow>): seq<ValidRow> {
    ValidRows(judge, NonEmpty(rows))
  }

  // ----- which rows are in the batch -----

  /** A judge that takes the two fields as they are. */
  predicate TakesVerbatim(judge: Judge, row: SheetRow) {
    judge(row).donorUrl == row.donorUrl && judge(row).acceptor == row.acceptor
  }

  ghost predicate JudgesFairly(judge: Judge, rows: seq<SheetRow>) {
    forall i :: 0 <= i < |rows| ==> TakesVerbatim(judge, rows[i])
  }

  /** Rows come from the sheet already trimmed, so judging them trims nothing away. */
  lemma SheetRowIsTakenVerbatim(u: Urls, g: Grid, t: Layout, i: nat)
    ensures TakesVerbatim(JudgeBy(u), RowAt(g, t, i))
  {
    TrimIsIdempotent(TextOf(g(t.dataStartRow - 1 + i, t.donorCol)));
    TrimIsIdempotent(TextOf(g(t.dataStartRow - 1 + i, t.acceptorCol)));
  }

  lemma SheetIsJudgedFairly(u: Urls, g: Grid, t: Layout, height: nat)
    ensures JudgesFairly(JudgeBy(u), DataRows(g, t, height))
  {
    var rows := DataRows(g, t, height);
    forall i | 0 <= i < height ensures TakesVerbatim(JudgeBy(u), rows[i]) {
      SheetRowIsTakenVerbatim(u, g, t, i);
    }
  }

  predicate Numbered(rows: seq<SheetRow>, first: nat) {
    forall i :: 0 <= i < |rows| ==> rows[i].rowNumber == first + i
  }

  /** An entry of the batch is a filled row, judged, and its number says which. */
  predicate IsEntry(v: ValidRow, judge: Judge, rows: seq<SheetRow>, first: nat) {
    var i := v.sheetRow.rowNumber - first;
    0 <= i < |rows| && IsFilledRow(rows[i]) && v == ValidRow(judge(rows[i]), rows[i])
  }

  lemma ValidRowsOneMore(judge: Judge, rows: seq<SheetRow>, row: SheetRow)
    ensures ValidRows(judge, rows + [row])
         == ValidRows(judge, rows) + if BecomesLink(judge(row)) then [ValidRow(judge(row), row)] else []
  {
    assert (rows + [row])[..|rows|] == rows;
  }

  /** One more data row adds one entry exactly if the row is filled. */
  lemma BatchOneMore(judge: Judge, rows: seq<SheetRow>, row: SheetRow)
    requires BecomesLink(judge(row)) <==> IsFilledRow(row)
    ensures Batch(judge, rows + [row])
         == Batch(judge, rows) + if IsFilledRow(row) then [ValidRow(judge(row), row)] else []
  {
    NonEmptyOneMore(rows, row);
    if IsEmptyRow(row) {
      assert NonEmpty(rows) + [] == NonEmpty(rows);
    } else {
      ValidRowsOneMore(judge, NonEmpty(rows), row);
    }
  }

  /** The batch takes filled rows only, each as it stands on the sheet. */
  lemma {:induction false} EntryIsAFilledRow(judge: Judge, rows: seq<SheetRow>, first: nat, k: nat)
    requires JudgesFairly(judge, rows) && Numbered(rows, first) && k < |Batch(judge, rows)|
    ensures IsEntry(Batch(judge, rows)[k], judge, rows, first)
  {
    var init, last := rows[..|rows| - 1], rows[|rows| - 1];
    assert rows == init + [last];
    BatchOneMore(judge, init, last);
    if k < |Batch(judge, init)| {
      EntryIsAFilledRow(judge, init, first, k);
      assert Batch(judge, rows)[k] == Batch(judge, init)[k];
    }
  }

  /** It keeps the order of the sheet. */
  lemma {:induction false} BatchAscends(judge: Judge, rows: seq<SheetRow>, first: nat, j: nat, k: nat)
    requires JudgesFairly(judge, rows) && Numbered(rows, first) && j < k < |Batch(judge, rows)|
    ensures Batch(judge, rows)[j].sheetRow.rowNumber < Batch(judge, rows)[k].sheetRow.rowNumber
  {
    var init, last := rows[..|rows| - 1], rows[|rows| - 1];
    assert rows == init + [last];
    BatchOneMore(judge, init, last);
    if k < |Batch(judge, init)| {
      BatchAscends(judge, init, first, j, k);
    } else {
      EntryIsAFilledRow(judge, init, first, j);
    }
  }

  /** The batch leaves no filled row out: row `i` is at place `k`. */
  lemma {:induction false} FilledRowIsTaken(judge: Judge, rows: seq<SheetRow>, i: nat) returns (k: nat)
    requires JudgesFairly(judge, rows) && i < |rows| && IsFilledRow(rows[i])
    ensures k < |Batch(judge, rows)| && Batch(judge, rows)[k] == ValidRow(judge(rows[i]), rows[i])
  {
    var init, last := rows[..|rows| - 1], rows[|rows| - 1];
    assert rows == init + [last];
    BatchOneMore(judge, init, last);
    if i < |init| { k := FilledRowIsTaken(judge, init, i); } else { k := |Batch(judge, init)|; }
  }

  // ----- rows in terms of the cells -----

  /** The trimmed text of the cell in row `n` of the sheet, rows counted from 1; a number as its numeral. */
  function CellOf(g: Grid, n: int, col: int): string {
    match g(n - 1, col)
    case Text(s) => Trim(s)
    case Number(i) => Trim(ShowInt(i))
  }

  /** A row as read stands at its own number: its fields are the texts of the two cells there. */
  lemma RowInPlainTerms(g: Grid, t: Layout, n: nat)
    requires t.dataStartRow <= n
    ensures RowAt(g, t, n - t.dataStartRow)
         == SheetRow(n, CellOf(g, n, t.donorCol), CellOf(g, n, t.acceptorCol))
  {
    var i := n - t.dataStartRow;
    assert t.dataStartRow - 1 + i == n - 1;
  }

  /** The row of the sheet that a read row stands for, if it has any text. */
  predicate StandsAt(g: Grid, t: Layout, row: SheetRow, lastRow: int) {
    && t.dataStartRow <= row.rowNumber <= lastRow
    && row.donorUrl == CellOf(g, row.rowNumber, t.donorCol) && row.acceptor == CellOf(g, row.rowNumber, t.acceptorCol)
    && (row.donorUrl != "" || row.acceptor != "")
  }

  /** A row that is kept is the row its number names, and has text. */
  predicate KeptFrom(rows: seq<SheetRow>, first: nat, row: SheetRow) {
    first <= row.rowNumber < first + |rows| && row == rows[row.rowNumber - first] && !IsEmptyRow(row)
  }

  lemma {:induction false} KeptRowsAreRows(rows: seq<SheetRow>, first: nat, k: nat)
    requires Numbered(rows, first) && k < |NonEmpty(rows)|
    ensures KeptFrom(rows, first, NonEmpty(rows)[k])
  {
    var n := |rows| - 1;
    if k < |NonEmpty(rows[..n])| { KeptRowsAreRows(rows[..n], first, k); }
  }

  lemma {:induction false} KeptRowsAscend(rows: seq<SheetRow>, first: nat, j: nat, k: nat)
    requires Numbered(rows, first) && j < k < |NonEmpty(rows)|
    ensures NonEmpty(rows)[j].rowNumber < NonEmpty(rows)[k].rowNumber
  {
    var n := |rows| - 1;
    if k < |NonEmpty(rows[..n])| {
      KeptRowsAscend(rows[..n], first, j, k);
    } else {
      KeptRowsAreRows(rows[..n], first, j);
    }
  }

  lemma {:induction false} RowsWithTextAreKept(rows: seq<SheetRow>, i: nat) returns (k: nat)
    requires i < |rows| && !IsEmptyRow(rows[i])
    ensures k < |NonEmpty(rows)| && NonEmpty(rows)[k] == rows[i]
  {
    var n := |rows| - 1;
    if i < n { k := RowsWithTextAreKept(rows[..n], i); } else { k := |NonEmpty(rows[..n])|; }
  }

  lemma RowStands(g: Grid, t: Layout, row: SheetRow, lastRow: int)
    requires t.dataStartRow <= row.rowNumber <= lastRow && !IsEmptyRow(row)
    requires row.donorUrl == CellOf(g, row.rowNumber, t.donorCol)
    requires row.acceptor == CellOf(g, row.rowNumber, t.acceptorCol)
    ensures StandsAt(g, t, row, lastRow)
  {
  }

  lemma ReadRowStands(g: Grid, t: Layout, n: nat, k: nat)
    requires k < |NonEmpty(DataRows(g, t, n))|
    ensures StandsAt(g, t, NonEmpty(DataRows(g, t, n))[k], t.dataStartRow + n - 1)
  {
    var rows, row := DataRows(g, t, n), NonEmpty(DataRows(g, t, n))[k];
    KeptRowsAreRows(rows, t.dataStartRow, k);
    var i: nat := row.rowNumber - t.dataStartRow;
    assert row == rows[i] == RowAt(g, t, i);
    RowInPlainTerms(g, t, row.rowNumber);
    RowStands(g, t, row, t.dataStartRow + n - 1);
  }

  lemma TextIsListed(g: Grid, t: Layout, n: nat, m: nat)
    requires t.dataStartRow <= m < t.dataStartRow + n && HasText(g, t, m)
    ensures IsListed(NonEmpty(DataRows(g, t, n)), m)
  {
    var i := m - t.dataStartRow;
    RowInPlainTerms(g, t, m);
    assert DataRows(g, t, n)[i] == RowAt(g, t, i);
    var k := RowsWithTextAreKept(DataRows(g, t, n), i);
    assert NonEmpty(DataRows(g, t, n))[k].rowNumber == m;
  }

  /**
   * Reading the first `n` data rows gives, in order, exactly the rows of the sheet with
   * text in either column, each with its own number and its own texts.
   */
  lemma ReadingIsExact(g: Grid, t: Layout, n: nat)
    ensures var rows := NonEmpty(DataRows(g, t, n));
      && (forall k :: 0 <= k < |rows| ==> StandsAt(g, t, rows[k], t.dataStartRow + n - 1))
      && (forall j, k :: 0 <= j < k < |rows| ==> rows[j].rowNumber < rows[k].rowNumber)
      && (forall m :: t.dataStartRow <= m < t.dataStartRow + n && HasText(g, t, m) ==> IsListed(rows, m))
  {
    var all, rows := DataRows(g, t, n), NonEmpty(DataRows(g, t, n));
    forall k | 0 <= k < |rows| ensures StandsAt(g, t, rows[k], t.dataStartRow + n - 1) {
      ReadRowStands(g, t, n, k);
    }
    forall j, k | 0 <= j < k < |rows| ensures rows[j].rowNumber < rows[k].rowNumber {
      KeptRowsAscend(all, t.dataStartRow, j, k);
    }
    forall m | t.dataStartRow <= m < t.dataStartRow + n && HasText(g, t, m) ensures IsListed(rows, m) {
      TextIsListed(g, t, n, m);
    }
  }

  predicate HasText(g: Grid, t: Layout, n: int) {
    CellOf(g, n, t.donorCol) != "" || CellOf(g, n, t.acceptorCol) != ""
  }

  predicate IsListed(rows: seq<SheetRow>, n: int) {
    exists k :: 0 <= k < |rows| && rows[k].rowNumber == n
  }

  // ----- the loops that do it -----

  method Normalize(u: Urls, row: SheetRow) returns (norm: NormalizedRow)
    ensures norm == NormalizeRow(u, row)
  {
    var errors: seq<string> := [];
    var donorUrl, acceptor := Trim(row.donorUrl), Trim(row.acceptor);
    if donorUrl == "" {
      errors := errors + ["donor empty"];
    } else if !u.isValidDonor(donorUrl) {
      errors := errors + ["donor not a valid URL"];
    }
    var acceptorHost: Option<string> := None;
    if acceptor == "" {
      errors := errors + ["acceptor empty"];
    } else {
      match u.acceptorHost(acceptor)
      case Read(host) => acceptorHost := Some(host);
      case Unreadable(message) => errors := errors + ["acceptor invalid: " + message];
    }
    return NormalizedRow(donorUrl, acceptor, acceptorHost, errors);
  }

  method KeepValidRows(u: Urls, rows: seq<SheetRow>) returns (validRows: seq<ValidRow>)
    ensures validRows == ValidRows(JudgeBy(u), rows)
  {
    validRows := [];
    for i := 0 to |rows|
      invariant validRows == ValidRows(JudgeBy(u), rows[..i])
    {
      assert rows[..i + 1] == rows[..i] + [rows[i]];
      ValidRowsOneMore(JudgeBy(u), rows[..i], rows[i]);
      var norm := Normalize(u, rows[i]);
      if norm.donorUrl == "" || norm.acceptor == "" { continue; }
      validRows := validRows + [ValidRow(norm, rows[i])];
    }
    assert rows[..|rows|] == rows;
  }

  predicate InBlock(r: int, c: int, row0: int, col0: int, height: nat, width: nat) {
    row0 <= r < row0 + height && col0 <= c < col0 + width
  }

  class SheetsClient {
    var grid: Grid
    const rowCount: nat

    constructor (grid: Grid, rowCount: nat)
      ensures this.grid == grid && this.rowCount == rowCount
    {
      this.grid, this.rowCount := grid, rowCount;
    }

    /** Data rows reach from the first data row to the end of the sheet. */
    function Height(t: Layout): nat {
      if t.dataStartRow <= rowCount then rowCount - t.dataStartRow + 1 else 0
    }

    method ReadRow(t: Layout, i: nat) returns (row: SheetRow)
      ensures row == RowAt(grid, t, i)
    {
      var donorUrl := CellText(grid, t.dataStartRow - 1 + i, t.donorCol);
      var acceptor := CellText(grid, t.dataStartRow - 1 + i, t.acceptorCol);
      return SheetRow(t.dataStartRow + i, donorUrl, acceptor);
    }

    method ReadDonorRows(t: Layout) returns (rows: seq<SheetRow>)
      ensures rows == NonEmpty(DataRows(grid, t, Height(t)))
      ensures forall k :: 0 <= k < |rows| ==> StandsAt(grid, t, rows[k], rowCount)
      ensures forall j, k :: 0 <= j < k < |rows| ==> rows[j].rowNumber < rows[k].rowNumber
      ensures forall m :: t.dataStartRow <= m <= rowCount && HasText(grid, t, m) ==> IsListed(rows, m)
    {
      ReadingIsExact(grid, t, Height(t));
      rows := [];
      for i := 0 to Height(t)
        invariant rows == NonEmpty(DataRows(grid, t, i))
      {
        ReadOneMore(grid, t, i);
        var row := ReadRow(t, i);
        if row.donorUrl == "" && row.acceptor == "" { continue; }
        rows := rows + [row];
      }
    }

    /** A block of rows of equal width, placed at (row0, col0); nothing else changes. */
    method WriteFormattedBlock(row0: int, col0: int, cells: seq<seq<CellValue>>, width: nat)
      requires forall i :: 0 <= i < |cells| ==> |cells[i]| == width
      modifies this
      ensures forall r, c :: InBlock(r, c, row0, col0, |cells|, width) ==> grid(r, c) == cells[r - row0][c - col0]
      ensures forall r, c :: !InBlock(r, c, row0, col0, |cells|, width) ==> grid(r, c) == old(grid)(r, c)
    {
      if |cells| == 0 { return; }
      var before := grid;
      grid := (r: int, c: int) =>
        if InBlock(r, c, row0, col0, |cells|, width) then cells[r - row0][c - col0] else before(r, c);
    }
  }
}
