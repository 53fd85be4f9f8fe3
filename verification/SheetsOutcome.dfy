/**
 * What a completed sheets run means on the sheet: whose result each row holds, what the
 * other cells hold, and what the next run will read.
 */
module SheetsOutcome {
  import opened Options
  import opened LinkRows
  import opened SingleLink
  import opened SheetRows
  import opened SheetResults
  import opened SheetsTask
  import CrawlResults

  /** A completed run over the data rows `rows` of a sheet, judged by `judge`. */
  ghost predicate Completes(project: ProjectId, t: Layout, w: Surroundings, p: SheetReport,
                            judge: Judge, rows: seq<SheetRow>)
  {
    && Numbered(rows, t.dataStartRow) && 1 <= t.dataStartRow && JudgesFairly(judge, rows)
    && p.batch == Batch(judge, rows)
    && RunResult(project, t, w, p)
  }

  /** Every run that reports COMPLETED is one. */
  lemma CompletedRunCompletes(project: ProjectId, t: Layout, w: Surroundings, p: SheetReport, height: nat)
    requires 1 <= t.dataStartRow && p.batch == Batch(JudgeBy(w.urls), DataRows(p.before, t, height))
    requires RunResult(project, t, w, p)
    ensures Completes(project, t, w, p, JudgeBy(w.urls), DataRows(p.before, t, height))
  {
    SheetIsJudgedFairly(w.urls, p.before, t, height);
  }

  // ----- places in the batch -----

  /** The k-th entry is a filled row, found in the batch at its own row number and nowhere else. */
  lemma EntryPlace(t: Layout, judge: Judge, rows: seq<SheetRow>, k: nat)
    requires Numbered(rows, t.dataStartRow) && JudgesFairly(judge, rows) && k < |Batch(judge, rows)|
    ensures IsEntry(Batch(judge, rows)[k], judge, rows, t.dataStartRow)
    ensures forall j :: 0 <= j < k ==> RowNumbers(Batch(judge, rows))[j] < RowNumbers(Batch(judge, rows))[k]
    ensures FirstAt(RowNumbers(Batch(judge, rows)), RowNumbers(Batch(judge, rows))[k]) == k
  {
    EntryIsAFilledRow(judge, rows, t.dataStartRow, k);
    forall j | 0 <= j < k ensures RowNumbers(Batch(judge, rows))[j] < RowNumbers(Batch(judge, rows))[k] {
      BatchAscends(judge, rows, t.dataStartRow, j, k);
    }
  }

  /** The row range the batch covers. */
  predicate Covers(numbers: seq<int>, n: int) {
    numbers != [] && numbers[0] <= n <= numbers[|numbers| - 1]
  }

  lemma AscendingSpans(numbers: seq<int>, n: int)
    requires forall j, k :: 0 <= j < k < |numbers| ==> numbers[j] < numbers[k]
    requires numbers != [] ==> 0 < numbers[0]
    ensures Spans(numbers, n) <==> Covers(numbers, n)
    ensures AnyRow(numbers) <==> numbers != []
  {
    if numbers != [] { assert numbers[0] in numbers && numbers[|numbers| - 1] in numbers; }
  }

  lemma SpansIsCovers(t: Layout, judge: Judge, rows: seq<SheetRow>, n: int)
    requires 1 <= t.dataStartRow && Numbered(rows, t.dataStartRow) && JudgesFairly(judge, rows)
    ensures var numbers := RowNumbers(Batch(judge, rows));
      && (Spans(numbers, n) <==> Covers(numbers, n)) && (AnyRow(numbers) <==> numbers != [])
      && (numbers != [] ==> t.dataStartRow <= numbers[0])
      && (forall k :: 0 <= k < |numbers| ==> Covers(numbers, numbers[k]))
  {
    var numbers := RowNumbers(Batch(judge, rows));
    forall k | 0 <= k < |numbers|
      ensures t.dataStartRow <= numbers[k] && forall j :: 0 <= j < k ==> numbers[j] < numbers[k]
    {
      EntryPlace(t, judge, rows, k);
    }
    AscendingSpans(numbers, n);
  }

  // ----- whose result -----

  /** The link of an entry: made from its row's donor and acceptor and the acceptor's host, and finished. */
  predicate IsLinkOf(project: ProjectId, v: ValidRow, link: Link) {
    && link.projectId == project && link.donorUrl == v.sheetRow.donorUrl && link.acceptorRaw == v.sheetRow.acceptor
    && (v.norm.acceptorHost.Some? ==> link.acceptorHost == v.norm.acceptorHost.value)
    && link.status in {DONE, ERROR} && link.lastCheckedAt.Some?
  }

  /** The link shows what checking the row's own donor and acceptor reported, or that they are malformed. */
  predicate ShowsItsCheck(v: ValidRow, link: Link, id: LinkId, crawl: Crawl) {
    ResultOf(link) == if Accepts(v) then crawl(id, v.sheetRow.donorUrl, v.sheetRow.acceptor)
                      else InvalidInput(v.norm.errors)
  }

  ghost predicate HoldsResult(g: Grid, t: Layout, rowNumber: nat, link: Link, stamp: Stamp) {
    forall c :: InResults(t, c) ==> g(rowNumber - 1, c) == ResultCells(link, stamp)[c - t.resultCol]
  }

  lemma CheckedLinkIsOfRow(project: ProjectId, v: ValidRow, link: Link, id: LinkId, crawl: Crawl)
    requires Checked(v.norm, LinkFor(project, v), link, CheckOf(crawl, id, LinkFor(project, v)))
    requires v.norm.donorUrl == v.sheetRow.donorUrl && v.norm.acceptor == v.sheetRow.acceptor
    ensures IsLinkOf(project, v, link) && ShowsItsCheck(v, link, id, crawl)
  {
    var before, now := LinkFor(project, v), link.lastCheckedAt.value;
    if Accepts(v) {
      SavedResultReadsBack(MarkRow(before, CHECKING), CheckOf(crawl, id, before), now);
    } else {
      SavedResultReadsBack(before, InvalidInput(v.norm.errors), now);
    }
  }

  lemma RowCell(t: Layout, links: seq<Fetched>, numbers: seq<int>, stamp: Stamp, before: Grid, n: nat, k: nat, c: int)
    requires |numbers| == |links| && k < |numbers| && FirstAt(numbers, n) == k
    requires Spans(numbers, n) && t.headerRow != n && InResults(t, c)
    ensures WrittenCell(t, links, numbers, stamp, before, n - 1, c) == ResultCells(links[k].1, stamp)[c - t.resultCol]
  {
  }

  /** Whatever the fetch order: row `k` of the batch shows the k-th link in that order. */
  lemma EntryShowsFetchedLink(project: ProjectId, t: Layout, w: Surroundings, p: SheetReport,
                              judge: Judge, rows: seq<SheetRow>, k: nat)
    requires Completes(project, t, w, p, judge, rows) && k < |p.batch|
    requires t.headerRow != p.batch[k].sheetRow.rowNumber
    ensures HoldsResult(p.after, t, p.batch[k].sheetRow.rowNumber, p.links[p.fetched[k]], w.stamp)
  {
    var n, numbers := p.batch[k].sheetRow.rowNumber, RowNumbers(p.batch);
    EntryPlace(t, judge, rows, k);
    SpansIsCovers(t, judge, rows, n);
    assert numbers[k] == n;
    forall c | InResults(t, c)
      ensures p.after(n - 1, c) == ResultCells(p.links[p.fetched[k]], w.stamp)[c - t.resultCol]
    {
      RowCell(t, Rows(p.fetched, p.links), numbers, w.stamp, p.before, n, k, c);
    }
  }

  /** After the run, the row of `v` shows link `id`, made from that row and holding its own pair's check. */
  ghost predicate HoldsOwnResult(project: ProjectId, t: Layout, w: Surroundings, p: SheetReport,
                                 v: ValidRow, id: LinkId)
  {
    && id in p.links && IsLinkOf(project, v, p.links[id]) && ShowsItsCheck(v, p.links[id], id, w.crawl)
    && HoldsResult(p.after, t, v.sheetRow.rowNumber, p.links[id], w.stamp)
  }

  /**
   * If the links come back in the order they were inserted, every filled row outside the
   * header ends up holding the result of the link that was made from that same row.
   */
  lemma FilledRowHoldsItsOwnResult(project: ProjectId, t: Layout, w: Surroundings, p: SheetReport,
                                   judge: Judge, rows: seq<SheetRow>, rank: Rank, i: nat)
    requires Completes(project, t, w, p, judge, rows)
    requires p.fetched == SortByRank(p.inserted, rank) && InRankOrder(p.inserted, rank)
    requires i < |rows| && IsFilledRow(rows[i]) && t.headerRow != rows[i].rowNumber
    ensures exists id :: id in p.inserted && HoldsOwnResult(project, t, w, p, ValidRow(judge(rows[i]), rows[i]), id)
  {
    FetchOrderIsInsertionOrderIff(p.inserted, rank);
    var k := FilledRowIsTaken(judge, rows, i);
    var id := p.inserted[k];
    CheckedLinkIsOfRow(project, p.batch[k], p.links[id], id, w.crawl);
    EntryShowsFetchedLink(project, t, w, p, judge, rows, k);
    assert HoldsOwnResult(project, t, w, p, p.batch[k], id);
  }

  // ----- whose result, in terms of the sheet -----

  /** A completed run over the first `height` data rows of the sheet it found. */
  ghost predicate Ran(project: ProjectId, t: Layout, w: Surroundings, p: SheetReport, height: nat) {
    && 1 <= t.dataStartRow && p.batch == Batch(JudgeBy(w.urls), DataRows(p.before, t, height))
    && RunResult(project, t, w, p)
  }

  /** Row `n` of the sheet had a donor and an acceptor, and is neither above the data nor the header. */
  predicate IsDataRow(t: Layout, g: Grid, height: nat, n: nat) {
    && t.dataStartRow <= n < t.dataStartRow + height && n != t.headerRow
    && CellOf(g, n, t.donorCol) != "" && CellOf(g, n, t.acceptorCol) != ""
  }

  /** What is wrong with the two texts of a row. */
  function FaultsOf(u: Urls, donor: string, acceptor: string): string {
    if u.isValidDonor(donor) then "acceptor invalid: " + MessageOf(u.acceptorHost(acceptor))
    else if u.acceptorHost(acceptor).Read? then "donor not a valid URL"
    else "donor not a valid URL" + ", " + ("acceptor invalid: " + MessageOf(u.acceptorHost(acceptor)))
  }

  function MessageOf(r: Reading<string>): string {
    if r.Unreadable? then r.message else ""
  }

  /**
   * Link `id` was made from the texts that stood in row `n`, carries what checking just
   * those two reported, or what is wrong with them, and is shown in the result columns of
   * row `n`.
   */
  ghost predicate OwnResultAt(project: ProjectId, t: Layout, w: Surroundings, p: SheetReport, n: nat, id: LinkId) {
    var donor, acceptor := CellOf(p.before, n, t.donorCol), CellOf(p.before, n, t.acceptorCol);
    && id in p.links
    && var link := p.links[id];
       && link.projectId == project && link.donorUrl == donor && link.acceptorRaw == acceptor
       && ResultOf(link) == (if w.urls.isValidDonor(donor) && w.urls.acceptorHost(acceptor).Read?
            then w.crawl(id, donor, acceptor)
            else CrawlResults.BASE.(error := Some("Invalid input: " + FaultsOf(w.urls, donor, acceptor))))
       && link.status in {DONE, ERROR} && link.lastCheckedAt.Some?
       && HoldsResult(p.after, t, n, link, w.stamp)
  }

  /** The verdict on the two texts of a row: accepted, or the text that says what is wrong with them. */
  predicate IsJudged(u: Urls, donor: string, acceptor: string, errors: seq<string>) {
    && (errors == [] <==> u.isValidDonor(donor) && u.acceptorHost(acceptor).Read?)
    && (errors != [] ==>
          InvalidInput(errors) == CrawlResults.BASE.(error := Some("Invalid input: " + FaultsOf(u, donor, acceptor))))
  }

  lemma JudgedTexts(u: Urls, row: SheetRow)
    requires TakesVerbatim(JudgeBy(u), row) && IsFilledRow(row)
    ensures IsJudged(u, row.donorUrl, row.acceptor, JudgeBy(u)(row).errors)
  {
    var a, b := "donor not a valid URL", "acceptor invalid: " + MessageOf(u.acceptorHost(row.acceptor));
    JudgementInPlainTerms(u, row);
    FaultsInPlainTerms(a, b);
    FaultsInPlainTerms(b, a);
    assert [a] + [b] == [a, b];
  }

  lemma JudgedRow(u: Urls, g: Grid, t: Layout, i: nat)
    requires IsFilledRow(RowAt(g, t, i))
    ensures var row := RowAt(g, t, i); IsJudged(u, row.donorUrl, row.acceptor, JudgeBy(u)(row).errors)
  {
    SheetRowIsTakenVerbatim(u, g, t, i);
    JudgedTexts(u, RowAt(g, t, i));
  }

  /**
   * If the links come back in the order they were inserted: every row of the sheet that had
   * a donor and an acceptor ends up beside the result of checking exactly those two.
   */
  lemma EachRowHoldsItsOwnResult(project: ProjectId, t: Layout, w: Surroundings, p: SheetReport, height: nat,
                                 rank: Rank, n: nat)
    requires Ran(project, t, w, p, height) && IsDataRow(t, p.before, height, n)
    requires p.fetched == SortByRank(p.inserted, rank) && InRankOrder(p.inserted, rank)
    ensures exists id :: id in p.inserted && OwnResultAt(project, t, w, p, n, id)
  {
    var judge, rows, i := JudgeBy(w.urls), DataRows(p.before, t, height), n - t.dataStartRow;
    CompletedRunCompletes(project, t, w, p, height);
    RowInPlainTerms(p.before, t, n);
    JudgedRow(w.urls, p.before, t, i);
    assert rows[i] == RowAt(p.before, t, i);
    FilledRowHoldsItsOwnResult(project, t, w, p, judge, rows, rank, i);
    var id :| id in p.inserted && HoldsOwnResult(project, t, w, p, ValidRow(judge(rows[i]), rows[i]), id);
    assert OwnResultAt(project, t, w, p, n, id);
  }

  /** Row `k` of the batch shows a link that was made from row `j`. */
  ghost predicate ShowsAnother(t: Layout, w: Surroundings, p: SheetReport, j: nat, k: nat) {
    && j < |p.batch| && k < |p.batch| && j != k
    && |p.inserted| == |p.fetched| == |p.batch| && p.fetched[k] == p.inserted[j] && p.inserted[j] in p.links
    && p.links[p.inserted[j]].donorUrl == p.batch[j].norm.donorUrl
    && (t.headerRow != p.batch[k].sheetRow.rowNumber ==>
          HoldsResult(p.after, t, p.batch[k].sheetRow.rowNumber, p.links[p.inserted[j]], w.stamp))
  }

  lemma MisplacedLink(inserted: seq<LinkId>, rank: Rank) returns (j: nat, k: nat)
    requires Distinct(inserted) && !InRankOrder(inserted, rank)
    ensures |SortByRank(inserted, rank)| == |inserted|
    ensures j < |inserted| && k < |inserted| && j != k && SortByRank(inserted, rank)[k] == inserted[j]
  {
    var fetched := SortByRank(inserted, rank);
    FetchOrderIsInsertionOrderIff(inserted, rank);
    SortKeepsDistinct(inserted, rank);
    k :| 0 <= k < |inserted| && fetched[k] != inserted[k];
    assert fetched[k] in inserted;
    j :| 0 <= j < |inserted| && inserted[j] == fetched[k];
  }

  /**
   * And only then: when the ids of one batch do not ascend in insertion order, some row
   * shows the result of a link made from another row.
   */
  lemma OutOfOrderRowsShowAnother(project: ProjectId, t: Layout, w: Surroundings, p: SheetReport,
                                  judge: Judge, rows: seq<SheetRow>, rank: Rank)
    requires Completes(project, t, w, p, judge, rows) && p.fetched == SortByRank(p.inserted, rank)
    ensures InRankOrder(p.inserted, rank) <==> p.fetched == p.inserted
    ensures !InRankOrder(p.inserted, rank) ==> exists j, k :: ShowsAnother(t, w, p, j, k)
  {
    FetchOrderIsInsertionOrderIff(p.inserted, rank);
    if !InRankOrder(p.inserted, rank) {
      var j, k := MisplacedLink(p.inserted, rank);
      assert Checked(p.batch[k].norm, LinkFor(project, p.batch[j]), p.links[p.fetched[k]],
        CheckOf(w.crawl, p.fetched[k], LinkFor(project, p.batch[j])));
      if t.headerRow != p.batch[k].sheetRow.rowNumber { EntryShowsFetchedLink(project, t, w, p, judge, rows, k); }
      assert ShowsAnother(t, w, p, j, k);
    }
  }

  /**
   * Every link of the task is finished and carries exactly what its status promises; the
   * link at a malformed row is an error that names the fault.
   */
  lemma LinksTellTheTruth(project: ProjectId, w: Surroundings, p: SheetReport, rank: Rank, k: nat)
    requires Settled(project, p.batch, p.inserted, p.fetched, p.links, w.crawl)
    requires p.fetched == SortByRank(p.inserted, rank) && k < |p.batch|
    requires forall donor, acceptor :: CrawlResults.Consistent(w.crawl(p.fetched[k], donor, acceptor))
    ensures var link := p.links[p.fetched[k]];
      && link.status in {DONE, ERROR} && StatusIsTrue(link)
      && (!Accepts(p.batch[k]) ==> link.error == Some("Invalid input: " + JoinErrors(p.batch[k].norm.errors)))
  {
    SortKeepsDistinct(p.inserted, rank);
    assert p.fetched[k] in p.inserted;
    var j :| 0 <= j < |p.inserted| && p.inserted[j] == p.fetched[k];
    assert Checked(p.batch[k].norm, LinkFor(project, p.batch[j]), p.links[p.fetched[k]],
        CheckOf(w.crawl, p.fetched[k], LinkFor(project, p.batch[j])));
    assert !CrawlResults.BASE.ok;
  }

  // ----- every other cell -----

  lemma UnfilledRowHasNoEntry(t: Layout, judge: Judge, rows: seq<SheetRow>, i: nat)
    requires Numbered(rows, t.dataStartRow) && JudgesFairly(judge, rows) && i < |rows| && !IsFilledRow(rows[i])
    ensures FirstAt(RowNumbers(Batch(judge, rows)), rows[i].rowNumber) == |Batch(judge, rows)|
  {
    var k := FirstAt(RowNumbers(Batch(judge, rows)), rows[i].rowNumber);
    if k < |Batch(judge, rows)| { EntryPlace(t, judge, rows, k); }
  }

  /** Beside the rows of the block that are not filled, the result columns are blank. */
  lemma GapsAreBlank(project: ProjectId, t: Layout, w: Surroundings, p: SheetReport,
                     judge: Judge, rows: seq<SheetRow>, i: nat, c: int)
    requires Completes(project, t, w, p, judge, rows) && InResults(t, c)
    requires i < |rows| && !IsFilledRow(rows[i])
    requires Covers(RowNumbers(p.batch), rows[i].rowNumber) && rows[i].rowNumber != t.headerRow
    ensures p.after(rows[i].rowNumber - 1, c) == Text("")
  {
    SpansIsCovers(t, judge, rows, rows[i].rowNumber);
    UnfilledRowHasNoEntry(t, judge, rows, i);
  }

  /** The header stands where the task wants it, unless there was nothing to write. */
  lemma HeaderIsWritten(project: ProjectId, t: Layout, w: Surroundings, p: SheetReport,
                        judge: Judge, rows: seq<SheetRow>, c: int)
    requires Completes(project, t, w, p, judge, rows) && InResults(t, c) && 0 < t.headerRow
    ensures p.after(t.headerRow - 1, c)
         == if p.batch == [] then p.before(t.headerRow - 1, c) else Text(RESULT_HEADERS[c - t.resultCol])
  {
    SpansIsCovers(t, judge, rows, t.headerRow);
  }

  /** The six cells of the result columns in row `n` of a sheet. */
  function BlockRow(g: Grid, t: Layout, n: int): (cells: seq<CellValue>)
    ensures |cells| == RESULT_WIDTH
  {
    seq(RESULT_WIDTH, i requires 0 <= i < RESULT_WIDTH => g(n - 1, t.resultCol + i))
  }

  lemma HeldCells(g: Grid, t: Layout, n: nat, link: Link, stamp: Stamp)
    requires HoldsResult(g, t, n, link, stamp)
    ensures BlockRow(g, t, n) == ResultCells(link, stamp)
  {
    var x, y := BlockRow(g, t, n), ResultCells(link, stamp);
    forall k | 0 <= k < RESULT_WIDTH ensures x[k] == y[k] {
      assert InResults(t, t.resultCol + k);
    }
  }

  lemma HeldTitles(project: ProjectId, t: Layout, w: Surroundings, p: SheetReport, judge: Judge, rows: seq<SheetRow>)
    requires Completes(project, t, w, p, judge, rows) && 0 < t.headerRow && p.batch != []
    ensures BlockRow(p.after, t, t.headerRow) == HeaderCells()
  {
    var x, y := BlockRow(p.after, t, t.headerRow), HeaderCells();
    forall k | 0 <= k < RESULT_WIDTH ensures x[k] == y[k] {
      HeaderIsWritten(project, t, w, p, judge, rows, t.resultCol + k);
    }
  }

  /**
   * What a reader of the sheet sees: beside each such row, each cell says about the row's
   * own link what the title in the header row promises.
   */
  lemma SheetSaysItsRows(project: ProjectId, t: Layout, w: Surroundings, p: SheetReport, height: nat,
                         rank: Rank, n: nat)
    requires Ran(project, t, w, p, height) && IsDataRow(t, p.before, height, n) && 0 < t.headerRow
    requires p.fetched == SortByRank(p.inserted, rank) && InRankOrder(p.inserted, rank)
    ensures exists id :: id in p.inserted && SheetSays(project, t, w, p, n, id)
  {
    var judge, rows, i := JudgeBy(w.urls), DataRows(p.before, t, height), n - t.dataStartRow;
    EachRowHoldsItsOwnResult(project, t, w, p, height, rank, n);
    var id :| id in p.inserted && OwnResultAt(project, t, w, p, n, id);
    CompletedRunCompletes(project, t, w, p, height);
    RowInPlainTerms(p.before, t, n);
    assert rows[i] == RowAt(p.before, t, i);
    var k := FilledRowIsTaken(judge, rows, i);
    HeldTitles(project, t, w, p, judge, rows);
    HeldCells(p.after, t, n, p.links[id], w.stamp);
    CellsUnderTitles(p.links[id], w.stamp);
    assert SheetSays(project, t, w, p, n, id);
  }

  /** Row `n` shows its own link, and under the titles of the sheet each cell says what that link is. */
  ghost predicate SheetSays(project: ProjectId, t: Layout, w: Surroundings, p: SheetReport, n: nat, id: LinkId) {
    && OwnResultAt(project, t, w, p, n, id)
    && SaysUnder(BlockRow(p.after, t, t.headerRow), BlockRow(p.after, t, n), p.links[id], w.stamp)
  }

  /** Everything else is untouched: other columns, other rows, and the whole sheet if nothing was filled. */
  lemma RestIsUntouched(project: ProjectId, t: Layout, w: Surroundings, p: SheetReport,
                        judge: Judge, rows: seq<SheetRow>, r: int, c: int)
    requires Completes(project, t, w, p, judge, rows)
    requires !InResults(t, c) || (!Covers(RowNumbers(p.batch), r + 1) && (p.batch == [] || r + 1 != t.headerRow))
    ensures p.after(r, c) == p.before(r, c)
  {
    SpansIsCovers(t, judge, rows, r + 1);
  }

  // ----- the next run -----

  /** With the source columns outside the result block, the next run reads the same batch of links. */
  lemma NextRunReadsTheSameBatch(judge: Judge, t: Layout, before: Grid, after: Grid, height: nat)
    requires SourceKept(t, before, after)
    requires !InResults(t, t.donorCol) && !InResults(t, t.acceptorCol)
    ensures Batch(judge, DataRows(after, t, height)) == Batch(judge, DataRows(before, t, height))
  {
    assert DataRows(after, t, height) == DataRows(before, t, height);
  }

  /** What a cell of column `col` beside a link holds for the next run to read. */
  function NextValue(t: Layout, col: int, link: Link, stamp: Stamp, before: CellValue): CellValue {
    if InResults(t, col) then ResultCells(link, stamp)[col - t.resultCol] else before
  }

  /** Link `id` is the row's own, and in both source columns the next run reads what it left there. */
  ghost predicate IsReadNext(project: ProjectId, t: Layout, w: Surroundings, p: SheetReport, v: ValidRow, id: LinkId) {
    && HoldsOwnResult(project, t, w, p, v, id)
    && var r := v.sheetRow.rowNumber - 1;
       && p.after(r, t.donorCol) == NextValue(t, t.donorCol, p.links[id], w.stamp, p.before(r, t.donorCol))
       && p.after(r, t.acceptorCol) == NextValue(t, t.acceptorCol, p.links[id], w.stamp, p.before(r, t.acceptorCol))
  }

  /**
   * A source column inside the result block feeds the results back: in that column the
   * next run reads, in each filled row outside the header, a result cell of the row's own
   * link; in a column outside the block it reads what this run read.
   */
  lemma NextRunReadsRow(project: ProjectId, t: Layout, w: Surroundings, p: SheetReport,
                        judge: Judge, rows: seq<SheetRow>, rank: Rank, i: nat)
    requires Completes(project, t, w, p, judge, rows)
    requires p.fetched == SortByRank(p.inserted, rank) && InRankOrder(p.inserted, rank)
    requires i < |rows| && IsFilledRow(rows[i]) && t.headerRow != rows[i].rowNumber
    ensures exists id :: id in p.inserted && IsReadNext(project, t, w, p, ValidRow(judge(rows[i]), rows[i]), id)
  {
    var v := ValidRow(judge(rows[i]), rows[i]);
    FilledRowHoldsItsOwnResult(project, t, w, p, judge, rows, rank, i);
    var id :| id in p.inserted && HoldsOwnResult(project, t, w, p, v, id);
    NextCell(project, t, w, p, judge, rows, v, t.donorCol, id);
    NextCell(project, t, w, p, judge, rows, v, t.acceptorCol, id);
    assert IsReadNext(project, t, w, p, v, id);
  }

  lemma NextCell(project: ProjectId, t: Layout, w: Surroundings, p: SheetReport,
                 judge: Judge, rows: seq<SheetRow>, v: ValidRow, c: nat, id: LinkId)
    requires Completes(project, t, w, p, judge, rows) && HoldsOwnResult(project, t, w, p, v, id)
    ensures var r := v.sheetRow.rowNumber - 1;
      p.after(r, c) == NextValue(t, c, p.links[id], w.stamp, p.before(r, c))
  {
    if !InResults(t, c) { RestIsUntouched(project, t, w, p, judge, rows, v.sheetRow.rowNumber - 1, c); }
  }
}
