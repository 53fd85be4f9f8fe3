/**
 * One run over a spreadsheet (apps/worker/src/modules/sheets/sheets-task.service.ts,
 * `run`): the filled rows become the task's links, the links are checked, and every
 * result is written beside a row. RunResult says what a completed run leaves behind;
 * the lemmas after it say what that means for the person who owns the sheet.
 */
module SheetsTask {
  import opened Options
  import opened Clocks
  import opened CrawlResults
  import opened LinkRows
  import opened SingleLink
  import opened ManualCheck
  import Bulk = BulkRun
  import opened SheetRows
  import opened SheetResults
  import Columns
  import Texts
  import Locks = LockManager

  datatype Task = Task(
    projectId: ProjectId, donorColumn: string, acceptorColumn: string, resultStartCol: string,
    headerRow: nat, dataStartRow: nat)

  /** What the API accepts: columns are letters, data begins on a row. */
  predicate WellFormed(t: Task) {
    && Columns.Index(t.donorColumn).Some? && Columns.Index(t.acceptorColumn).Some?
    && Columns.Index(t.resultStartCol).Some? && 1 <= t.dataStartRow
  }

  function LayoutOf(t: Task): Layout
    requires WellFormed(t)
  {
    Layout(Columns.Index(t.donorColumn).value, Columns.Index(t.acceptorColumn).value,
           Columns.Index(t.resultStartCol).value, t.headerRow, t.dataStartRow)
  }

  // ----- from rows to links -----

  function InputFor(v: ValidRow): LinkInput {
    LinkInput(v.norm.donorUrl, v.norm.acceptor,
              if v.norm.acceptorHost.Some? then v.norm.acceptorHost.value else "")
  }

  function LinkFor(project: ProjectId, v: ValidRow): Link {
    CreateRow(project, InputFor(v))
  }

  function JoinErrors(errors: seq<string>): string {
    if errors == [] then "" else if |errors| == 1 then errors[0]
    else JoinErrors(errors[..|errors| - 1]) + ", " + errors[|errors| - 1]
  }

  function InvalidInput(errors: seq<string>): CrawlResult {
    BASE.(error := Some("Invalid input: " + JoinErrors(errors)))
  }

  /** The task's columns and rows, and a link as it is inserted for an entry, field by field. */
  lemma InputInPlainTerms(task: Task, project: ProjectId, v: ValidRow)
    ensures WellFormed(task) ==>
      var t := LayoutOf(task);
      && Columns.Index(task.donorColumn) == Some(t.donorCol)
      && Columns.Index(task.acceptorColumn) == Some(t.acceptorCol)
      && Columns.Index(task.resultStartCol) == Some(t.resultCol)
      && t.headerRow == task.headerRow && t.dataStartRow == task.dataStartRow
    ensures LinkFor(project, v) == Link(
      project, v.norm.donorUrl, v.norm.acceptor, if v.norm.acceptorHost.Some? then v.norm.acceptorHost.value else "",
      PENDING, None, None, None, None, None, None, None, None, None, None, 0, None, None, None)
  {
  }

  /** What a malformed row's link says: its faults, with commas between them. */
  lemma FaultsInPlainTerms(a: string, b: string)
    ensures JoinErrors([]) == "" && JoinErrors([a]) == a && JoinErrors([a, b]) == a + ", " + b
    ensures InvalidInput([a]) == BASE.(error := Some("Invalid input: " + a))
    ensures InvalidInput([a, b]) == BASE.(error := Some("Invalid input: " + (a + ", " + b)))
  {
    assert [a, b][..1] == [a];
  }

  /** A link is checked by a crawl if its row was well formed, and failed on the spot otherwise. */
  predicate Checked(norm: NormalizedRow, before: Link, after: Link, crawled: CrawlResult) {
    if |norm.errors| == 0 then IsProcessed(before, after, crawled)
    else after.lastCheckedAt.Some? && after == SaveRow(before, InvalidInput(norm.errors), after.lastCheckedAt.value)
  }

  predicate Accepts(v: ValidRow) {
    |v.norm.errors| == 0
  }

  /** The positions of the well-formed rows among the first `n`, ascending. */
  function Accepted(batch: seq<ValidRow>, n: nat): (at: seq<nat>)
    requires n <= |batch|
    ensures forall k :: 0 <= k < |at| ==> at[k] < n
  {
    if n == 0 then []
    else if Accepts(batch[n - 1]) then Accepted(batch, n - 1) + [n - 1]
    else Accepted(batch, n - 1)
  }

  lemma {:induction false} AcceptedAscend(batch: seq<ValidRow>, n: nat)
    requires n <= |batch|
    ensures forall k :: 0 <= k < |Accepted(batch, n)| ==> Accepts(batch[Accepted(batch, n)[k]])
    ensures forall j, k :: 0 <= j < k < |Accepted(batch, n)| ==> Accepted(batch, n)[j] < Accepted(batch, n)[k]
  {
    if n != 0 { AcceptedAscend(batch, n - 1); }
  }

  lemma {:induction false} AcceptedAreAll(batch: seq<ValidRow>, n: nat, i: nat)
    requires i < n <= |batch| && Accepts(batch[i])
    ensures i in Accepted(batch, n)
  {
    if i < n - 1 { AcceptedAreAll(batch, n - 1, i); }
  }

  function Pick(ids: seq<LinkId>, at: seq<nat>): (picked: seq<LinkId>)
    requires forall k :: 0 <= k < |at| ==> at[k] < |ids|
    ensures |picked| == |at|
  {
    seq(|at|, k requires 0 <= k < |at| => ids[at[k]])
  }

  /** The links passed on to the crawler, and the sheet row each link belongs to, after `n` entries. */
  function Processable(batch: seq<ValidRow>, fetched: seq<LinkId>, n: nat): seq<LinkId>
    requires n <= |batch| == |fetched|
  {
    if n == 0 then []
    else if Accepts(batch[n - 1]) then Processable(batch, fetched, n - 1) + [fetched[n - 1]]
    else Processable(batch, fetched, n - 1)
  }

  function RowOf(batch: seq<ValidRow>, fetched: seq<LinkId>, n: nat): map<LinkId, SheetRow>
    requires n <= |batch| == |fetched|
  {
    if n == 0 then map[] else RowOf(batch, fetched, n - 1)[fetched[n - 1] := batch[n - 1].sheetRow]
  }

  lemma {:induction false} ProcessableArePicked(batch: seq<ValidRow>, fetched: seq<LinkId>, n: nat)
    requires n <= |batch| == |fetched|
    ensures Processable(batch, fetched, n) == Pick(fetched, Accepted(batch, n))
  {
    if n != 0 { ProcessableArePicked(batch, fetched, n - 1); }
  }

  lemma {:induction false} RowOfLink(batch: seq<ValidRow>, fetched: seq<LinkId>, n: nat, i: nat)
    requires i < n <= |batch| == |fetched| && Distinct(fetched)
    ensures fetched[i] in RowOf(batch, fetched, n) && RowOf(batch, fetched, n)[fetched[i]] == batch[i].sheetRow
  {
    if i < n - 1 { RowOfLink(batch, fetched, n - 1, i); }
  }

  predicate RowIsSo(norm: NormalizedRow, id: LinkId, done: bool,
                    start: map<LinkId, Link>, now: map<LinkId, Link>, crawl: Crawl)
  {
    && id in start && id in now
    && if done then Checked(norm, start[id], now[id], CheckOf(crawl, id, start[id])) else now[id] == start[id]
  }

  /** The rows of the batch whose positions are in `done` are checked; no other row has changed. */
  ghost predicate CheckedSo(batch: seq<ValidRow>, ids: seq<LinkId>, done: set<nat>,
                            start: map<LinkId, Link>, now: map<LinkId, Link>, crawl: Crawl)
    requires |ids| == |batch|
  {
    && (forall i :: 0 <= i < |ids| ==> RowIsSo(batch[i].norm, ids[i], i in done, start, now, crawl))
    && now.Keys == start.Keys
    && (forall id :: id in start && id !in ids ==> now[id] == start[id])
  }

  lemma OneMoreChecked(batch: seq<ValidRow>, ids: seq<LinkId>, done: set<nat>, i: nat,
                       start: map<LinkId, Link>, before: map<LinkId, Link>, now: map<LinkId, Link>,
                       crawl: Crawl)
    requires |ids| == |batch| && Distinct(ids) && i < |ids| && i !in done
    requires CheckedSo(batch, ids, done, start, before, crawl)
    requires now.Keys == before.Keys
    requires forall id :: id in now && id != ids[i] ==> now[id] == before[id]
    requires ids[i] in before ==>
      Checked(batch[i].norm, before[ids[i]], now[ids[i]], CheckOf(crawl, ids[i], before[ids[i]]))
    ensures CheckedSo(batch, ids, done + {i}, start, now, crawl)
  {
    forall k | 0 <= k < |ids| ensures RowIsSo(batch[k].norm, ids[k], k in done + {i}, start, now, crawl) {
      assert RowIsSo(batch[k].norm, ids[k], k in done, start, before, crawl);
      assert k != i ==> ids[k] != ids[i];
    }
  }

  /** The positions of the malformed rows among the first `n`. */
  function Rejected(batch: seq<ValidRow>, n: nat): set<nat>
    requires n <= |batch|
  {
    if n == 0 then {}
    else if Accepts(batch[n - 1]) then Rejected(batch, n - 1)
    else Rejected(batch, n - 1) + {n - 1}
  }

  lemma {:induction false} RejectedAreMalformed(batch: seq<ValidRow>, n: nat, i: nat)
    requires n <= |batch|
    ensures i in Rejected(batch, n) <==> i < n && !Accepts(batch[i])
  {
    if n != 0 { RejectedAreMalformed(batch, n - 1, i); }
  }

  /** The table after the first `n` entries were judged: links of malformed rows have failed, at those times. */
  function Judged(batch: seq<ValidRow>, ids: seq<LinkId>, n: nat, links: map<LinkId, Link>, times: seq<int>)
    : map<LinkId, Link>
    requires |times| == n <= |batch| == |ids|
  {
    if n == 0 then links
    else
      var earlier := Judged(batch, ids, n - 1, links, times[..n - 1]);
      if Accepts(batch[n - 1]) || ids[n - 1] !in earlier then earlier
      else earlier[ids[n - 1] :=
        SaveRow(earlier[ids[n - 1]], InvalidInput(batch[n - 1].norm.errors), times[n - 1])]
  }

  lemma {:induction false} JudgedAreChecked(batch: seq<ValidRow>, ids: seq<LinkId>, n: nat,
                                            links: map<LinkId, Link>, times: seq<int>, crawl: Crawl)
    requires |times| == n <= |batch| == |ids| && Distinct(ids)
    requires forall i :: 0 <= i < |ids| ==> ids[i] in links
    ensures CheckedSo(batch, ids, Rejected(batch, n), links, Judged(batch, ids, n, links, times), crawl)
  {
    if n != 0 {
      var earlier := Judged(batch, ids, n - 1, links, times[..n - 1]);
      JudgedAreChecked(batch, ids, n - 1, links, times[..n - 1], crawl);
      RejectedAreMalformed(batch, n - 1, n - 1);
      if !Accepts(batch[n - 1]) {
        OneMoreChecked(batch, ids, Rejected(batch, n - 1), n - 1, links, earlier,
                       Judged(batch, ids, n, links, times), crawl);
      }
    }
  }

  /** The malformed rows, and the first `k` accepted ones. */
  function Through(batch: seq<ValidRow>, at: seq<nat>, k: nat): set<nat>
    requires k <= |at|
  {
    Rejected(batch, |batch|) + (set i | i in at[..k])
  }

  lemma PickIsDistinct(ids: seq<LinkId>, at: seq<nat>)
    requires Distinct(ids) && (forall k :: 0 <= k < |at| ==> at[k] < |ids|)
    requires forall j, k :: 0 <= j < k < |at| ==> at[j] < at[k]
    ensures Distinct(Pick(ids, at))
  {
    forall j, k | 0 <= j < k < |at| ensures Pick(ids, at)[j] != Pick(ids, at)[k] {
      assert ids[at[j]] != ids[at[k]];
    }
  }

  /** The links of a slice are those at the slice's positions. */
  lemma SliceOfPick(ids: seq<LinkId>, at: seq<nat>, i: nat, j: nat, k: nat)
    requires Distinct(ids) && (forall m :: 0 <= m < |at| ==> at[m] < |ids|) && i <= j <= |at| && k < |ids|
    ensures ids[k] in Pick(ids, at)[i..j] <==> k in at[i..j]
  {
    var slice := Pick(ids, at)[i..j];
    if ids[k] in slice {
      var m :| 0 <= m < |slice| && slice[m] == ids[k];
      assert ids[at[i + m]] == ids[k] && at[i..j][m] == at[i + m];
    }
    if k in at[i..j] {
      var m :| 0 <= m < j - i && at[i..j][m] == k;
      assert slice[m] == ids[k];
    }
  }

  lemma NotAmongEarlier(at: seq<nat>, i: nat, m: nat)
    requires i <= m < |at| && forall j, k :: 0 <= j < k < |at| ==> at[j] < at[k]
    ensures at[m] !in at[..i]
  {
    forall n | 0 <= n < i ensures at[n] != at[m] {}
  }

  /** The positions of a slice are accepted ones that no earlier slice had. */
  lemma SliceIsNew(batch: seq<ValidRow>, at: seq<nat>, i: nat, j: nat, k: nat)
    requires at == Accepted(batch, |batch|) && i <= j <= |at| && k in at[i..j]
    ensures k < |batch| && Accepts(batch[k]) && k !in Through(batch, at, i)
  {
    var m :| i <= m < j && at[m] == k;
    AcceptedAscend(batch, |batch|);
    NotAmongEarlier(at, i, m);
    RejectedAreMalformed(batch, |batch|, k);
  }

  lemma SliceMovesThrough(batch: seq<ValidRow>, at: seq<nat>, i: nat, j: nat, k: nat)
    requires i <= j <= |at|
    ensures k in Through(batch, at, j) <==> k in Through(batch, at, i) || k in at[i..j]
  {
    assert at[..j] == at[..i] + at[i..j];
  }

  /** Any interleaving of the checks of a slice of accepted links checks exactly those. */
  lemma SliceIsChecked(batch: seq<ValidRow>, ids: seq<LinkId>, at: seq<nat>, i: nat, j: nat,
                       start: map<LinkId, Link>, before: map<LinkId, Link>,
                       writes: seq<(LinkId, Write)>, crawl: Crawl)
    requires |ids| == |batch| && Distinct(ids) && at == Accepted(batch, |batch|) && i <= j <= |at|
    requires CheckedSo(batch, ids, Through(batch, at, i), start, before, crawl)
    requires EachOnce(before, Pick(ids, at)[i..j], writes, crawl)
    ensures CheckedSo(batch, ids, Through(batch, at, j), start, Table(before, writes), crawl)
  {
    var slice, now := Pick(ids, at)[i..j], Table(before, writes);
    forall k | 0 <= k < |ids| ensures RowIsSo(batch[k].norm, ids[k], k in Through(batch, at, j), start, now, crawl) {
      assert RowIsSo(batch[k].norm, ids[k], k in Through(batch, at, i), start, before, crawl);
      SliceOfPick(ids, at, i, j, k);
      SliceMovesThrough(batch, at, i, j, k);
      if k in at[i..j] { SliceIsNew(batch, at, i, j, k); }
      EachOnceProcesses(before, slice, writes, crawl, ids[k]);
    }
    forall id ensures now.Keys == start.Keys
      ensures id in start && id !in ids ==> now[id] == start[id]
    {
      EachOnceProcesses(before, slice, writes, crawl, id);
      assert id in slice ==> id in ids;
    }
  }

  function Everything(batch: seq<ValidRow>): set<nat> {
    Through(batch, Accepted(batch, |batch|), |Accepted(batch, |batch|)|)
  }

  lemma EverythingIsAll(batch: seq<ValidRow>, i: nat)
    requires i < |batch|
    ensures i in Everything(batch)
  {
    var at := Accepted(batch, |batch|);
    assert at[..|at|] == at;
    if Accepts(batch[i]) { AcceptedAreAll(batch, |batch|, i); } else { RejectedAreMalformed(batch, |batch|, i); }
  }

  // ----- what a completed run leaves -----

  function RowNumbers(batch: seq<ValidRow>): (numbers: seq<int>)
    ensures |numbers| == |batch|
  {
    seq(|batch|, i requires 0 <= i < |batch| => batch[i].sheetRow.rowNumber)
  }

  function Rows(ids: seq<LinkId>, links: map<LinkId, Link>): (rows: seq<Fetched>)
    requires forall i :: 0 <= i < |ids| ==> ids[i] in links
    ensures |rows| == |ids|
  {
    seq(|ids|, i requires 0 <= i < |ids| => (ids[i], links[ids[i]]))
  }

  function Summary(counts: Counts, total: nat): string {
    if counts.errors == 0 then "OK \U{00B7} " + Texts.ShowInt(counts.found) + "/" + Texts.ShowInt(total) + " found"
    else Texts.ShowInt(counts.errors) + " errors"
  }

  /** The summary in plain terms: what the spreadsheet owner reads. */
  lemma SummaryInPlainTerms(links: map<LinkId, Link>, ids: seq<LinkId>, total: nat)
    ensures var errors := |set id | id in ids && id in links && links[id].status == ERROR|;
      var found := |set id | id in ids && id in links && links[id].linkFound == Some(true)|;
      Summary(ProgressCounts(links, ids), total)
      == if errors == 0 then "OK \U{00B7} " + Texts.ShowInt(found) + "/" + Texts.ShowInt(total) + " found"
         else Texts.ShowInt(errors) + " errors"
  {
    CountsInPlainTerms(links, ids);
  }

  /** Everything a run is given besides the state it works on. */
  datatype Surroundings = Surroundings(
    urls: Urls, newId: nat -> LinkId, crawl: Crawl, stamp: Stamp, titleFound: bool)

  /** The batch is cut short: before its links are in the table, or once each of them has got somewhere. */
  datatype Cut = Cut(synced: bool, reached: LinkId -> Reached)

  /** What goes wrong: the status writes, the read, the batch, the two writes to the sheet, the clean-up. */
  datatype Faults = Faults(
    startWrite: bool, read: bool, batch: Option<Cut>, dataWrite: bool, headerWrite: bool,
    doneWrite: bool, lookup: bool, failWrite: bool, clear: bool, release: bool)

  /** The try block gets to the batch. */
  predicate Starts(w: Surroundings, projectExists: bool, f: Faults) {
    !f.startWrite && projectExists && w.titleFound && !f.read
  }

  /** And to its end. */
  predicate GoesWell(w: Surroundings, projectExists: bool, t: Layout, batch: seq<ValidRow>, f: Faults) {
    && Starts(w, projectExists, f) && f.batch.None? && !f.doneWrite && !f.lookup
    && !WriteFails(t, RowNumbers(batch), f.dataWrite, f.headerWrite)
  }

  /** Identifiers the database makes up are new and differ from one another. */
  ghost predicate FreshIds(newId: nat -> LinkId, links: map<LinkId, Link>) {
    && (forall i :: newId(i) !in links)
    && (forall i, j :: i != j ==> newId(i) != newId(j))
  }

  function Ids(newId: nat -> LinkId, n: nat): (ids: seq<LinkId>)
    ensures |ids| == n
  {
    seq(n, i requires 0 <= i < n => newId(i))
  }

  lemma FreshIdsAreNew(newId: nat -> LinkId, links: map<LinkId, Link>, n: nat)
    requires FreshIds(newId, links)
    ensures Distinct(Ids(newId, n)) && forall i :: 0 <= i < n ==> Ids(newId, n)[i] !in links
  {
    forall i, j | 0 <= i < j < n ensures Ids(newId, n)[i] != Ids(newId, n)[j] {
      assert newId(i) != newId(j);
    }
    forall i | 0 <= i < n ensures Ids(newId, n)[i] !in links {
      assert newId(i) !in links;
    }
  }

  function Inputs(batch: seq<ValidRow>): (inputs: seq<LinkInput>)
    ensures |inputs| == |batch|
  {
    seq(|batch|, i requires 0 <= i < |batch| => InputFor(batch[i]))
  }

  /** The table once the links of the last run have made way for those of the batch. */
  ghost predicate Replaced(project: ProjectId, batch: seq<ValidRow>, earlier: seq<LinkId>, inserted: seq<LinkId>,
                           before: map<LinkId, Link>, after: map<LinkId, Link>)
  {
    && |inserted| == |batch| && Distinct(inserted)
    && (forall j :: 0 <= j < |batch| ==>
          inserted[j] !in before && inserted[j] in after && after[inserted[j]] == LinkFor(project, batch[j]))
    && OthersKept(earlier, inserted, before, after)
  }

  /** Links of other tasks, and manual ones, are as they were; the links of the last run are gone. */
  predicate OthersKept(earlier: seq<LinkId>, inserted: seq<LinkId>,
                             before: map<LinkId, Link>, after: map<LinkId, Link>)
  {
    && (forall id :: id in after && id !in inserted ==> id in before && id !in earlier && after[id] == before[id])
    && (forall id :: id in before && id !in earlier ==> id in after)
  }

  /** The task has one link for every entry, each checked under the entry at its place in fetch order. */
  ghost predicate Settled(project: ProjectId, batch: seq<ValidRow>, inserted: seq<LinkId>, fetched: seq<LinkId>,
                          links: map<LinkId, Link>, crawl: Crawl)
  {
    && |inserted| == |fetched| == |batch| && Distinct(inserted)
    && (forall i :: 0 <= i < |fetched| ==> fetched[i] in links)
    && (forall i, j :: 0 <= i < |batch| && 0 <= j < |batch| && inserted[j] == fetched[i] ==>
          Checked(batch[i].norm, LinkFor(project, batch[j]), links[fetched[i]],
                  CheckOf(crawl, fetched[i], LinkFor(project, batch[j]))))
  }

  /** A link of the batch that has got so far, under the judgement of the entry at its place. */
  function EntryReached(norm: NormalizedRow, before: Link, reached: Reached, crawled: CrawlResult): Link {
    match reached
    case Waiting => before
    case BeingChecked => if |norm.errors| == 0 then MarkRow(before, CHECKING) else before
    case SavedAt(now) =>
      if |norm.errors| == 0 then SaveRow(MarkRow(before, CHECKING), crawled, now)
      else SaveRow(before, InvalidInput(norm.errors), now)
  }

  /** The task has one link for every entry, each as far as it has got. */
  ghost predicate StoppedShort(project: ProjectId, batch: seq<ValidRow>, inserted: seq<LinkId>, fetched: seq<LinkId>,
                           links: map<LinkId, Link>, crawl: Crawl, reached: LinkId -> Reached)
  {
    && |inserted| == |fetched| == |batch| && Distinct(inserted)
    && (forall i :: 0 <= i < |fetched| ==> fetched[i] in links)
    && (forall i, j :: 0 <= i < |batch| && 0 <= j < |batch| && inserted[j] == fetched[i] ==>
          links[fetched[i]] == EntryReached(batch[i].norm, LinkFor(project, batch[j]), reached(fetched[i]),
                                          CheckOf(crawl, fetched[i], LinkFor(project, batch[j]))))
  }

  /** A completed run: its batch, the batch's links as inserted and as fetched, the tables and the sheet. */
  datatype SheetReport = SheetReport(
    batch: seq<ValidRow>, inserted: seq<LinkId>, fetched: seq<LinkId>,
    links: map<LinkId, Link>, before: Grid, after: Grid)

  /** The links are settled, and every cell of the sheet is what writing them back makes of it. */
  ghost predicate RunResult(project: ProjectId, t: Layout, w: Surroundings, p: SheetReport) {
    && Settled(project, p.batch, p.inserted, p.fetched, p.links, w.crawl)
    && forall r, c :: p.after(r, c)
         == WrittenCell(t, Rows(p.fetched, p.links), RowNumbers(p.batch), w.stamp, p.before, r, c)
  }

  /** The links are settled, and the sheet is written as far as the writes succeed: all, all but the header, or none. */
  ghost predicate IsWritten(project: ProjectId, t: Layout, w: Surroundings, f: Faults, p: SheetReport) {
    && Settled(project, p.batch, p.inserted, p.fetched, p.links, w.crawl)
    && var cells, numbers := Rows(p.fetched, p.links), RowNumbers(p.batch);
       forall r, c :: p.after(r, c)
         == if !WriteFails(t, numbers, f.dataWrite, f.headerWrite)
            then WrittenCell(t, cells, numbers, w.stamp, p.before, r, c)
            else if f.dataWrite then p.before(r, c)
            else DataCell(t, cells, numbers, w.stamp, p.before, r, c)
  }

  lemma CheckedAreSettled(project: ProjectId, batch: seq<ValidRow>, inserted: seq<LinkId>, fetched: seq<LinkId>,
                          start: map<LinkId, Link>, now: map<LinkId, Link>, crawl: Crawl)
    requires |inserted| == |fetched| == |batch| && Distinct(inserted)
    requires forall j :: 0 <= j < |inserted| ==>
      inserted[j] in start && start[inserted[j]] == LinkFor(project, batch[j])
    requires CheckedSo(batch, fetched, Everything(batch), start, now, crawl)
    ensures Settled(project, batch, inserted, fetched, now, crawl)
  {
    forall i | 0 <= i < |fetched|
      ensures fetched[i] in now && fetched[i] in start
      ensures Checked(batch[i].norm, start[fetched[i]], now[fetched[i]], CheckOf(crawl, fetched[i], start[fetched[i]]))
    {
      EverythingIsAll(batch, i);
      assert RowIsSo(batch[i].norm, fetched[i], true, start, now, crawl);
    }
  }

  /** Fetching finds exactly the inserted links, each once. */
  lemma FetchedExist(project: ProjectId, batch: seq<ValidRow>, earlier: seq<LinkId>, inserted: seq<LinkId>,
                     rank: Rank, before: map<LinkId, Link>, start: map<LinkId, Link>)
    requires Replaced(project, batch, earlier, inserted, before, start)
    ensures var fetched := SortByRank(inserted, rank);
      |fetched| == |batch| && Distinct(fetched) && AllExist(start, fetched)
  {
    SortKeepsDistinct(inserted, rank);
    var fetched := SortByRank(inserted, rank);
    forall i | 0 <= i < |fetched| ensures fetched[i] in start {
      assert fetched[i] in inserted;
    }
  }

  lemma CheckingKeepsOthers(project: ProjectId, batch: seq<ValidRow>, earlier: seq<LinkId>, inserted: seq<LinkId>,
                            fetched: seq<LinkId>, before: map<LinkId, Link>, start: map<LinkId, Link>,
                            now: map<LinkId, Link>, crawl: Crawl)
    requires Replaced(project, batch, earlier, inserted, before, start)
    requires |fetched| == |batch| && CheckedSo(batch, fetched, Everything(batch), start, now, crawl)
    requires forall id :: id in fetched ==> id in inserted
    ensures OthersKept(earlier, inserted, before, now)
  {
  }

  lemma NumbersAreRowNumbers(batch: seq<ValidRow>, fetched: seq<LinkId>, links: map<LinkId, Link>)
    requires |fetched| == |batch| && Distinct(fetched) && forall i :: 0 <= i < |fetched| ==> fetched[i] in links
    ensures Numbers(Rows(fetched, links), RowOf(batch, fetched, |batch|)) == RowNumbers(batch)
  {
    forall i | 0 <= i < |batch|
      ensures Numbers(Rows(fetched, links), RowOf(batch, fetched, |batch|))[i] == RowNumbers(batch)[i]
    {
      RowOfLink(batch, fetched, |batch|, i);
    }
  }

  lemma SortKeepsDistinct(ids: seq<LinkId>, rank: Rank)
    requires Distinct(ids)
    ensures Distinct(SortByRank(ids, rank)) && |SortByRank(ids, rank)| == |ids|
    ensures forall id :: id in SortByRank(ids, rank) <==> id in ids
  {
    FetchSorts(ids, rank);
    DistinctIsCounted(ids);
    DistinctIsCounted(SortByRank(ids, rank));
    assert |multiset(ids)| == |ids|;
    forall id ensures id in SortByRank(ids, rank) <==> id in ids {
      assert id in ids <==> id in multiset(ids);
      assert id in SortByRank(ids, rank) <==> id in multiset(SortByRank(ids, rank));
    }
  }

  class SheetsTaskService {
    const locks: Locks.LockManager
    const sheets: SheetsClient
    const links: LinkRepository
    const singleLink: SingleLinkProcessor

    constructor (locks: Locks.LockManager, sheets: SheetsClient, links: LinkRepository,
                 singleLink: SingleLinkProcessor)
      requires singleLink.links == links
      ensures this.locks == locks && this.sheets == sheets && this.links == links && this.singleLink == singleLink
    {
      this.locks, this.sheets, this.links, this.singleLink := locks, sheets, links, singleLink;
    }

    /** Remember which sheet row each link belongs to; pass it on, or fail it if that row is malformed. */
    method JudgeLinks(batch: seq<ValidRow>, fetched: seq<LinkId>, clock: Clock)
      returns (rowOf: map<LinkId, SheetRow>, processable: seq<LinkId>, ghost times: seq<int>)
      requires |fetched| == |batch|
      modifies links`links, clock
      ensures old(clock.now) <= clock.now && |times| == |batch|
      ensures rowOf == RowOf(batch, fetched, |batch|) && processable == Processable(batch, fetched, |batch|)
      ensures links.links == Judged(batch, fetched, |batch|, old(links.links), times)
      ensures forall k :: 0 <= k < |times| ==> old(clock.now) <= times[k] <= clock.now
    {
      rowOf, processable, times := map[], [], [];
      for i := 0 to |fetched|
        invariant old(clock.now) <= clock.now && |times| == i
        invariant rowOf == RowOf(batch, fetched, i) && processable == Processable(batch, fetched, i)
        invariant links.links == Judged(batch, fetched, i, old(links.links), times)
        invariant forall k :: 0 <= k < |times| ==> old(clock.now) <= times[k] <= clock.now
      {
        clock.Pass();
        ghost var earlier := times;
        times := times + [clock.now];
        assert times[..i] == earlier;
        rowOf := rowOf[fetched[i] := batch[i].sheetRow];
        if |batch[i].norm.errors| == 0 {
          processable := processable + [fetched[i]];
        } else {
          var saved := links.SaveResult(fetched[i], InvalidInput(batch[i].norm.errors), clock.now);
        }
      }
    }

    /** Check the accepted links, fifteen at once; inside a chunk their steps come in any order. */
    method CheckAll(batch: seq<ValidRow>, fetched: seq<LinkId>, processable: seq<LinkId>,
                    ghost start: map<LinkId, Link>, crawl: Crawl, clock: Clock)
      requires singleLink.links == links
      requires |fetched| == |batch| && Distinct(fetched)
      requires processable == Processable(batch, fetched, |batch|)
      requires CheckedSo(batch, fetched, Rejected(batch, |batch|), start, links.links, crawl)
      modifies links`links, singleLink.publisher, clock
      ensures old(clock.now) <= clock.now
      ensures CheckedSo(batch, fetched, Everything(batch), start, links.links, crawl)
    {
      ghost var at := Accepted(batch, |batch|);
      AcceptedAscend(batch, |batch|);
      ProcessableArePicked(batch, fetched, |batch|);
      PickIsDistinct(fetched, at);
      assert Through(batch, at, 0) == Rejected(batch, |batch|);
      var i := 0;
      while i < |processable|
        invariant i <= |processable| && old(clock.now) <= clock.now
        invariant CheckedSo(batch, fetched, Through(batch, at, i), start, links.links, crawl)
      {
        var j := Bulk.Minimum(i + Bulk.INTERNAL_CONCURRENCY, |processable|);
        ghost var before := links.links;
        SliceIsDistinct(processable, i, j);
        ghost var writes, events;
        writes, events := singleLink.ProcessAll(processable[i..j], crawl, clock);
        SliceIsChecked(batch, fetched, at, i, j, start, before, writes, crawl);
        i := j;
      }
    }

    /** Replace the task's links by one per entry of the batch, and fetch them back. */
    method SyncLinks(taskId: TaskId, project: ProjectId, batch: seq<ValidRow>, newId: nat -> LinkId)
      returns (fetched: seq<LinkId>)
      requires FreshIds(newId, links.links)
      modifies links`links, links`batches
      ensures fetched == SortByRank(links.BatchOf(taskId), links.rank)
      ensures Replaced(project, batch, old(links.BatchOf(taskId)), links.BatchOf(taskId), old(links.links), links.links)
      ensures links.batches == old(links.batches)[taskId := Ids(newId, |batch|)]
    {
      FreshIdsAreNew(newId, links.links, |batch|);
      links.ReplaceSheetsLinks(taskId, project, Inputs(batch), Ids(newId, |batch|));
      var rows := links.FindLinksBySheetsTaskOrdered(taskId);
      fetched := seq(|rows|, i requires 0 <= i < |rows| => rows[i].0);
    }

    /** Judge every fetched link by the entry at its place, then check those that passed. */
    method CheckBatch(batch: seq<ValidRow>, fetched: seq<LinkId>, crawl: Crawl, clock: Clock)
      returns (rowOf: map<LinkId, SheetRow>)
      requires singleLink.links == links
      requires |fetched| == |batch| && Distinct(fetched) && AllExist(links.links, fetched)
      modifies links`links, singleLink.publisher, clock
      ensures old(clock.now) <= clock.now
      ensures rowOf == RowOf(batch, fetched, |batch|)
      ensures CheckedSo(batch, fetched, Everything(batch), old(links.links), links.links, crawl)
    {
      ghost var start := links.links;
      var processable;
      ghost var times;
      rowOf, processable, times := JudgeLinks(batch, fetched, clock);
      JudgedAreChecked(batch, fetched, |batch|, start, times, crawl);
      CheckAll(batch, fetched, processable, start, crawl, clock);
    }

    /** Everything between reading the sheet and writing it. */
    method ProcessBatch(taskId: TaskId, project: ProjectId, batch: seq<ValidRow>, w: Surroundings, clock: Clock)
      returns (rowOf: map<LinkId, SheetRow>, ghost inserted: seq<LinkId>, ghost fetched: seq<LinkId>)
      requires singleLink.links == links && FreshIds(w.newId, links.links)
      modifies links`links, links`batches, singleLink.publisher, clock
      ensures old(clock.now) <= clock.now
      ensures inserted == links.BatchOf(taskId) && fetched == SortByRank(inserted, links.rank)
      ensures Settled(project, batch, inserted, fetched, links.links, w.crawl)
      ensures rowOf == RowOf(batch, fetched, |batch|)
      ensures OthersKept(old(links.BatchOf(taskId)), inserted, old(links.links), links.links)
      ensures links.batches == old(links.batches)[taskId := Ids(w.newId, |batch|)]
    {
      ghost var earlier, before := links.BatchOf(taskId), links.links;
      var rows := SyncLinks(taskId, project, batch, w.newId);
      ghost var start := links.links;
      inserted, fetched := links.BatchOf(taskId), rows;
      FetchedExist(project, batch, earlier, inserted, links.rank, before, start);
      rowOf := CheckBatch(batch, rows, w.crawl, clock);
      CheckedAreSettled(project, batch, inserted, fetched, start, links.links, w.crawl);
      SortKeepsDistinct(inserted, links.rank);
      CheckingKeepsOthers(project, batch, earlier, inserted, fetched, before, start, links.links, w.crawl);
    }

    /** Fetch the links again, now checked, and write them beside their rows. */
    method WriteBack(taskId: TaskId, t: Layout, w: Surroundings, project: ProjectId, batch: seq<ValidRow>,
                     rowOf: map<LinkId, SheetRow>, f: Faults, ghost inserted: seq<LinkId>, ghost fetched: seq<LinkId>)
      returns (ok: bool)
      requires inserted == links.BatchOf(taskId) && fetched == SortByRank(inserted, links.rank)
      requires Settled(project, batch, inserted, fetched, links.links, w.crawl)
      requires rowOf == RowOf(batch, fetched, |batch|)
      modifies sheets
      ensures ok ==> RunResult(project, t, w,
        SheetReport(batch, inserted, fetched, links.links, old(sheets.grid), sheets.grid))
      ensures SourceKept(t, old(sheets.grid), sheets.grid)
      ensures ok <==> !WriteFails(t, RowNumbers(batch), f.dataWrite, f.headerWrite)
      ensures !ok ==> forall r, c :: sheets.grid(r, c) == if f.dataWrite then old(sheets.grid)(r, c)
        else DataCell(t, Rows(fetched, links.links), RowNumbers(batch), w.stamp, old(sheets.grid), r, c)
    {
      SortKeepsDistinct(inserted, links.rank);
      var finalLinks := links.FindLinksBySheetsTaskOrdered(taskId);
      assert finalLinks == Rows(fetched, links.links);
      NumbersAreRowNumbers(batch, fetched, links.links);
      ok := WriteResultsBack(sheets, t, finalLinks, rowOf, w.stamp, f.dataWrite, f.headerWrite);
    }

    /** The batch a sheet stands for. */
    function SheetBatch(w: Surroundings, task: Task, grid: Grid): seq<ValidRow>
      requires WellFormed(task)
    {
      Batch(JudgeBy(w.urls), DataRows(grid, LayoutOf(task), sheets.Height(LayoutOf(task))))
    }

    /** The report speaks of this task's links, of the table and of the sheet as they now are. */
    ghost predicate Describes(p: SheetReport, taskId: TaskId)
      reads links`links, links`batches, sheets
    {
      && p.inserted == links.BatchOf(taskId) && p.fetched == SortByRank(p.inserted, links.rank)
      && p.links == links.links && p.after == sheets.grid
    }

    /** The rows of the fetched links, each as far as it has got. */
    method CutRows(batch: seq<ValidRow>, fetched: seq<LinkId>, crawl: Crawl, reached: LinkId -> Reached)
      requires |fetched| == |batch| && Distinct(fetched) && AllExist(links.links, fetched)
      modifies links`links
      ensures links.links.Keys == old(links.links).Keys
      ensures forall id :: id in links.links && id !in fetched ==> links.links[id] == old(links.links)[id]
      ensures forall i :: 0 <= i < |fetched| ==>
        var row := old(links.links)[fetched[i]];
        links.links[fetched[i]]
          == EntryReached(batch[i].norm, row, reached(fetched[i]), CheckOf(crawl, fetched[i], row))
    {
      ghost var start := links.links;
      for i := 0 to |fetched|
        invariant links.links.Keys == start.Keys
        invariant forall id :: id in start && id !in fetched[..i] ==> links.links[id] == start[id]
        invariant forall k :: 0 <= k < i ==> links.links[fetched[k]] == EntryReached(
          batch[k].norm, start[fetched[k]], reached(fetched[k]), CheckOf(crawl, fetched[k], start[fetched[k]]))
      {
        assert fetched[i] !in fetched[..i];
        var row := links.links[fetched[i]];
        links.links := links.links[fetched[i] :=
          EntryReached(batch[i].norm, row, reached(fetched[i]), CheckOf(crawl, fetched[i], row))];
      }
    }

    /** An error strikes while the batch is under way. */
    method Abandon(taskId: TaskId, project: ProjectId, batch: seq<ValidRow>, w: Surroundings, cut: Cut)
      requires FreshIds(w.newId, links.links)
      modifies links`links, links`batches
      ensures !cut.synced ==> links.links == old(links.links) && links.batches == old(links.batches)
      ensures cut.synced ==>
        && links.batches == old(links.batches)[taskId := Ids(w.newId, |batch|)]
        && StoppedShort(project, batch, links.BatchOf(taskId), SortByRank(links.BatchOf(taskId), links.rank),
                    links.links, w.crawl, cut.reached)
      ensures cut.synced ==>
        OthersKept(old(links.BatchOf(taskId)), links.BatchOf(taskId), old(links.links), links.links)
    {
      if cut.synced {
        ghost var earlier, before := links.BatchOf(taskId), links.links;
        var fetched := SyncLinks(taskId, project, batch, w.newId);
        FetchedExist(project, batch, earlier, links.BatchOf(taskId), links.rank, before, links.links);
        SortKeepsDistinct(links.BatchOf(taskId), links.rank);
        CutRows(batch, fetched, w.crawl, cut.reached);
      }
    }

    /** From the batch to the written sheet; the write-back may fail. */
    method Deliver(taskId: TaskId, task: Task, batch: seq<ValidRow>, w: Surroundings, f: Faults, clock: Clock)
      returns (ok: bool, summary: string, ghost p: SheetReport)
      requires singleLink.links == links && WellFormed(task) && FreshIds(w.newId, links.links)
      modifies links`links, links`batches, singleLink.publisher, sheets, clock
      ensures old(clock.now) <= clock.now
      ensures SourceKept(LayoutOf(task), old(sheets.grid), sheets.grid)
      ensures Describes(p, taskId) && p.before == old(sheets.grid) && p.batch == batch
      ensures IsWritten(task.projectId, LayoutOf(task), w, f, p)
      ensures OthersKept(old(links.BatchOf(taskId)), p.inserted, old(links.links), p.links)
      ensures summary == Summary(ProgressCounts(p.links, p.inserted), |batch|)
      ensures ok <==> !WriteFails(LayoutOf(task), RowNumbers(batch), f.dataWrite, f.headerWrite)
      ensures links.batches == old(links.batches)[taskId := Ids(w.newId, |batch|)]
    {
      var rowOf;
      ghost var inserted, fetched;
      rowOf, inserted, fetched := ProcessBatch(taskId, task.projectId, batch, w, clock);
      ok := WriteBack(taskId, LayoutOf(task), w, task.projectId, batch, rowOf, f, inserted, fetched);
      p := SheetReport(batch, inserted, fetched, links.links, old(sheets.grid), sheets.grid);
      var final := links.GetSheetsProgressCounts(taskId);
      summary := Summary(final, |batch|);
    }

    /** The report tells of a completed run of this task over this sheet. */
    ghost predicate Delivered(taskId: TaskId, task: Task, w: Surroundings, p: SheetReport)
      requires WellFormed(task)
      reads links`links, links`batches, sheets
    {
      && Describes(p, taskId) && p.batch == SheetBatch(w, task, p.before)
      && RunResult(task.projectId, LayoutOf(task), w, p)
    }

    /**
     * What a run leaves of the links and the sheet. Stopped before the batch it leaves both
     * alone; stopped during the batch, the sheet; else the links are settled, and the sheet
     * is written as far as the writes succeed.
     */
    ghost predicate Leaves(taskId: TaskId, task: Task, w: Surroundings, f: Faults, starts: bool, p: SheetReport,
                           rows: map<LinkId, Link>, batches: map<TaskId, seq<LinkId>>)
      requires WellFormed(task)
      reads links`links, links`batches, sheets
    {
      if !starts || (f.batch.Some? && !f.batch.value.synced) then
        links.links == rows && links.batches == batches && sheets.grid == p.before
      else
        && links.batches == batches[taskId := Ids(w.newId, |p.batch|)]
        && var inserted, fetched := links.BatchOf(taskId), SortByRank(links.BatchOf(taskId), links.rank);
           if f.batch.Some? then
             && sheets.grid == p.before
             && StoppedShort(task.projectId, p.batch, inserted, fetched, links.links, w.crawl, f.batch.value.reached)
           else
             Describes(p, taskId) && IsWritten(task.projectId, LayoutOf(task), w, f, p)
    }

    /**
     * How the run of a task went: it worked exactly if nothing went wrong between its start
     * and its last status write; then the sheet is delivered and the summary counts the
     * links. However it went, links of other tasks and the columns outside the result
     * block are as they were.
     */
    ghost predicate Went(taskId: TaskId, task: Task, w: Surroundings, f: Faults, starts: bool, p: SheetReport,
                         rows: map<LinkId, Link>, batches: map<TaskId, seq<LinkId>>, worked: bool, summary: string)
      requires WellFormed(task)
      reads links`links, links`batches, sheets
    {
      && p.batch == SheetBatch(w, task, p.before)
      && (worked <==>
            starts && f.batch.None? && !WriteFails(LayoutOf(task), RowNumbers(p.batch), f.dataWrite, f.headerWrite))
      && Leaves(taskId, task, w, f, starts, p, rows, batches)
      && (worked ==>
            Delivered(taskId, task, w, p) && summary == Summary(ProgressCounts(p.links, p.inserted), |p.batch|))
      && OthersKept(if taskId in batches then batches[taskId] else [], links.BatchOf(taskId), rows, links.links)
      && SourceKept(LayoutOf(task), p.before, sheets.grid)
    }

    /** A failing status write leaves the task as it was. */
    method Record(taskId: TaskId, status: TaskStatus, summary: Option<string>, fails: bool, clock: Clock)
      requires taskId in links.tasks
      modifies links`tasks
      ensures links.tasks == if fails then old(links.tasks)
        else old(links.tasks)[taskId := TaskAfter(old(links.tasks)[taskId], status, summary, clock.now)]
    {
      if !fails {
        var ok := links.SetSheetsTaskStatus(taskId, status, summary, clock.now);
      }
    }

    /** The task once its run has begun. */
    function Running(before: TaskState, f: Faults): TaskState {
      if f.startWrite then before else TaskState(RUNNING, true, before.lastRunAt, before.lastRunStatus)
    }

    /**
     * The try block up to the batch. It stops early exactly if the status write fails, the
     * project row is gone, the sheet has no such tab, or the sheet cannot be read.
     */
    method Start(taskId: TaskId, task: Task, w: Surroundings, f: Faults, clock: Clock)
      returns (batch: Option<seq<ValidRow>>)
      requires WellFormed(task) && taskId in links.tasks
      modifies links`tasks, links`sheetsChecking
      ensures links.tasks == old(links.tasks)[taskId := Running(old(links.tasks)[taskId], f)]
      ensures links.sheetsChecking == if f.startWrite then old(links.sheetsChecking)
        else FlagSet(old(links.sheetsChecking), task.projectId, true)
      ensures batch.Some? <==> Starts(w, task.projectId in old(links.sheetsChecking), f)
      ensures batch.Some? ==> batch.value == SheetBatch(w, task, sheets.grid)
    {
      Record(taskId, RUNNING, None, f.startWrite, clock);
      if f.startWrite { return None; }
      var raised := links.SetProjectSheetsChecking(task.projectId, true);
      if !raised || !w.titleFound || f.read { return None; }
      var rows := sheets.ReadDonorRows(LayoutOf(task));
      var validRows := KeepValidRows(w.urls, rows);
      batch := Some(validRows);
    }

    /** From the batch on, unless an error strikes. */
    method TryDeliver(taskId: TaskId, task: Task, batch: seq<ValidRow>, w: Surroundings, f: Faults, clock: Clock)
      returns (worked: bool, summary: string, ghost p: SheetReport)
      requires singleLink.links == links && WellFormed(task) && FreshIds(w.newId, links.links)
      requires batch == SheetBatch(w, task, sheets.grid)
      modifies links`links, links`batches, singleLink.publisher, sheets, clock
      ensures old(clock.now) <= clock.now && p.before == old(sheets.grid)
      ensures Went(taskId, task, w, f, true, p, old(links.links), old(links.batches), worked, summary)
    {
      worked, summary := false, "";
      p := SheetReport(batch, [], [], map[], sheets.grid, sheets.grid);
      if f.batch.Some? {
        Abandon(taskId, task.projectId, batch, w, f.batch.value);
      } else {
        worked, summary, p := Deliver(taskId, task, batch, w, f, clock);
      }
    }

    /** The body of the try block, but for its last status write. */
    method Work(taskId: TaskId, task: Task, w: Surroundings, f: Faults, clock: Clock)
      returns (worked: bool, summary: string, ghost p: SheetReport)
      requires singleLink.links == links && WellFormed(task) && FreshIds(w.newId, links.links)
      requires taskId in links.tasks
      modifies links, singleLink.publisher, sheets, clock
      ensures old(clock.now) <= clock.now && p.before == old(sheets.grid)
      ensures links.tasks == old(links.tasks)[taskId := Running(old(links.tasks)[taskId], f)]
      ensures links.sheetsChecking == if f.startWrite then old(links.sheetsChecking)
        else FlagSet(old(links.sheetsChecking), task.projectId, true)
      ensures Went(taskId, task, w, f, Starts(w, task.projectId in old(links.sheetsChecking), f), p,
                   old(links.links), old(links.batches), worked, summary)
    {
      worked, summary := false, "";
      p := SheetReport(SheetBatch(w, task, sheets.grid), [], [], map[], sheets.grid, sheets.grid);
      var batch := Start(taskId, task, w, f, clock);
      if batch.Some? {
        worked, summary, p := TryDeliver(taskId, task, batch.value, w, f, clock);
      }
    }

    /** The task once its run is over; a failure that cannot be recorded leaves what was there. */
    function Ended(before: TaskState, worked: bool, summary: string, f: Faults, now: int): TaskState {
      if worked && !f.doneWrite && (!f.lookup || f.failWrite) then TaskState(COMPLETED, false, Some(now), Some(summary))
      else if f.failWrite then Running(before, f)
      else TaskState(FAILED, false, Some(now), Some("failed"))
    }

    /** The last status write, and the catch block if that write or the lookup after it throws. */
    method Conclude(taskId: TaskId, worked: bool, summary: string, f: Faults, ghost before: TaskState, clock: Clock)
      returns (ok: bool)
      requires taskId in links.tasks && links.tasks[taskId] == Running(before, f)
      modifies links`tasks
      ensures ok <==> worked && !f.doneWrite && !f.lookup
      ensures links.tasks == old(links.tasks)[taskId := Ended(before, worked, summary, f, clock.now)]
    {
      if worked { Record(taskId, COMPLETED, Some(summary), f.doneWrite, clock); }
      ok := worked && !f.doneWrite && !f.lookup;
      if !ok { Record(taskId, FAILED, Some("failed"), f.failWrite, clock); }
    }

    /** The try block and its catch: the task says how the run ended, unless recording that fails as well. */
    method TryWork(taskId: TaskId, task: Task, w: Surroundings, f: Faults, clock: Clock)
      returns (ok: bool, worked: bool, summary: string, ghost p: SheetReport)
      requires singleLink.links == links && WellFormed(task) && FreshIds(w.newId, links.links)
      requires taskId in links.tasks
      modifies links, singleLink.publisher, sheets, clock
      ensures old(clock.now) <= clock.now && p.before == old(sheets.grid)
      ensures ok <==> worked && !f.doneWrite && !f.lookup
      ensures links.tasks == old(links.tasks)[taskId :=
        Ended(old(links.tasks)[taskId], worked, summary, f, clock.now)]
      ensures links.sheetsChecking == if f.startWrite then old(links.sheetsChecking)
        else FlagSet(old(links.sheetsChecking), task.projectId, true)
      ensures Went(taskId, task, w, f, Starts(w, task.projectId in old(links.sheetsChecking), f), p,
                   old(links.links), old(links.batches), worked, summary)
    {
      ghost var before := links.tasks[taskId];
      worked, summary, p := Work(taskId, task, w, f, clock);
      ok := Conclude(taskId, worked, summary, f, before, clock);
    }

    /** And the first half of `finally`: the project's flag comes down, unless that write fails. */
    method WorkUnderLock(taskId: TaskId, task: Task, w: Surroundings, f: Faults, clock: Clock)
      returns (ok: bool, worked: bool, summary: string, ghost p: SheetReport)
      requires singleLink.links == links && WellFormed(task) && FreshIds(w.newId, links.links)
      requires taskId in links.tasks
      modifies links, singleLink.publisher, sheets, clock
      ensures old(clock.now) <= clock.now && p.before == old(sheets.grid)
      ensures ok <==> worked && !f.doneWrite && !f.lookup
      ensures links.tasks == old(links.tasks)[taskId :=
        Ended(old(links.tasks)[taskId], worked, summary, f, clock.now)]
      ensures links.sheetsChecking == if f.startWrite && f.clear then old(links.sheetsChecking)
        else FlagSet(old(links.sheetsChecking), task.projectId, f.clear)
      ensures Went(taskId, task, w, f, Starts(w, task.projectId in old(links.sheetsChecking), f), p,
                   old(links.links), old(links.batches), worked, summary)
    {
      ok, worked, summary, p := TryWork(taskId, task, w, f, clock);
      if !f.clear {
        var cleared := links.SetProjectSheetsChecking(task.projectId, false);
      }
    }

    /** The second half of `finally`: the lock key goes, unless deleting it fails. */
    method GiveBack(key: string, token: Locks.Token, releaseFails: bool, clock: Clock,
                    ghost before: map<string, Locks.Cell>, ghost until: int)
      requires locks.redis.cells == before[key := Locks.Cell(token, until)]
      modifies locks.redis, clock
      ensures old(clock.now) <= clock.now
      ensures locks.redis.cells == if releaseFails then before[key := Locks.Cell(token, until)] else before - {key}
    {
      clock.Pass();
      if !releaseFails {
        var released := locks.Release(key, clock.now, token);
        Locks.TakenAndGone(before, key, Locks.Cell(token, until));
      }
    }

    /** The run proper, from the lock that was taken to the lock that is given back. */
    method RunLocked(taskId: TaskId, task: Task, w: Surroundings, key: string, token: Locks.Token, f: Faults,
                     clock: Clock, ghost before: map<string, Locks.Cell>, ghost until: int)
      returns (ok: bool, worked: bool, summary: string, ghost p: SheetReport, ghost ended: int)
      requires singleLink.links == links && WellFormed(task) && FreshIds(w.newId, links.links)
      requires taskId in links.tasks && locks.redis.cells == before[key := Locks.Cell(token, until)]
      modifies locks.redis, links, singleLink.publisher, sheets, clock
      ensures old(clock.now) <= ended <= clock.now && p.before == old(sheets.grid)
      ensures locks.redis.cells == if f.release then before[key := Locks.Cell(token, until)] else before - {key}
      ensures ok <==> worked && !f.doneWrite && !f.lookup
      ensures links.tasks == old(links.tasks)[taskId := Ended(old(links.tasks)[taskId], worked, summary, f, ended)]
      ensures links.sheetsChecking == if f.startWrite && f.clear then old(links.sheetsChecking)
        else FlagSet(old(links.sheetsChecking), task.projectId, f.clear)
      ensures Went(taskId, task, w, f, Starts(w, task.projectId in old(links.sheetsChecking), f), p,
                   old(links.links), old(links.batches), worked, summary)
    {
      ok, worked, summary, p := WorkUnderLock(taskId, task, w, f, clock);
      ended := clock.now;
      GiveBack(key, token, f.release, clock, before, until);
    }

    /**
     * One run. It does nothing exactly if the task is gone or another sheets run of the
     * project holds the lock. Otherwise it works, and completes exactly if nothing goes
     * wrong; however it ends, the columns outside the result block and the links of other
     * tasks are as they were, the task says how it ended unless recording that failed, the
     * project's flag is down unless lowering it failed, and the lock is free unless
     * deleting it failed.
     */
    method Run(taskId: TaskId, task: Task, w: Surroundings, token: Locks.Token, f: Faults, clock: Clock)
      returns (outcome: Outcome, worked: bool, summary: string, ghost p: SheetReport, ghost ended: int)
      requires singleLink.links == links && WellFormed(task) && FreshIds(w.newId, links.links)
      modifies locks.redis, links, singleLink.publisher, sheets, clock
      ensures old(clock.now) <= ended <= clock.now
      ensures outcome.Skipped? <==>
        var key := "lock:project:" + task.projectId + ":sheets";
        taskId !in old(links.tasks) ||
        (key in old(locks.redis.cells) && old(clock.now) < old(locks.redis.cells)[key].expireAt)
      ensures outcome.Skipped? ==>
        && links.links == old(links.links) && links.tasks == old(links.tasks) && links.batches == old(links.batches)
        && links.sheetsChecking == old(links.sheetsChecking)
        && sheets.grid == old(sheets.grid) && locks.redis.cells == old(locks.redis.cells)
        && singleLink.publisher.log == old(singleLink.publisher.log)
      ensures !outcome.Skipped? ==>
        var key := "lock:project:" + task.projectId + ":sheets";
        && locks.redis.cells == (if f.release
             then old(locks.redis.cells)[key := Locks.Cell(token, old(clock.now) + 1_800_000)]
             else old(locks.redis.cells) - {key})
        && links.sheetsChecking == (if f.startWrite && f.clear then old(links.sheetsChecking)
             else FlagSet(old(links.sheetsChecking), task.projectId, f.clear))
        && links.tasks == old(links.tasks)[taskId :=
             Ended(old(links.tasks)[taskId], worked, summary, f, ended)]
        && p.before == old(sheets.grid)
        && Went(taskId, task, w, f, Starts(w, task.projectId in old(links.sheetsChecking), f), p,
                old(links.links), old(links.batches), worked, summary)
        && (outcome.Completed? <==>
              GoesWell(w, task.projectId in old(links.sheetsChecking), LayoutOf(task), p.batch, f))
      ensures outcome.Completed? ==>
        && task.projectId in old(links.sheetsChecking) && w.titleFound && !f.startWrite && !f.read && f.batch.None?
        && links.tasks[taskId] == TaskState(COMPLETED, false, Some(ended), Some(summary))
      ensures outcome.Failed? && !f.failWrite ==>
        links.tasks[taskId] == TaskState(FAILED, false, Some(ended), Some("failed"))
    {
      outcome, worked, summary, ended := Skipped, false, "", clock.now;
      p := SheetReport([], [], [], map[], sheets.grid, sheets.grid);
      if taskId !in links.tasks { return; }
      var key := "lock:project:" + task.projectId + ":sheets";
      var acquired := locks.Acquire(key, clock.now, PROJECT_LOCK_TTL_MS, token);
      if acquired {
        var ok;
        ok, worked, summary, p, ended := RunLocked(taskId, task, w, key, token, f, clock,
                                                   old(locks.redis.cells), old(clock.now) + 1_800_000);
        outcome := if ok then Completed else Failed;
      }
    }
  }
}
