/**
 * The Link table and the writes the worker makes to it
 * (apps/worker/src/modules/queue/link.repository.ts).
 */
module LinkRows {
  import opened Options
  import opened CrawlResults

  type LinkId = string
  type ProjectId = string
  type TaskId = string

  datatype Status = PENDING | QUEUED | CHECKING | DONE | ERROR

  datatype Link = Link(
    projectId: ProjectId, donorUrl: string, acceptorRaw: string, acceptorHost: string,
    status: Status,
    donorStatusCode: Option<int>, donorFinalUrl: Option<string>, donorRedirectChain: Option<seq<string>>,
    donorIndexable: Option<bool>, donorMetaRobots: Option<string>, donorXRobotsTag: Option<string>,
    donorCanonical: Option<string>, canonicalMatches: Option<bool>,
    linkFound: Option<bool>, occurrences: Option<seq<Occurrence>>, occurrencesCount: nat,
    error: Option<string>, checkDurationMs: Option<nat>, lastCheckedAt: Option<int>)

  /** A row as it is created: pending, and nothing known about the donor. */
  function NewLink(projectId: ProjectId, donorUrl: string, acceptorRaw: string, acceptorHost: string): Link {
    Link(projectId, donorUrl, acceptorRaw, acceptorHost, PENDING,
         None, None, None, None, None, None, None, None, None, None, 0, None, None, None)
  }

  function MarkRow(row: Link, status: Status): Link {
    row.(status := status)
  }

  /** A null list is sent as `undefined`, which leaves the stored column as it was. */
  function KeepIfNull<T>(stored: Option<T>, sent: Option<T>): Option<T> {
    if sent.None? then stored else sent
  }

  function SaveRow(row: Link, r: CrawlResult, now: int): Link {
    row.(
      status := if r.ok then DONE else ERROR,
      donorStatusCode := r.donorStatusCode,
      donorFinalUrl := r.donorFinalUrl,
      donorRedirectChain := KeepIfNull(row.donorRedirectChain, r.donorRedirectChain),
      donorIndexable := r.donorIndexable,
      donorMetaRobots := r.donorMetaRobots,
      donorXRobotsTag := r.donorXRobotsTag,
      donorCanonical := r.donorCanonical,
      canonicalMatches := r.canonicalMatches,
      linkFound := r.linkFound,
      occurrences := KeepIfNull(row.occurrences, r.occurrences),
      occurrencesCount := r.occurrencesCount,
      error := r.error,
      checkDurationMs := Some(r.durationMs),
      lastCheckedAt := Some(now))
  }

  /** The result a finished row shows. */
  function ResultOf(row: Link): CrawlResult {
    CrawlResult(row.status == DONE,
                row.donorStatusCode, row.donorFinalUrl, row.donorRedirectChain,
                row.donorIndexable, row.donorMetaRobots, row.donorXRobotsTag,
                row.donorCanonical, row.canonicalMatches,
                row.linkFound, row.occurrences, row.occurrencesCount,
                row.error, if row.checkDurationMs.Some? then row.checkDurationMs.value else 0)
  }

  /**
   * A saved result can be read back from its row, except that a null list reads back
   * as the list stored before; what the user entered is never written.
   */
  lemma SavedResultReadsBack(row: Link, r: CrawlResult, now: int)
    ensures var saved := SaveRow(row, r, now);
      && (ResultOf(saved) == r <==>
            (r.donorRedirectChain.None? ==> row.donorRedirectChain.None?)
            && (r.occurrences.None? ==> row.occurrences.None?))
      && saved.lastCheckedAt == Some(now)
      && (saved.projectId, saved.donorUrl, saved.acceptorRaw, saved.acceptorHost)
         == (row.projectId, row.donorUrl, row.acceptorRaw, row.acceptorHost)
  {
    var saved := SaveRow(row, r, now);
    assert ResultOf(saved).donorRedirectChain == KeepIfNull(row.donorRedirectChain, r.donorRedirectChain);
    assert ResultOf(saved).occurrences == KeepIfNull(row.occurrences, r.occurrences);
  }

  /** What each write makes of a row, column by column. */
  lemma WrittenColumns(row: Link, status: Status, r: CrawlResult, now: int)
    ensures MarkRow(row, status) == row.(status := status)
    ensures SaveRow(row, r, now) == Link(
      row.projectId, row.donorUrl, row.acceptorRaw, row.acceptorHost, if r.ok then DONE else ERROR,
      r.donorStatusCode, r.donorFinalUrl,
      if r.donorRedirectChain.Some? then r.donorRedirectChain else row.donorRedirectChain,
      r.donorIndexable, r.donorMetaRobots, r.donorXRobotsTag, r.donorCanonical, r.canonicalMatches,
      r.linkFound, if r.occurrences.Some? then r.occurrences else row.occurrences, r.occurrencesCount,
      r.error, Some(r.durationMs), Some(now))
  {
  }

  // ----- what a row's status says about the row -----

  datatype Write = Mark(status: Status) | Save(result: CrawlResult, now: int)

  /** The worker marks rows QUEUED or CHECKING and saves only consistent results. */
  predicate Allowed(w: Write) {
    match w
    case Mark(status) => status == QUEUED || status == CHECKING
    case Save(result, _) => Consistent(result)
  }

  function WriteRow(row: Link, w: Write): Link {
    match w
    case Mark(status) => MarkRow(row, status)
    case Save(result, now) => SaveRow(row, result, now)
  }

  function WriteAll(row: Link, writes: seq<Write>): Link
    decreases writes
  {
    if writes == [] then row else WriteAll(WriteRow(row, writes[0]), writes[1..])
  }

  predicate StatusIsTrue(row: Link) {
    && (row.status == DONE ==>
          && row.error.None? && row.occurrences.Some?
          && row.occurrencesCount == |row.occurrences.value|
          && row.linkFound == Some(0 < row.occurrencesCount))
    && (row.status == ERROR ==> row.error.Some? && row.linkFound.None? && row.occurrencesCount == 0)
  }

  /**
   * Under any interleaving of marks and saves by any processors, a row that reads
   * DONE or ERROR carries exactly what that status promises.
   */
  lemma {:induction false} StatusStaysTrue(row: Link, writes: seq<Write>)
    requires StatusIsTrue(row) && forall w :: w in writes ==> Allowed(w)
    ensures StatusIsTrue(WriteAll(row, writes))
    decreases writes
  {
    if writes != [] {
      assert Allowed(writes[0]);
      StatusStaysTrue(WriteRow(row, writes[0]), writes[1..]);
    }
  }

  /**
   * A failed check keeps the occurrences of the check before it and sets the count
   * to 0: afterwards count and list agree exactly when that list was absent or empty.
   */
  lemma FailureKeepsOldOccurrences(row: Link, r: CrawlResult, now: int)
    requires Consistent(r) && !r.ok
    ensures var saved := SaveRow(row, r, now);
      && saved.occurrences == row.occurrences
      && (saved.occurrencesCount == (if saved.occurrences.Some? then |saved.occurrences.value| else 0)
          <==> row.occurrences.None? || row.occurrences == Some([]))
  {
  }

  // ----- many rows -----

  /** The writes of a run that concern one link, in order. */
  function WritesOf(run: seq<(LinkId, Write)>, id: LinkId): seq<Write> {
    if run == [] then []
    else (if run[0].0 == id then [run[0].1] else []) + WritesOf(run[1..], id)
  }

  function Table(links: map<LinkId, Link>, run: seq<(LinkId, Write)>): map<LinkId, Link>
    decreases run
  {
    if run == [] then links
    else
      var (id, w) := run[0];
      Table(if id in links then links[id := WriteRow(links[id], w)] else links, run[1..])
  }

  /**
   * Rows do not interfere: in any interleaving of writes to many rows, each row ends
   * as if only its own writes had run. Parallel checks of different links may
   * therefore be taken in any order.
   */
  lemma {:induction false} RowsAreIndependent(links: map<LinkId, Link>, run: seq<(LinkId, Write)>, id: LinkId)
    ensures Table(links, run).Keys == links.Keys
    ensures id in links ==> Table(links, run)[id] == WriteAll(links[id], WritesOf(run, id))
    decreases run
  {
    if run != [] {
      var (first, w) := run[0];
      var next := if first in links then links[first := WriteRow(links[first], w)] else links;
      RowsAreIndependent(next, run[1..], id);
      if first == id {
        assert ([w] + WritesOf(run[1..], id))[1..] == WritesOf(run[1..], id);
      } else {
        assert [] + WritesOf(run[1..], id) == WritesOf(run[1..], id);
      }
    }
  }

  /** Two interleavings of the same per-link writes leave the same table. */
  lemma InterleavingIsIrrelevant(links: map<LinkId, Link>, a: seq<(LinkId, Write)>, b: seq<(LinkId, Write)>)
    requires forall id :: WritesOf(a, id) == WritesOf(b, id)
    ensures Table(links, a) == Table(links, b)
  {
    forall id | id in links
      ensures id in Table(links, a) && id in Table(links, b) && Table(links, a)[id] == Table(links, b)[id]
    {
      RowsAreIndependent(links, a, id);
      RowsAreIndependent(links, b, id);
      assert WritesOf(a, id) == WritesOf(b, id);
    }
    RowsAreIndependent(links, a, "");
    RowsAreIndependent(links, b, "");
  }

  // ----- progress counts -----

  /** The rows among `ids` that read `status`. */
  function WithStatus(links: map<LinkId, Link>, ids: seq<LinkId>, status: Status): set<LinkId> {
    set id | id in ids && id in links && links[id].status == status
  }

  function Found(links: map<LinkId, Link>, ids: seq<LinkId>): set<LinkId> {
    set id | id in ids && id in links && links[id].linkFound == Some(true)
  }

  datatype Counts = Counts(total: nat, processed: nat, found: nat, errors: nat)

  function ProgressCounts(links: map<LinkId, Link>, ids: seq<LinkId>): Counts {
    var done, errors := |WithStatus(links, ids, DONE)|, |WithStatus(links, ids, ERROR)|;
    Counts(|ids|, done + errors, |Found(links, ids)|, errors)
  }

  /** The four counts, each by what it counts. */
  lemma CountsInPlainTerms(links: map<LinkId, Link>, ids: seq<LinkId>)
    ensures var c := ProgressCounts(links, ids);
      && c.total == |ids|
      && c.processed == |set id | id in ids && id in links && (links[id].status == DONE || links[id].status == ERROR)|
      && c.found == |set id | id in ids && id in links && links[id].linkFound == Some(true)|
      && c.errors == |set id | id in ids && id in links && links[id].status == ERROR|
  {
    var done, errors := WithStatus(links, ids, DONE), WithStatus(links, ids, ERROR);
    assert done !! errors && |done + errors| == |done| + |errors|;
    assert done + errors
        == set id | id in ids && id in links && (links[id].status == DONE || links[id].status == ERROR);
    assert errors == set id | id in ids && id in links && links[id].status == ERROR;
    assert Found(links, ids) == set id | id in ids && id in links && links[id].linkFound == Some(true);
  }

  predicate Distinct<T(==)>(s: seq<T>) {
    forall i, j :: 0 <= i < j < |s| ==> s[i] != s[j]
  }

  lemma {:induction false} DistinctSize<T>(s: seq<T>)
    requires Distinct(s)
    ensures |set x | x in s| == |s|
  {
    if s != [] {
      var n := |s| - 1;
      DistinctSize(s[..n]);
      assert (set x | x in s) == (set x | x in s[..n]) + {s[n]} by {
        assert s == s[..n] + [s[n]];
      }
    }
  }

  /** When exactly the first `k` of distinct rows are finished, the table counts `k` processed. */
  lemma ProcessedCount(links: map<LinkId, Link>, ids: seq<LinkId>, k: nat)
    requires Distinct(ids) && k <= |ids|
    requires forall i :: 0 <= i < |ids| ==> ids[i] in links
    requires forall i :: 0 <= i < |ids| ==> (links[ids[i]].status in {DONE, ERROR} <==> i < k)
    ensures ProgressCounts(links, ids).processed == k
  {
    var done, errors := WithStatus(links, ids, DONE), WithStatus(links, ids, ERROR);
    assert done + errors == set id | id in ids[..k] by {
      forall id | id in done + errors ensures id in ids[..k] {
        var i :| 0 <= i < |ids| && ids[i] == id;
        assert links[ids[i]].status in {DONE, ERROR};
        assert ids[..k][i] == id;
      }
      forall id | id in ids[..k] ensures id in done + errors {
        var i :| 0 <= i < k && ids[..k][i] == id;
        assert links[ids[i]].status in {DONE, ERROR};
      }
    }
    assert done !! errors;
    assert |done + errors| == |done| + |errors|;
    DistinctSize(ids[..k]);
  }

  // ----- the rows of a spreadsheet task -----

  /**
   * ORDER BY createdAt, id: `rank` is the place that key gives a row. Rows of one
   * batch share createdAt, so it is their ids that decide.
   */
  type Rank = LinkId -> int

  function InsertByRank(sorted: seq<LinkId>, id: LinkId, rank: Rank): seq<LinkId> {
    if sorted == [] || rank(sorted[|sorted| - 1]) <= rank(id) then sorted + [id]
    else InsertByRank(sorted[..|sorted| - 1], id, rank) + [sorted[|sorted| - 1]]
  }

  function SortByRank(ids: seq<LinkId>, rank: Rank): seq<LinkId> {
    if ids == [] then [] else InsertByRank(SortByRank(ids[..|ids| - 1], rank), ids[|ids| - 1], rank)
  }

  predicate InRankOrder(ids: seq<LinkId>, rank: Rank) {
    forall i, j :: 0 <= i < j < |ids| ==> rank(ids[i]) <= rank(ids[j])
  }

  lemma {:induction false} InsertAddsOne(sorted: seq<LinkId>, id: LinkId, rank: Rank)
    ensures multiset(InsertByRank(sorted, id, rank)) == multiset(sorted) + multiset{id}
  {
    if sorted != [] && rank(id) < rank(sorted[|sorted| - 1]) {
      InsertAddsOne(sorted[..|sorted| - 1], id, rank);
      assert sorted == sorted[..|sorted| - 1] + [sorted[|sorted| - 1]];
    }
  }

  lemma {:induction false} InsertKeepsRankOrder(sorted: seq<LinkId>, id: LinkId, rank: Rank)
    requires InRankOrder(sorted, rank)
    ensures InRankOrder(InsertByRank(sorted, id, rank), rank)
  {
    if sorted != [] && rank(id) < rank(sorted[|sorted| - 1]) {
      var init, last := sorted[..|sorted| - 1], sorted[|sorted| - 1];
      InsertKeepsRankOrder(init, id, rank);
      InsertAddsOne(init, id, rank);
      var rest := InsertByRank(init, id, rank);
      forall i | 0 <= i < |rest| ensures rank(rest[i]) <= rank(last) {
        assert rest[i] in multiset(rest);
        assert rest[i] in multiset(init) || rest[i] == id;
      }
    }
  }

  /** Fetching rearranges the rows into rank order. */
  lemma {:induction false} FetchSorts(ids: seq<LinkId>, rank: Rank)
    ensures InRankOrder(SortByRank(ids, rank), rank)
    ensures multiset(SortByRank(ids, rank)) == multiset(ids)
  {
    if ids != [] {
      var init, last := ids[..|ids| - 1], ids[|ids| - 1];
      assert ids == init + [last];
      FetchSorts(init, rank);
      InsertKeepsRankOrder(SortByRank(init, rank), last, rank);
      InsertAddsOne(SortByRank(init, rank), last, rank);
    }
  }

  /** Rows come back in the order they were inserted exactly if their ranks were given out in that order. */
  lemma {:induction false} FetchOrderIsInsertionOrderIff(ids: seq<LinkId>, rank: Rank)
    ensures SortByRank(ids, rank) == ids <==> InRankOrder(ids, rank)
  {
    FetchSorts(ids, rank);
    if ids != [] && InRankOrder(ids, rank) {
      FetchOrderIsInsertionOrderIff(ids[..|ids| - 1], rank);
    }
  }

  lemma DistinctIsCounted<T>(s: seq<T>)
    ensures Distinct(s) <==> forall x :: x in multiset(s) ==> multiset(s)[x] == 1
  {
    if Distinct(s) {
      forall x | x in multiset(s) ensures multiset(s)[x] == 1 { CountInDistinct(s, x); }
    } else {
      var i, j :| 0 <= i < j < |s| && s[i] == s[j];
      assert s == s[..j] + [s[j]] + s[j + 1..];
      assert s[i] in s[..j];
      assert multiset(s)[s[i]] >= 2;
    }
  }

  lemma {:induction false} CountInDistinct<T>(s: seq<T>, x: T)
    requires Distinct(s) && x in s
    ensures multiset(s)[x] == 1
  {
    var n := |s| - 1;
    assert s == s[..n] + [s[n]];
    if x in s[..n] {
      CountInDistinct(s[..n], x);
      assert s[n] != x;
    } else {
      assert multiset(s[..n])[x] == 0;
    }
  }

  datatype TaskStatus = IDLE | RUNNING | COMPLETED | FAILED

  datatype TaskState = TaskState(
    status: TaskStatus, isChecking: bool, lastRunAt: Option<int>, lastRunStatus: Option<string>)

  /** Starting raises the flag; ending lowers it and leaves a time and a summary. */
  function TaskAfter(s: TaskState, status: TaskStatus, summary: Option<string>, now: int): TaskState {
    match status
    case IDLE => s.(status := IDLE)
    case RUNNING => s.(status := RUNNING, isChecking := true)
    case _ => TaskState(status, false, Some(now), summary)
  }

  datatype LinkInput = LinkInput(donorUrl: string, acceptorRaw: string, acceptorHost: string)

  function CreateRow(project: ProjectId, input: LinkInput): Link {
    NewLink(project, input.donorUrl, input.acceptorRaw, input.acceptorHost)
  }

  /** A new row, and a task after each status, column by column. */
  lemma NewInPlainTerms(project: ProjectId, input: LinkInput, t: TaskState, summary: Option<string>, now: int)
    ensures CreateRow(project, input) == Link(
      project, input.donorUrl, input.acceptorRaw, input.acceptorHost, PENDING,
      None, None, None, None, None, None, None, None, None, None, 0, None, None, None)
    ensures TaskAfter(t, RUNNING, summary, now) == TaskState(RUNNING, true, t.lastRunAt, t.lastRunStatus)
    ensures TaskAfter(t, COMPLETED, summary, now) == TaskState(COMPLETED, false, Some(now), summary)
    ensures TaskAfter(t, FAILED, summary, now) == TaskState(FAILED, false, Some(now), summary)
  {
  }

  // ----- the repository -----

  class LinkRepository {
    var links: map<LinkId, Link>
    var manualChecking: map<ProjectId, bool>
    /** The rows of each spreadsheet task, in the order they were inserted. */
    var batches: map<TaskId, seq<LinkId>>
    var tasks: map<TaskId, TaskState>
    var sheetsChecking: map<ProjectId, bool>
    const rank: Rank

    constructor (rank: Rank)
      ensures links == map[] && manualChecking == map[] && batches == map[] && tasks == map[] && sheetsChecking == map[]
      ensures this.rank == rank
    {
      links, manualChecking, batches, tasks, sheetsChecking := map[], map[], map[], map[], map[];
      this.rank := rank;
    }

    /** Updating a row that does not exist is an error. */
    method MarkStatus(id: LinkId, status: Status) returns (ok: bool)
      modifies this`links
      ensures ok == (id in old(links))
      ensures links == if ok then old(links)[id := MarkRow(old(links)[id], status)] else old(links)
    {
      ok := id in links;
      if ok { links := links[id := links[id].(status := status)]; }
    }

    /** One statement for all ids; ids without a row are passed over. */
    method MarkManyStatus(ids: seq<LinkId>, status: Status)
      modifies this`links
      ensures links.Keys == old(links).Keys
      ensures forall id :: id in links ==>
        links[id] == if id in ids then MarkRow(old(links)[id], status) else old(links)[id]
    {
      if |ids| == 0 { return; }
      links := map id | id in links :: if id in ids then links[id].(status := status) else links[id];
    }

    method SaveResult(id: LinkId, r: CrawlResult, now: int) returns (ok: bool)
      modifies this`links
      ensures ok == (id in old(links))
      ensures links == if ok then old(links)[id := SaveRow(old(links)[id], r, now)] else old(links)
    {
      ok := id in links;
      if !ok { return; }
      var row := links[id];
      var status := if r.ok then DONE else ERROR;
      row := row.(status := status, donorStatusCode := r.donorStatusCode, donorFinalUrl := r.donorFinalUrl);
      if r.donorRedirectChain.Some? { row := row.(donorRedirectChain := r.donorRedirectChain); }
      row := row.(donorIndexable := r.donorIndexable, donorMetaRobots := r.donorMetaRobots,
                  donorXRobotsTag := r.donorXRobotsTag, donorCanonical := r.donorCanonical,
                  canonicalMatches := r.canonicalMatches, linkFound := r.linkFound);
      if r.occurrences.Some? { row := row.(occurrences := r.occurrences); }
      row := row.(occurrencesCount := r.occurrencesCount, error := r.error,
                  checkDurationMs := Some(r.durationMs), lastCheckedAt := Some(now));
      links := links[id := row];
    }

    method SetProjectManualChecking(project: ProjectId, value: bool) returns (ok: bool)
      modifies this`manualChecking
      ensures ok == (project in old(manualChecking))
      ensures manualChecking == if ok then old(manualChecking)[project := value] else old(manualChecking)
    {
      ok := project in manualChecking;
      if ok { manualChecking := manualChecking[project := value]; }
    }

    method GetProgressCounts(ids: seq<LinkId>) returns (counts: Counts)
      ensures counts == ProgressCounts(links, ids)
    {
      if |ids| == 0 {
        assert WithStatus(links, ids, DONE) == {} && WithStatus(links, ids, ERROR) == {} && Found(links, ids) == {};
        return Counts(0, 0, 0, 0);
      }
      var done := set id | id in ids && id in links && links[id].status == DONE;
      var error := set id | id in ids && id in links && links[id].status == ERROR;
      var found := set id | id in ids && id in links && links[id].linkFound == Some(true);
      return Counts(|ids|, |done| + |error|, |found|, |error|);
    }

    function BatchOf(task: TaskId): seq<LinkId>
      reads this`batches
    {
      if task in batches then batches[task] else []
    }

    /** One transaction: the rows of the task's last run go, a row for every input comes. */
    method ReplaceSheetsLinks(task: TaskId, project: ProjectId, inputs: seq<LinkInput>, ids: seq<LinkId>)
      requires |ids| == |inputs| && Distinct(ids)
      requires forall i :: 0 <= i < |ids| ==> ids[i] !in links
      modifies this`links, this`batches
      ensures batches == old(batches)[task := ids]
      ensures forall id :: id in links <==> id in ids || (id in old(links) && id !in old(BatchOf(task)))
      ensures forall i :: 0 <= i < |ids| ==> links[ids[i]] == CreateRow(project, inputs[i])
      ensures forall id :: id in links && id !in ids ==> links[id] == old(links)[id]
    {
      links := map id | id in links && id !in BatchOf(task) :: links[id];
      for i := 0 to |ids|
        invariant batches == old(batches)
        invariant forall id :: id in links <==> id in ids[..i] || (id in old(links) && id !in old(BatchOf(task)))
        invariant forall k :: 0 <= k < i ==> links[ids[k]] == CreateRow(project, inputs[k])
        invariant forall id :: id in links && id !in ids[..i] ==> links[id] == old(links)[id]
      {
        assert ids[..i + 1] == ids[..i] + [ids[i]];
        links := links[ids[i] := CreateRow(project, inputs[i])];
      }
      assert ids[..|ids|] == ids;
      batches := batches[task := ids];
    }

    method FindLinksBySheetsTaskOrdered(task: TaskId) returns (rows: seq<(LinkId, Link)>)
      requires forall id :: id in BatchOf(task) ==> id in links
      ensures var ids := SortByRank(BatchOf(task), rank);
        && |rows| == |ids|
        && (forall i :: 0 <= i < |ids| ==> ids[i] in links && rows[i] == (ids[i], links[ids[i]]))
    {
      var ids := SortByRank(BatchOf(task), rank);
      FetchSorts(BatchOf(task), rank);
      forall i | 0 <= i < |ids| ensures ids[i] in links { assert ids[i] in multiset(ids); }
      rows := seq(|ids|, i requires 0 <= i < |ids| && ids[i] in links reads this => (ids[i], links[ids[i]]));
    }

    method SetSheetsTaskStatus(task: TaskId, status: TaskStatus, summary: Option<string>, now: int)
      returns (ok: bool)
      modifies this`tasks
      ensures ok == (task in old(tasks))
      ensures tasks == if ok then old(tasks)[task := TaskAfter(old(tasks)[task], status, summary, now)] else old(tasks)
    {
      ok := task in tasks;
      if !ok { return; }
      var data := tasks[task].(status := status);
      if status == RUNNING {
        data := data.(isChecking := true);
      } else if status == COMPLETED || status == FAILED {
        data := data.(isChecking := false, lastRunAt := Some(now), lastRunStatus := summary);
      }
      tasks := tasks[task := data];
    }

    method SetProjectSheetsChecking(project: ProjectId, value: bool) returns (ok: bool)
      modifies this`sheetsChecking
      ensures ok == (project in old(sheetsChecking))
      ensures sheetsChecking == if ok then old(sheetsChecking)[project := value] else old(sheetsChecking)
    {
      ok := project in sheetsChecking;
      if ok { sheetsChecking := sheetsChecking[project := value]; }
    }

    method GetSheetsProgressCounts(task: TaskId) returns (counts: Counts)
      ensures counts == ProgressCounts(links, BatchOf(task))
    {
      counts := GetProgressCounts(BatchOf(task));
    }
  }
}
