/**
 * One bulk check of a project (apps/worker/src/modules/queue/manual-check.processor.ts).
 */
module ManualCheck {
  import opened Options
  import opened Clocks
  import opened CrawlResults
  import opened LinkRows
  import opened Events
  import opened SingleLink
  import Bulk = BulkRun
  import Locks = LockManager

  const PROJECT_LOCK_TTL_MS: nat := 1_800_000

  function Percent(processed: nat, total: nat): int
    requires 0 < total
  {
    // Math.round of 100 * processed / total: halves go up
    (200 * processed + total) / (2 * total)
  }

  lemma PercentGrows(a: nat, b: nat, total: nat)
    requires 0 < total && a <= b
    ensures Percent(a, total) <= Percent(b, total)
    ensures Percent(total, total) == 100
  {
    DivGrows(200 * a + total, 200 * b + total, 2 * total);
    assert 200 * total + total == 100 * (2 * total) + total;
    DivExact(100, total, 2 * total);
  }

  /** It is the whole number nearest the exact share, halves going up. */
  lemma PercentIsNearest(processed: nat, total: nat)
    requires 0 < total
    ensures var p := Percent(processed, total); 2 * (p * total) - total <= 200 * processed < 2 * (p * total) + total
  {
    var d, m := 2 * total, 200 * processed + total;
    var p := m / d;
    assert p * d <= m < p * d + d;
    assert p * d == 2 * (p * total);
  }

  lemma DivGrows(x: nat, y: nat, d: nat)
    requires 0 < d && x <= y
    ensures x / d <= y / d
  {
    if y / d < x / d { MulGrows(y / d + 1, x / d, d); }
  }

  lemma DivExact(q: nat, r: nat, d: nat)
    requires r < d
    ensures (q * d + r) / d == q
  {
    var n := q * d + r;
    if n / d < q { MulGrows(n / d + 1, q, d); }
    if q < n / d { MulGrows(q + 1, n / d, d); }
  }

  lemma MulGrows(a: nat, b: nat, d: nat)
    requires a <= b
    ensures a * d <= b * d
  {
    assert 0 <= (b - a) * d;
  }

  datatype Outcome = Skipped | Completed | Failed

  /**
   * What the run did, for the caller to see: the links in processing order, and chunk by
   * chunk its size, the counts taken after it, when, and the percentage reached.
   */
  datatype Report = Report(
    processed: seq<LinkId>, chunks: seq<nat>, counted: seq<Counts>, times: seq<int>, percents: seq<int>)

  /** The rows after the first `k` of `ids` were processed, starting from all of them queued. */
  ghost predicate RowsAfter(
      start: map<LinkId, Link>, now: map<LinkId, Link>, ids: seq<LinkId>, k: nat, crawl: Crawl)
    requires k <= |ids|
  {
    && now.Keys == start.Keys
    && (forall i :: 0 <= i < k && ids[i] in start ==>
          IsProcessed(MarkRow(start[ids[i]], QUEUED), now[ids[i]], CheckOf(crawl, ids[i], start[ids[i]])))
    && (forall i :: k <= i < |ids| && ids[i] in start ==> now[ids[i]] == MarkRow(start[ids[i]], QUEUED))
    && (forall id :: id in start && id !in ids ==> now[id] == start[id])
  }

  lemma SliceIsDistinct(ids: seq<LinkId>, i: nat, j: nat)
    requires Distinct(ids) && i <= j <= |ids|
    ensures Distinct(ids[i..j])
    ensures forall k :: 0 <= k < |ids| ==> (ids[k] in ids[i..j] <==> i <= k < j)
  {
    forall k | 0 <= k < |ids| ensures ids[k] in ids[i..j] <==> i <= k < j {
      if i <= k < j { assert ids[i..j][k - i] == ids[k]; }
    }
  }

  /**
   * Every interleaving of the checks of a chunk does the chunk: if each of its links is
   * checked once and no other is written, in any order of the writes, then the rows of
   * links `i` to `j` are processed and no other row has changed.
   */
  lemma AnyInterleavingDoesTheChunk(start: map<LinkId, Link>, before: map<LinkId, Link>, ids: seq<LinkId>,
                                    i: nat, j: nat, writes: seq<(LinkId, Write)>, crawl: Crawl)
    requires Distinct(ids) && i <= j <= |ids| && RowsAfter(start, before, ids, i, crawl)
    requires EachOnce(before, ids[i..j], writes, crawl)
    ensures RowsAfter(start, Table(before, writes), ids, j, crawl)
  {
    var now := Table(before, writes);
    SliceIsDistinct(ids, i, j);
    forall id ensures now.Keys == before.Keys
      ensures id in before && id in ids[i..j] ==> IsProcessed(before[id], now[id], CheckOf(crawl, id, before[id]))
      ensures id in before && id !in ids[i..j] ==> now[id] == before[id]
    {
      EachOnceProcesses(before, ids[i..j], writes, crawl, id);
    }
    forall k | 0 <= k < |ids| && ids[k] in start
      ensures k < j ==>
        IsProcessed(MarkRow(start[ids[k]], QUEUED), now[ids[k]], CheckOf(crawl, ids[k], start[ids[k]]))
      ensures j <= k ==> now[ids[k]] == MarkRow(start[ids[k]], QUEUED)
    {
      assert ids[k] in ids[i..j] <==> i <= k < j;
    }
  }

  predicate AllExist(links: map<LinkId, Link>, ids: seq<LinkId>) {
    forall i :: 0 <= i < |ids| ==> ids[i] in links
  }

  /** After c chunks, 15c links, or all of them, are through. */
  function ThroughAfter(chunks: nat, total: nat): nat {
    Bulk.Minimum(chunks * Bulk.INTERNAL_CONCURRENCY, total)
  }

  predicate ReportFits(report: Report, ids: seq<LinkId>, exist: bool) {
    && |report.chunks| == |report.counted| == |report.times| == |report.percents|
    && report.processed == ids[..ThroughAfter(|report.chunks|, |ids|)]
    && (forall i :: 0 <= i < |report.chunks| ==>
          && 0 < |ids| && 0 < report.chunks[i] <= 15
          && report.percents[i] == Percent(ThroughAfter(i + 1, |ids|), |ids|)
          && (exist ==> report.counted[i].processed == ThroughAfter(i + 1, |ids|)))
  }

  /** The report with one more chunk. */
  function Extended(report: Report, ids: seq<LinkId>, i: nat, j: nat, counted: Counts, now: int): Report
    requires i < j <= |ids|
  {
    Report(report.processed + ids[i..j], report.chunks + [j - i],
           report.counted + [counted], report.times + [now], report.percents + [Percent(j, |ids|)])
  }

  lemma ReportGrows(report: Report, ids: seq<LinkId>, exist: bool, i: nat, j: nat, counted: Counts, now: int)
    requires ReportFits(report, ids, exist) && i == ThroughAfter(|report.chunks|, |ids|) < |ids|
    requires j == Bulk.Minimum(i + Bulk.INTERNAL_CONCURRENCY, |ids|) && (exist ==> counted.processed == j)
    ensures j == ThroughAfter(|report.chunks| + 1, |ids|)
    ensures ReportFits(Extended(report, ids, i, j, counted, now), ids, exist)
  {
    assert ids[..i] + ids[i..j] == ids[..j];
  }

  /** After c chunks 15c links are through, or all. */
  lemma ThroughInPlainTerms(chunks: nat, total: nat)
    ensures ThroughAfter(chunks, total) == if 15 * chunks <= total then 15 * chunks else total
  {
  }

  // ----- what a run publishes besides its links' events -----

  /** The events of a log that are not about single links. */
  function Notices(log: seq<Event>): seq<Event> {
    if log == [] then []
    else
      var last := log[|log| - 1];
      Notices(log[..|log| - 1]) + if last.LinkUpdated? then [] else [last]
  }

  lemma LoudEvent(log: seq<Event>, e: Event)
    requires !e.LinkUpdated?
    ensures Notices(log + [e]) == Notices(log) + [e]
  {
    assert (log + [e])[..|log|] == log;
  }

  lemma {:induction false} QuietEvents(log: seq<Event>, more: seq<Event>)
    requires OnlyUpdates(more)
    ensures Notices(log + more) == Notices(log)
    decreases |more|
  {
    if more == [] {
      assert log + more == log;
    } else {
      var init := more[..|more| - 1];
      assert (log + more)[..|log + more| - 1] == log + init;
      QuietEvents(log, init);
    }
  }

  /** When progress was last let through: at least half a second lies between two such events. */
  function LastSent(last: int, times: seq<int>): int {
    if times == [] then last
    else
      var before := LastSent(last, times[..|times| - 1]);
      if times[|times| - 1] < before + 500 then before else times[|times| - 1]
  }

  /** The progress events of a run: the counts taken after each chunk, but for those dropped. */
  function Sent(project: ProjectId, last: int, times: seq<int>, counted: seq<Counts>): seq<Event>
    requires |times| == |counted|
  {
    if times == [] then []
    else
      var n := |times| - 1;
      Sent(project, last, times[..n], counted[..n])
        + if times[n] < LastSent(last, times[..n]) + 500 then [] else [Progress(project, counted[n])]
  }

  lemma SentOneMore(project: ProjectId, last: int, times: seq<int>, counted: seq<Counts>, now: int, c: Counts)
    requires |times| == |counted|
    ensures var dropped := now < LastSent(last, times) + 500;
      && Sent(project, last, times + [now], counted + [c])
           == Sent(project, last, times, counted) + (if dropped then [] else [Progress(project, c)])
      && LastSent(last, times + [now]) == if dropped then LastSent(last, times) else now
  {
    assert (times + [now])[..|times|] == times && (counted + [c])[..|times|] == counted;
  }

  /** Everything a run announces, by whether its project exists and whether it got to the end. */
  function Announced(project: ProjectId, there: bool, last: int, report: Report, total: nat, final: Option<Counts>)
    : seq<Event>
    requires |report.times| == |report.counted|
  {
    if !there then []
    else
      [LockChanged(project, true)] + Sent(project, last, report.times, report.counted)
        + if final.Some? then [DoneEvent(project, total, final.value.found, final.value.errors)] else []
  }

  /**
   * A run of a project that exists announces that it is busy, then its progress, and at
   * its end, if it gets there, how many links were found and how many failed.
   */
  lemma AnnouncedInPlainTerms(project: ProjectId, last: int, report: Report, total: nat, c: Counts)
    requires |report.times| == |report.counted|
    ensures var progress := Sent(project, last, report.times, report.counted);
      && Announced(project, true, last, report, total, None) == [LockChanged(project, true)] + progress
      && Announced(project, true, last, report, total, Some(c))
           == [LockChanged(project, true)] + progress + [DoneEvent(project, total, c.found, c.errors)]
      && Announced(project, false, last, report, total, Some(c)) == []
    ensures Sent(project, last, [], []) == []
  {
    var progress := Sent(project, last, report.times, report.counted);
    assert [LockChanged(project, true)] + progress + [] == [LockChanged(project, true)] + progress;
  }

  lemma {:induction false} PercentsGrowTo100(report: Report, ids: seq<LinkId>, exist: bool)
    requires ids != [] && ReportFits(report, ids, exist) && report.processed == ids
    ensures forall i, j :: 0 <= i <= j < |report.percents| ==> report.percents[i] <= report.percents[j]
    ensures report.percents != [] && report.percents[|report.percents| - 1] == 100
  {
    forall i, j | 0 <= i <= j < |report.percents| ensures report.percents[i] <= report.percents[j] {
      PercentGrows(ThroughAfter(i + 1, |ids|), ThroughAfter(j + 1, |ids|), |ids|);
    }
    assert |report.processed| == |ids|;
    PercentGrows(0, 0, |ids|);
  }

  // ----- when an error stops a run -----

  /** How far the check of one link has got. */
  datatype Reached = Waiting | BeingChecked | SavedAt(now: int)

  /** An error that strikes after so many chunks, and how far the checks of the next chunk have got by then. */
  datatype Fault = Fault(after: nat, reached: LinkId -> Reached)

  function RowReached(before: Link, reached: Reached, crawled: CrawlResult): Link {
    match reached
    case Waiting => MarkRow(before, QUEUED)
    case BeingChecked => MarkRow(before, CHECKING)
    case SavedAt(now) => SaveRow(MarkRow(before, CHECKING), crawled, now)
  }

  /** The rows a run leaves that stopped after `k` links: those of its next chunk are where their checks got to. */
  ghost predicate RowsLeft(start: map<LinkId, Link>, now: map<LinkId, Link>, ids: seq<LinkId>, k: nat,
                           crawl: Crawl, reached: LinkId -> Reached)
    requires k <= |ids|
  {
    && now.Keys == start.Keys
    && (forall i :: 0 <= i < k && ids[i] in start ==>
          IsProcessed(MarkRow(start[ids[i]], QUEUED), now[ids[i]], CheckOf(crawl, ids[i], start[ids[i]])))
    && (forall i :: k <= i < |ids| && i < k + 15 && ids[i] in start ==>
          now[ids[i]] == RowReached(start[ids[i]], reached(ids[i]), CheckOf(crawl, ids[i], start[ids[i]])))
    && (forall i :: k + 15 <= i < |ids| && ids[i] in start ==> now[ids[i]] == MarkRow(start[ids[i]], QUEUED))
    && (forall id :: id in start && id !in ids ==> now[id] == start[id])
  }

  /** The rows of `chunk` as their checks left them. */
  function CutShort(rows: map<LinkId, Link>, chunk: seq<LinkId>, crawl: Crawl, reached: LinkId -> Reached)
    : map<LinkId, Link>
  {
    map id | id in rows ::
      if id in chunk then RowReached(rows[id], reached(id), CheckOf(crawl, id, rows[id])) else rows[id]
  }

  lemma CutShortIsLeft(start: map<LinkId, Link>, rows: map<LinkId, Link>, ids: seq<LinkId>, k: nat, j: nat,
                       crawl: Crawl, reached: LinkId -> Reached)
    requires Distinct(ids) && k <= |ids| && j == Bulk.Minimum(k + 15, |ids|) && RowsAfter(start, rows, ids, k, crawl)
    ensures RowsLeft(start, CutShort(rows, ids[k..j], crawl, reached), ids, k, crawl, reached)
  {
    var now, chunk := CutShort(rows, ids[k..j], crawl, reached), ids[k..j];
    SliceIsDistinct(ids, k, j);
    forall i | k <= i < j && ids[i] in start
      ensures now[ids[i]] == RowReached(start[ids[i]], reached(ids[i]), CheckOf(crawl, ids[i], start[ids[i]]))
    {
      assert ids[i] in chunk && rows[ids[i]] == MarkRow(start[ids[i]], QUEUED);
    }
    forall id | id in start && id !in ids ensures now[id] == start[id] {
      assert id !in chunk;
    }
  }

  /** What a run leaves: every link checked, or what the error left. */
  ghost predicate RowsWhenOver(start: map<LinkId, Link>, now: map<LinkId, Link>, ids: seq<LinkId>,
                               processed: seq<LinkId>, ok: bool, crawl: Crawl, fault: Option<Fault>)
  {
    if ok then processed == ids && RowsAfter(start, now, ids, |ids|, crawl)
    else fault.Some? && |processed| <= |ids| && RowsLeft(start, now, ids, |processed|, crawl, fault.value.reached)
  }

  /** No error strikes while there is something left to check. */
  predicate GetsThrough(ids: seq<LinkId>, fault: Option<Fault>) {
    fault.None? || |ids| <= 15 * fault.value.after
  }

  /** The flag of a project that exists; others keep theirs. */
  function FlagSet(flags: map<ProjectId, bool>, project: ProjectId, up: bool): map<ProjectId, bool> {
    if project in flags then flags[project := up] else flags
  }

  class ManualCheckProcessor {
    const locks: Locks.LockManager
    const links: LinkRepository
    const publisher: ProgressPublisher
    const singleLink: SingleLinkProcessor

    constructor (locks: Locks.LockManager, links: LinkRepository, publisher: ProgressPublisher,
                 singleLink: SingleLinkProcessor)
      requires singleLink.links == links && singleLink.publisher == publisher
      ensures this.locks == locks && this.links == links
      ensures this.publisher == publisher && this.singleLink == singleLink
    {
      this.locks, this.links, this.publisher, this.singleLink := locks, links, publisher, singleLink;
    }

    /** The links of one chunk, all at once: their steps come in any order. */
    method ProcessChunk(ids: seq<LinkId>, i: nat, j: nat, ghost start: map<LinkId, Link>, crawl: Crawl, clock: Clock)
      returns (ghost events: seq<Event>)
      requires singleLink.links == links && singleLink.publisher == publisher
      requires i <= j <= |ids| && Distinct(ids) && RowsAfter(start, links.links, ids, i, crawl)
      modifies links`links, publisher`log, clock
      ensures old(clock.now) <= clock.now
      ensures RowsAfter(start, links.links, ids, j, crawl)
      ensures publisher.log == old(publisher.log) + events && OnlyUpdates(events)
      ensures forall k :: i <= k < j ==> EventsOf(events, ids[k]) == Published(links.links, ids[k], Over)
    {
      ghost var before := links.links;
      SliceIsDistinct(ids, i, j);
      ghost var writes;
      writes, events := singleLink.ProcessAll(ids[i..j], crawl, clock);
      AnyInterleavingDoesTheChunk(start, before, ids, i, j, writes, crawl);
      forall k | i <= k < j ensures EventsOf(events, ids[k]) == Published(links.links, ids[k], Over) {
        assert ids[i..j][k - i] == ids[k];
      }
    }

    /**
     * One turn of the loop: the next chunk, the counts of the table after it, its progress
     * event unless that is dropped, and its entry in the report.
     */
    method OneChunk(project: ProjectId, ids: seq<LinkId>, i: nat, report: Report,
                    ghost start: map<LinkId, Link>, crawl: Crawl, clock: Clock)
      returns (j: nat, report': Report)
      requires singleLink.links == links && singleLink.publisher == publisher && Distinct(ids)
      requires i < |ids| && i == ThroughAfter(|report.chunks|, |ids|)
      requires RowsAfter(start, links.links, ids, i, crawl)
      requires ReportFits(report, ids, AllExist(start, ids))
      modifies links`links, publisher, clock
      ensures old(clock.now) <= clock.now
      ensures i < j <= |ids| && j == ThroughAfter(|report'.chunks|, |ids|)
      ensures RowsAfter(start, links.links, ids, j, crawl)
      ensures ReportFits(report', ids, AllExist(start, ids))
      ensures report' == Extended(report, ids, i, j, ProgressCounts(links.links, ids), clock.now)
      ensures var dropped := clock.now < old(publisher.LastProgress(project)) + 500;
        && Notices(publisher.log) == Notices(old(publisher.log))
             + (if dropped then [] else [Progress(project, ProgressCounts(links.links, ids))])
        && publisher.LastProgress(project) == if dropped then old(publisher.LastProgress(project)) else clock.now
    {
      j := Bulk.Minimum(i + Bulk.INTERNAL_CONCURRENCY, |ids|);
      ghost var log := publisher.log;
      ghost var events := ProcessChunk(ids, i, j, start, crawl, clock);
      QuietEvents(log, events);
      var counts := links.GetProgressCounts(ids);
      if AllExist(start, ids) { CountedAfter(start, links.links, ids, j, crawl); }
      LoudEvent(publisher.log, Progress(project, counts));
      publisher.Publish(Progress(project, counts), clock.now);
      report' := Extended(report, ids, i, j, counts, clock.now);
      ReportGrows(report, ids, AllExist(start, ids), i, j, counts, clock.now);
    }

    /** An error strikes: the checks of the chunk under way have got as far as they have. */
    method Abandon(ids: seq<LinkId>, i: nat, crawl: Crawl, reached: LinkId -> Reached, ghost start: map<LinkId, Link>)
      requires Distinct(ids) && i <= |ids| && RowsAfter(start, links.links, ids, i, crawl)
      modifies links`links
      ensures RowsLeft(start, links.links, ids, i, crawl, reached)
    {
      var j := Bulk.Minimum(i + 15, |ids|);
      CutShortIsLeft(start, links.links, ids, i, j, crawl, reached);
      links.links := CutShort(links.links, ids[i..j], crawl, reached);
    }

    /** What is known between two chunks: how far the rows are, and what has been announced since `log`. */
    ghost predicate Between(start: map<LinkId, Link>, ids: seq<LinkId>, i: nat, report: Report, crawl: Crawl)
      reads links
    {
      && i == ThroughAfter(|report.chunks|, |ids|) && RowsAfter(start, links.links, ids, i, crawl)
      && ReportFits(report, ids, AllExist(start, ids))
    }

    ghost predicate Told(project: ProjectId, log: seq<Event>, last: int, report: Report)
      requires |report.times| == |report.counted|
      reads publisher
    {
      && publisher.LastProgress(project) == LastSent(last, report.times)
      && Notices(publisher.log) == Notices(log) + Sent(project, last, report.times, report.counted)
    }

    method Turn(project: ProjectId, ids: seq<LinkId>, i: nat, report: Report, crawl: Crawl, clock: Clock,
                ghost start: map<LinkId, Link>, ghost log: seq<Event>, ghost last: int)
      returns (j: nat, report': Report)
      requires singleLink.links == links && singleLink.publisher == publisher && Distinct(ids)
      requires i < |ids| && Between(start, ids, i, report, crawl) && Told(project, log, last, report)
      modifies links`links, publisher, clock
      ensures old(clock.now) <= clock.now
      ensures i < j && |report'.chunks| == |report.chunks| + 1
      ensures Between(start, ids, j, report', crawl) && Told(project, log, last, report')
    {
      j, report' := OneChunk(project, ids, i, report, start, crawl, clock);
      SentOneMore(project, last, report.times, report.counted, clock.now, ProgressCounts(links.links, ids));
    }

    /** Chunk after chunk, to the last or to the error. */
    method Loop(project: ProjectId, ids: seq<LinkId>, crawl: Crawl, clock: Clock, fault: Option<Fault>,
                ghost start: map<LinkId, Link>)
      returns (i: nat, report: Report)
      requires singleLink.links == links && singleLink.publisher == publisher && Distinct(ids)
      requires RowsAfter(start, links.links, ids, 0, crawl)
      modifies links`links, publisher, clock
      ensures old(clock.now) <= clock.now
      ensures Between(start, ids, i, report, crawl)
      ensures fault.Some? ==> |report.chunks| <= fault.value.after
      ensures i < |ids| ==> fault.Some? && |report.chunks| == fault.value.after
      ensures Told(project, old(publisher.log), old(publisher.LastProgress(project)), report)
    {
      i, report := 0, Report([], [], [], [], []);
      ghost var log, last := publisher.log, publisher.LastProgress(project);
      assert Notices(log) + [] == Notices(log);
      while i < |ids| && !(fault.Some? && fault.value.after == |report.chunks|)
        invariant Between(start, ids, i, report, crawl) && Told(project, log, last, report)
        invariant old(clock.now) <= clock.now
        invariant fault.Some? ==> |report.chunks| <= fault.value.after
        decreases |ids| - i
      {
        i, report := Turn(project, ids, i, report, crawl, clock, start, log, last);
      }
    }

    /** The chunks, and what the error leaves if one strikes. */
    method Chunks(project: ProjectId, ids: seq<LinkId>, crawl: Crawl, clock: Clock, fault: Option<Fault>,
                  ghost start: map<LinkId, Link>)
      returns (ok: bool, report: Report)
      requires singleLink.links == links && singleLink.publisher == publisher && Distinct(ids)
      requires RowsAfter(start, links.links, ids, 0, crawl)
      modifies links`links, publisher, clock
      ensures old(clock.now) <= clock.now
      ensures ReportFits(report, ids, AllExist(start, ids))
      ensures ok <==> GetsThrough(ids, fault)
      ensures !ok ==> |report.chunks| == fault.value.after
      ensures RowsWhenOver(start, links.links, ids, report.processed, ok, crawl, fault)
      ensures Notices(publisher.log) == Notices(old(publisher.log))
        + Sent(project, old(publisher.LastProgress(project)), report.times, report.counted)
    {
      var i;
      i, report := Loop(project, ids, crawl, clock, fault, start);
      ok := i == |ids|;
      assert ids[..|ids|] == ids;
      if !ok { Abandon(ids, i, crawl, fault.value.reached, start); }
    }

    /** The last counts are announced. */
    method Finish(project: ProjectId, ids: seq<LinkId>)
      modifies publisher`log
      ensures var final := ProgressCounts(links.links, ids);
        Notices(publisher.log) == Notices(old(publisher.log)) + [DoneEvent(project, |ids|, final.found, final.errors)]
    {
      var final := links.GetProgressCounts(ids);
      LoudEvent(publisher.log, DoneEvent(project, |ids|, final.found, final.errors));
      publisher.PublishNow(DoneEvent(project, |ids|, final.found, final.errors));
    }

    /** The try block once the flag is up. */
    method WorkRaised(project: ProjectId, ids: seq<LinkId>, crawl: Crawl, clock: Clock, fault: Option<Fault>)
      returns (ok: bool, report: Report)
      requires singleLink.links == links && singleLink.publisher == publisher && Distinct(ids)
      modifies links`links, publisher, clock
      ensures old(clock.now) <= clock.now
      ensures ReportFits(report, ids, AllExist(old(links.links), ids))
      ensures ok <==> GetsThrough(ids, fault)
      ensures RowsWhenOver(old(links.links), links.links, ids, report.processed, ok, crawl, fault)
      ensures Notices(publisher.log) == Notices(old(publisher.log))
        + Announced(project, true, old(publisher.LastProgress(project)), report,
                    |ids|, if ok then Some(ProgressCounts(links.links, ids)) else None)
    {
      ghost var start, last := links.links, publisher.LastProgress(project);
      LoudEvent(publisher.log, LockChanged(project, true));
      publisher.PublishNow(LockChanged(project, true));
      links.MarkManyStatus(ids, QUEUED);
      ok, report := Chunks(project, ids, crawl, clock, fault, start);
      if ok { Finish(project, ids); }
    }

    /**
     * The body of the try block. It stops early if the project row is gone or, when
     * `fault` says so, at an error after that many chunks; and only then.
     */
    method Work(project: ProjectId, ids: seq<LinkId>, crawl: Crawl, clock: Clock,
                fault: Option<Fault>)
      returns (ok: bool, report: Report)
      requires singleLink.links == links && singleLink.publisher == publisher
      requires Distinct(ids)
      modifies links`links, links`manualChecking, publisher, clock
      ensures old(clock.now) <= clock.now
      ensures links.manualChecking == FlagSet(old(links.manualChecking), project, true)
      ensures ReportFits(report, ids, AllExist(old(links.links), ids))
      ensures ok <==>
        project in old(links.manualChecking) && GetsThrough(ids, fault)
      ensures if project in old(links.manualChecking)
        then RowsWhenOver(old(links.links), links.links, ids, report.processed, ok, crawl, fault)
        else links.links == old(links.links)
      ensures Notices(publisher.log) == Notices(old(publisher.log))
        + Announced(project, project in old(links.manualChecking), old(publisher.LastProgress(project)), report,
                    |ids|, if ok then Some(ProgressCounts(links.links, ids)) else None)
    {
      report := Report([], [], [], [], []);
      var raised := links.SetProjectManualChecking(project, true);
      ok := false;
      if raised {
        ok, report := WorkRaised(project, ids, crawl, clock, fault);
      } else {
        assert Notices(publisher.log) + [] == Notices(publisher.log);
      }
    }

    /**
     * The work and the first half of `finally`: however the work ends, the flag comes down,
     * unless that write fails, and `false` is announced last.
     */
    method WorkUnderLock(project: ProjectId, ids: seq<LinkId>, crawl: Crawl, clock: Clock,
                         fault: Option<Fault>, clearFails: bool)
      returns (ok: bool, report: Report)
      requires singleLink.links == links && singleLink.publisher == publisher && Distinct(ids)
      modifies links`links, links`manualChecking, publisher, clock
      ensures old(clock.now) <= clock.now
      ensures links.manualChecking == FlagSet(old(links.manualChecking), project, clearFails)
      ensures ReportFits(report, ids, AllExist(old(links.links), ids))
      ensures ok <==>
        project in old(links.manualChecking) && GetsThrough(ids, fault)
      ensures if project in old(links.manualChecking)
        then RowsWhenOver(old(links.links), links.links, ids, report.processed, ok, crawl, fault)
        else links.links == old(links.links)
      ensures Notices(publisher.log) == Notices(old(publisher.log))
        + Announced(project, project in old(links.manualChecking), old(publisher.LastProgress(project)), report,
                    |ids|, if ok then Some(ProgressCounts(links.links, ids)) else None)
        + [LockChanged(project, false)]
    {
      ok, report := Work(project, ids, crawl, clock, fault);
      if !clearFails {
        var cleared := links.SetProjectManualChecking(project, false);
      }
      LoudEvent(publisher.log, LockChanged(project, false));
      publisher.PublishNow(LockChanged(project, false));
    }

    /**
     * One job. If the lock is held it does nothing. Otherwise it works, and however the
     * work ends, the last announcement is `false`; the flag is down unless clearing it
     * failed, and the lock key is free again unless deleting it failed. It completes
     * exactly if the project exists and no error strikes.
     */
    method Handle(project: ProjectId, ids: seq<LinkId>, token: Locks.Token, crawl: Crawl, clock: Clock,
                  fault: Option<Fault>, clearFails: bool, releaseFails: bool)
      returns (outcome: Outcome, report: Report)
      requires singleLink.links == links && singleLink.publisher == publisher
      requires Distinct(ids)
      modifies locks.redis, links`links, links`manualChecking, publisher, clock
      ensures outcome.Skipped? <==>
        var key := "lock:project:" + project + ":manual";
        key in old(locks.redis.cells) && old(clock.now) < old(locks.redis.cells)[key].expireAt
      ensures outcome.Skipped? ==>
        && links.links == old(links.links) && links.manualChecking == old(links.manualChecking)
        && publisher.log == old(publisher.log) && locks.redis.cells == old(locks.redis.cells)
      ensures !outcome.Skipped? ==>
        var key := "lock:project:" + project + ":manual";
        && locks.redis.cells == (if releaseFails
             then old(locks.redis.cells)[key := Locks.Cell(token, old(clock.now) + 1_800_000)]
             else old(locks.redis.cells) - {key})
        && links.manualChecking == FlagSet(old(links.manualChecking), project, clearFails)
        && ReportFits(report, ids, AllExist(old(links.links), ids))
        && (if project in old(links.manualChecking)
            then RowsWhenOver(old(links.links), links.links, ids, report.processed, outcome.Completed?, crawl, fault)
            else links.links == old(links.links))
        && Notices(publisher.log) == Notices(old(publisher.log))
             + Announced(project, project in old(links.manualChecking), old(publisher.LastProgress(project)), report,
                         |ids|, if outcome.Completed? then Some(ProgressCounts(links.links, ids)) else None)
             + [LockChanged(project, false)]
      ensures !outcome.Skipped? ==>
        (outcome.Completed? <==>
         project in old(links.manualChecking) && GetsThrough(ids, fault))
      ensures outcome.Completed? ==>
        report.processed == ids && RowsAfter(old(links.links), links.links, ids, |ids|, crawl)
    {
      report := Report([], [], [], [], []);
      var key := "lock:project:" + project + ":manual";
      var acquired := locks.Acquire(key, clock.now, PROJECT_LOCK_TTL_MS, token);
      outcome := Skipped;
      if acquired {
        var ok;
        ok, report := WorkUnderLock(project, ids, crawl, clock, fault, clearFails);
        clock.Pass();
        if !releaseFails {
          var released := locks.Release(key, clock.now, token);
          Locks.TakenAndGone(old(locks.redis.cells), key, Locks.Cell(token, old(clock.now) + 1_800_000));
        }
        outcome := if ok then Completed else Failed;
      }
    }
  }

  lemma CountedAfter(start: map<LinkId, Link>, now: map<LinkId, Link>,
                     ids: seq<LinkId>, k: nat, crawl: Crawl)
    requires k <= |ids| && Distinct(ids) && AllExist(start, ids) && RowsAfter(start, now, ids, k, crawl)
    ensures ProgressCounts(now, ids).processed == k
  {
    ProcessedCount(now, ids, k);
  }
}
