/**
 * The chunk loop of a bulk run with everything inside a chunk interleaved
 * (apps/worker/src/modules/queue/manual-check.processor.ts:79-96, and the same loop in
 * apps/worker/src/modules/sheets/sheets-task.service.ts:210-225). A run is a list of
 * labels: any link of the current chunk takes its next step or throws, the loop moves on
 * once the chunk is over, and other processors write other links. When a link throws,
 * the loop is left, but the other links of its chunk go on. A label that is not enabled
 * changes nothing.
 */
module BulkRun {
  import opened Options
  import opened LinkRows
  import opened SingleLink
  import opened Sizes

  const INTERNAL_CONCURRENCY: nat := 15

  function Minimum(a: nat, b: nat): nat {
    if a <= b then a else b
  }

  /** The current chunk is links `from` to `to`; `failed` are the links whose check threw. */
  datatype System = System(from: nat, to: nat, failed: set<nat>, checks: Checks)

  datatype Label = NextChunk | Step(k: nat, now: int) | Fail(k: nat) | Other(id: LinkId, w: Write)

  function Initial(links: map<LinkId, Link>, n: nat): System {
    System(0, 0, {}, Begin(links, n))
  }

  predicate ChunkOver(s: System) {
    forall k :: s.from <= k < s.to && k < |s.checks.stages| ==> s.checks.stages[k] == Over
  }

  predicate CanStep(s: System, ids: seq<LinkId>, k: nat) {
    s.from <= k < s.to && k < |ids| == |s.checks.stages| && s.checks.stages[k] != Over && k !in s.failed
  }

  predicate Enabled(s: System, ids: seq<LinkId>, l: Label) {
    match l
    case NextChunk => s.failed == {} && ChunkOver(s) && s.to < |ids|
    case Step(k, _) => CanStep(s, ids, k)
    case Fail(k) => CanStep(s, ids, k)
    case Other(id, _) => id !in ids
  }

  function Next(s: System, ids: seq<LinkId>, crawl: Crawl, l: Label): System {
    if !Enabled(s, ids, l) then s
    else match l
      case NextChunk => System(s.to, Minimum(s.to + INTERNAL_CONCURRENCY, |ids|), s.failed, s.checks)
      case Step(k, now) => s.(checks := StepOf(s.checks, ids, k, crawl, now))
      case Fail(k) => s.(failed := s.failed + {k})
      case Other(id, w) => s.(checks := s.checks.(
        links := Written(s.checks.links, id, Some(w)), writes := AddWrite(s.checks.writes, id, Some(w))))
  }

  function Run(s: System, ids: seq<LinkId>, crawl: Crawl, labels: seq<Label>): System
    decreases labels
  {
    if labels == [] then s else Run(Next(s, ids, crawl, labels[0]), ids, crawl, labels[1..])
  }

  /** Behind the chunk all links are through, ahead of it none has begun, and every link is where its writes say. */
  ghost predicate Inv(start: map<LinkId, Link>, s: System, ids: seq<LinkId>, crawl: Crawl) {
    && s.from <= s.to <= |ids| && s.to <= s.from + INTERNAL_CONCURRENCY
    && AtStages(start, s.checks, ids, crawl)
    && (forall k :: 0 <= k < s.from ==> s.checks.stages[k] == Over)
    && (forall k :: s.to <= k < |ids| ==> s.checks.stages[k] == Ahead)
  }

  lemma OtherWriteKeepsStages(start: map<LinkId, Link>, p: Checks, ids: seq<LinkId>, crawl: Crawl, id: LinkId, w: Write)
    requires AtStages(start, p, ids, crawl) && id !in ids
    ensures AtStages(start, p.(links := Written(p.links, id, Some(w)), writes := AddWrite(p.writes, id, Some(w))),
                     ids, crawl)
  {
    TableOneMore(start, p.writes, id, w);
    forall m | 0 <= m < |ids|
      ensures LinkIsAt(start, Written(p.links, id, Some(w)), ids[m], p.stages[m],
                       AddWrite(p.writes, id, Some(w)), p.log, crawl)
    {
      assert LinkIsAt(start, p.links, ids[m], p.stages[m], p.writes, p.log, crawl);
      OthersStay(start, p.links, id, Effect(Over, Some(w), None), ids[m], p.stages[m], p.writes, p.log, crawl);
    }
  }

  lemma StepKeepsInv(start: map<LinkId, Link>, s: System, ids: seq<LinkId>, crawl: Crawl, l: Label)
    requires Distinct(ids) && Inv(start, s, ids, crawl)
    ensures Inv(start, Next(s, ids, crawl, l), ids, crawl)
  {
    if Enabled(s, ids, l) {
      match l {
        case NextChunk =>
        case Step(k, now) => StepKeepsStages(start, s.checks, ids, k, crawl, now);
        case Fail(_) =>
        case Other(id, w) => OtherWriteKeepsStages(start, s.checks, ids, crawl, id, w);
      }
    }
  }

  lemma {:induction false} RunKeepsInv(start: map<LinkId, Link>, s: System, ids: seq<LinkId>, crawl: Crawl,
                                       labels: seq<Label>)
    requires Distinct(ids) && Inv(start, s, ids, crawl)
    ensures Inv(start, Run(s, ids, crawl, labels), ids, crawl)
    decreases labels
  {
    if labels != [] {
      StepKeepsInv(start, s, ids, crawl, labels[0]);
      RunKeepsInv(start, Next(s, ids, crawl, labels[0]), ids, crawl, labels[1..]);
    }
  }

  lemma EveryRunIsInv(start: map<LinkId, Link>, ids: seq<LinkId>, crawl: Crawl, labels: seq<Label>)
    requires Distinct(ids)
    ensures Inv(start, Run(Initial(start, |ids|), ids, crawl, labels), ids, crawl)
  {
    BeginIsUnderway(start, ids, crawl);
    RunKeepsInv(start, Initial(start, |ids|), ids, crawl, labels);
  }

  // ----- what holds of every run -----

  /** The links that have begun and are not through; those between mark and save are among them. */
  function InFlight(s: System): set<nat> {
    set k: nat | k < |s.checks.stages| && s.checks.stages[k] != Ahead && s.checks.stages[k] != Over
  }

  /** In every interleaving at most fifteen links of the run are in flight. */
  lemma AtMostFifteenInFlight(start: map<LinkId, Link>, ids: seq<LinkId>, crawl: Crawl, labels: seq<Label>)
    requires Distinct(ids)
    ensures |InFlight(Run(Initial(start, |ids|), ids, crawl, labels))| <= 15
  {
    EveryRunIsInv(start, ids, crawl, labels);
    var s := Run(Initial(start, |ids|), ids, crawl, labels);
    var chunk := RangeSize(s.from, s.to);
    forall k | k in InFlight(s) ensures k in chunk {}
    SubsetIsNoBigger(InFlight(s), chunk);
  }

  /** At no time has a link been marked or saved more than once, and it is never saved before it is marked. */
  lemma NeverTwice(start: map<LinkId, Link>, ids: seq<LinkId>, crawl: Crawl, labels: seq<Label>, k: nat)
    requires Distinct(ids) && k < |ids|
    ensures var ws := WritesOf(Run(Initial(start, |ids|), ids, crawl, labels).checks.writes, ids[k]);
      ws == [] || ws == [Mark(CHECKING)] || (ids[k] in start && OnceChecked(ws, CheckOf(crawl, ids[k], start[ids[k]])))
  {
    EveryRunIsInv(start, ids, crawl, labels);
    var s := Run(Initial(start, |ids|), ids, crawl, labels);
    var p := s.checks;
    assert LinkIsAt(start, p.links, ids[k], p.stages[k], p.writes, p.log, crawl);
  }

  predicate Finished(s: System, ids: seq<LinkId>) {
    s.to == |ids| && ChunkOver(s)
  }

  /**
   * When the loop is done, every link that exists has been checked exactly once, its row
   * is what that check makes of it, and exactly its two events have been published; a
   * link that is gone has no write and no event.
   */
  lemma EachCheckedExactlyOnce(start: map<LinkId, Link>, ids: seq<LinkId>, crawl: Crawl, labels: seq<Label>, k: nat)
    requires Distinct(ids) && k < |ids| && Finished(Run(Initial(start, |ids|), ids, crawl, labels), ids)
    ensures var p := Run(Initial(start, |ids|), ids, crawl, labels).checks;
      && EventsOf(p.log, ids[k]) == Published(p.links, ids[k], Over)
      && (ids[k] !in start ==> WritesOf(p.writes, ids[k]) == [])
      && (ids[k] in start ==>
            && OnceChecked(WritesOf(p.writes, ids[k]), CheckOf(crawl, ids[k], start[ids[k]]))
            && ids[k] in p.links
            && IsProcessed(start[ids[k]], p.links[ids[k]], CheckOf(crawl, ids[k], start[ids[k]])))
  {
    EveryRunIsInv(start, ids, crawl, labels);
    var p := Run(Initial(start, |ids|), ids, crawl, labels).checks;
    assert LinkIsAt(start, p.links, ids[k], p.stages[k], p.writes, p.log, crawl);
    RowsAreIndependent(start, p.writes, ids[k]);
    if ids[k] in start {
      OnceCheckedIsProcessed(start[ids[k]], WritesOf(p.writes, ids[k]), CheckOf(crawl, ids[k], start[ids[k]]));
    }
  }

  /** A run takes its links in order, fifteen at a time, and the rest at last. */
  lemma ChunksAreFull(start: map<LinkId, Link>, ids: seq<LinkId>, crawl: Crawl, labels: seq<Label>)
    requires Distinct(ids)
    ensures var s := Run(Initial(start, |ids|), ids, crawl, labels);
      var s' := Next(s, ids, crawl, NextChunk);
      if s.failed == {} && ChunkOver(s) && s.to < |ids|
      then s' == System(s.to, if s.to + 15 <= |ids| then s.to + 15 else |ids|, {}, s.checks)
      else s' == s
  {
    EveryRunIsInv(start, ids, crawl, labels);
  }

  /** Until then, if no check throws, some step can be taken: no run gets stuck. */
  lemma NotStuck(start: map<LinkId, Link>, ids: seq<LinkId>, crawl: Crawl, labels: seq<Label>)
    requires Distinct(ids) && !Finished(Run(Initial(start, |ids|), ids, crawl, labels), ids)
    requires Run(Initial(start, |ids|), ids, crawl, labels).failed == {}
    ensures exists l: Label :: !l.Other? && !l.Fail? && Enabled(Run(Initial(start, |ids|), ids, crawl, labels), ids, l)
  {
    EveryRunIsInv(start, ids, crawl, labels);
    var s := Run(Initial(start, |ids|), ids, crawl, labels);
    if ChunkOver(s) {
      assert Enabled(s, ids, NextChunk);
    } else {
      var k :| s.from <= k < s.to && k < |s.checks.stages| && s.checks.stages[k] != Over;
      assert Enabled(s, ids, Step(k, 0));
    }
  }

  // ----- what the database counts -----

  /** At every moment of a run a link that was unfinished at the start is finished exactly if it has been saved. */
  lemma FinishedIffSaved(start: map<LinkId, Link>, ids: seq<LinkId>, crawl: Crawl, labels: seq<Label>, k: nat)
    requires Distinct(ids) && k < |ids| && ids[k] in start && start[ids[k]].status !in {DONE, ERROR}
    ensures var p := Run(Initial(start, |ids|), ids, crawl, labels).checks;
      && |p.stages| == |ids| && ids[k] in p.links
      && (p.links[ids[k]].status in {DONE, ERROR} <==> p.stages[k] == Saved || p.stages[k] == Over)
  {
    EveryRunIsInv(start, ids, crawl, labels);
    var p := Run(Initial(start, |ids|), ids, crawl, labels).checks;
    assert LinkIsAt(start, p.links, ids[k], p.stages[k], p.writes, p.log, crawl);
    RowsAreIndependent(start, p.writes, ids[k]);
    MarkedRow(start[ids[k]]);
    if p.stages[k] == Saved || p.stages[k] == Over {
      OnceCheckedIsProcessed(start[ids[k]], WritesOf(p.writes, ids[k]), CheckOf(crawl, ids[k], start[ids[k]]));
    }
  }

  /**
   * When a chunk is over, whatever other processors write meanwhile, the database counts
   * as processed exactly the links that are through: the number the loop publishes.
   */
  lemma CountIsExact(start: map<LinkId, Link>, ids: seq<LinkId>, crawl: Crawl, labels: seq<Label>)
    requires Distinct(ids)
    requires forall k :: 0 <= k < |ids| ==> ids[k] in start && start[ids[k]].status !in {DONE, ERROR}
    requires ChunkOver(Run(Initial(start, |ids|), ids, crawl, labels))
    ensures var s := Run(Initial(start, |ids|), ids, crawl, labels);
      ProgressCounts(s.checks.links, ids).processed == s.to
  {
    EveryRunIsInv(start, ids, crawl, labels);
    var s := Run(Initial(start, |ids|), ids, crawl, labels);
    forall k | 0 <= k < |ids|
      ensures ids[k] in s.checks.links && (s.checks.links[ids[k]].status in {DONE, ERROR} <==> k < s.to)
    {
      FinishedIffSaved(start, ids, crawl, labels, k);
    }
    ProcessedCount(s.checks.links, ids, s.to);
  }

  // ----- a check that throws -----

  lemma {:induction false} FailureStays(s: System, ids: seq<LinkId>, crawl: Crawl, labels: seq<Label>)
    requires s.failed != {}
    ensures var s' := Run(s, ids, crawl, labels); s'.failed != {} && s'.to == s.to
    decreases labels
  {
    if labels != [] { FailureStays(Next(s, ids, crawl, labels[0]), ids, crawl, labels[1..]); }
  }

  lemma {:induction false} RunConcat(s: System, ids: seq<LinkId>, crawl: Crawl, front: seq<Label>, back: seq<Label>)
    ensures Run(s, ids, crawl, front + back) == Run(Run(s, ids, crawl, front), ids, crawl, back)
    decreases front
  {
    if front == [] {
      assert front + back == back;
    } else {
      assert (front + back)[1..] == front[1..] + back;
      RunConcat(Next(s, ids, crawl, front[0]), ids, crawl, front[1..], back);
    }
  }

  /** Once a check has thrown, no link after the current chunk is ever begun: no write, no event. */
  lemma FailureStopsTheRun(start: map<LinkId, Link>, ids: seq<LinkId>, crawl: Crawl,
                           labels: seq<Label>, more: seq<Label>, k: nat)
    requires Distinct(ids) && Run(Initial(start, |ids|), ids, crawl, labels).failed != {}
    requires Run(Initial(start, |ids|), ids, crawl, labels).to <= k < |ids|
    ensures var p := Run(Initial(start, |ids|), ids, crawl, labels + more).checks;
      WritesOf(p.writes, ids[k]) == [] && EventsOf(p.log, ids[k]) == []
  {
    RunConcat(Initial(start, |ids|), ids, crawl, labels, more);
    FailureStays(Run(Initial(start, |ids|), ids, crawl, labels), ids, crawl, more);
    EveryRunIsInv(start, ids, crawl, labels + more);
    var p := Run(Initial(start, |ids|), ids, crawl, labels + more).checks;
    assert LinkIsAt(start, p.links, ids[k], p.stages[k], p.writes, p.log, crawl);
  }
}
