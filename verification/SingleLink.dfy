/**
 * Checking links (apps/worker/src/modules/queue/single-link.processor.ts), step by
 * step: every `await` of processOne ends a step, and Promise.all lets the steps of
 * many links come in any order.
 */
module SingleLink {
  import opened Options
  import opened Clocks
  import opened CrawlResults
  import opened LinkRows
  import opened Events

  /** What the crawler reports for a link, its donor URL and its acceptor. */
  type Crawl = (LinkId, string, string) -> CrawlResult

  function CheckOf(crawl: Crawl, id: LinkId, row: Link): CrawlResult {
    crawl(id, row.donorUrl, row.acceptorRaw)
  }

  /** A row that has been marked, crawled and saved; its own time stamp says when. */
  predicate IsProcessed(before: Link, after: Link, result: CrawlResult) {
    after.lastCheckedAt.Some? && after == SaveRow(MarkRow(before, CHECKING), result, after.lastCheckedAt.value)
  }

  // ----- the steps of one link -----

  datatype Stage = Ahead | Loaded | Marked | Told | Saved | Over

  function Left(stage: Stage): nat {
    match stage
    case Ahead => 5
    case Loaded => 4
    case Marked => 3
    case Told => 2
    case Saved => 1
    case Over => 0
  }

  /** Where a step leads, what it writes to the link's row, and what it publishes. */
  datatype Effect = Effect(stage: Stage, write: Option<Write>, event: Option<Event>)

  /** A link that is gone is skipped; otherwise load, mark, tell, crawl and save, tell. */
  function NextStep(links: map<LinkId, Link>, id: LinkId, stage: Stage, crawl: Crawl, now: int): Effect
    requires stage != Over
  {
    if id !in links then Effect(Over, None, None)
    else
      var row := links[id];
      match stage
      case Ahead => Effect(Loaded, None, None)
      case Loaded => Effect(Marked, Some(Mark(CHECKING)), None)
      case Marked => Effect(Told, None, Some(LinkUpdated(id, row.projectId, CHECKING_FIELDS)))
      case Told => Effect(Saved, Some(Save(CheckOf(crawl, id, row), now)), None)
      case Saved => Effect(Over, None, Some(LinkUpdated(id, row.projectId, FieldsOf(row))))
  }

  /** The steps in plain terms. */
  lemma StepsInPlainTerms(links: map<LinkId, Link>, id: LinkId, stage: Stage, crawl: Crawl, now: int)
    requires stage != Over
    ensures id !in links ==> NextStep(links, id, stage, crawl, now) == Effect(Over, None, None)
    ensures id in links ==> var row, e := links[id], NextStep(links, id, stage, crawl, now);
      && (stage == Ahead ==> e == Effect(Loaded, None, None))
      && (stage == Loaded ==> e == Effect(Marked, Some(Mark(CHECKING)), None))
      && (stage == Marked ==> e == Effect(Told, None,
            Some(LinkUpdated(id, row.projectId, LiveFields(CHECKING, None, 0, None, None, None)))))
      && (stage == Told ==> e == Effect(Saved, Some(Save(crawl(id, row.donorUrl, row.acceptorRaw), now)), None))
      && (stage == Saved ==> e == Effect(Over, None, Some(LinkUpdated(id, row.projectId,
            LiveFields(row.status, row.linkFound, row.occurrencesCount, row.donorStatusCode, row.error,
                       row.lastCheckedAt)))))
  {
  }

  function Written(links: map<LinkId, Link>, id: LinkId, w: Option<Write>): map<LinkId, Link> {
    if w.Some? && id in links then links[id := WriteRow(links[id], w.value)] else links
  }

  function AddWrite(writes: seq<(LinkId, Write)>, id: LinkId, w: Option<Write>): seq<(LinkId, Write)> {
    if w.Some? then writes + [(id, w.value)] else writes
  }

  function AddEvent(log: seq<Event>, e: Option<Event>): seq<Event> {
    if e.Some? then log + [e.value] else log
  }

  // ----- what the writes and events of a link say about its stage -----

  /** Marked once, then saved once with this result. */
  predicate OnceChecked(ws: seq<Write>, result: CrawlResult) {
    |ws| == 2 && ws[0] == Mark(CHECKING) && ws[1].Save? && ws[1].result == result
  }

  predicate WritesFit(start: map<LinkId, Link>, id: LinkId, stage: Stage, ws: seq<Write>, crawl: Crawl) {
    if id !in start then ws == [] && (stage == Ahead || stage == Over)
    else if stage == Ahead || stage == Loaded then ws == []
    else if stage == Marked || stage == Told then ws == [Mark(CHECKING)]
    else OnceChecked(ws, CheckOf(crawl, id, start[id]))
  }

  /** What has been published of a link by the time it is at a stage: its mark, and its saved columns. */
  function Published(links: map<LinkId, Link>, id: LinkId, stage: Stage): seq<Event> {
    if id !in links || 3 <= Left(stage) then []
    else
      var first := LinkUpdated(id, links[id].projectId, CHECKING_FIELDS);
      if stage == Over then [first, LinkUpdated(id, links[id].projectId, FieldsOf(links[id]))] else [first]
  }

  /** The events of a log that tell of one link, in order. */
  function EventsOf(log: seq<Event>, id: LinkId): seq<Event> {
    if log == [] then []
    else
      var last := log[|log| - 1];
      EventsOf(log[..|log| - 1], id) + if last.LinkUpdated? && last.linkId == id then [last] else []
  }

  /** The table, how far each link is, and the writes and events so far, in the order they came. */
  datatype Checks = Checks(
    links: map<LinkId, Link>, stages: seq<Stage>, writes: seq<(LinkId, Write)>, log: seq<Event>)

  /** Link `k` takes its next step. */
  function StepOf(p: Checks, ids: seq<LinkId>, k: nat, crawl: Crawl, now: int): Checks
    requires k < |ids| == |p.stages| && p.stages[k] != Over
  {
    var e := NextStep(p.links, ids[k], p.stages[k], crawl, now);
    Checks(Written(p.links, ids[k], e.write), p.stages[k := e.stage],
             AddWrite(p.writes, ids[k], e.write), AddEvent(p.log, e.event))
  }

  /**
   * The links `ids` are at their stages: the table is what the writes made of `start`, and
   * each link has the writes and the events its stage says, no more and no fewer.
   */
  ghost predicate AtStages(start: map<LinkId, Link>, p: Checks, ids: seq<LinkId>, crawl: Crawl) {
    && |p.stages| == |ids| && p.links == Table(start, p.writes)
    && forall k :: 0 <= k < |ids| ==> LinkIsAt(start, p.links, ids[k], p.stages[k], p.writes, p.log, crawl)
  }

  predicate LinkIsAt(start: map<LinkId, Link>, links: map<LinkId, Link>, id: LinkId, stage: Stage,
                     writes: seq<(LinkId, Write)>, log: seq<Event>, crawl: Crawl)
  {
    WritesFit(start, id, stage, WritesOf(writes, id), crawl) && EventsOf(log, id) == Published(links, id, stage)
  }

  lemma {:induction false} TableOneMore(links: map<LinkId, Link>, writes: seq<(LinkId, Write)>, id: LinkId, w: Write)
    ensures Table(links, writes + [(id, w)]) == Written(Table(links, writes), id, Some(w))
    decreases writes
  {
    if writes == [] {
      assert writes + [(id, w)] == [(id, w)] && [(id, w)][1..] == [];
    } else {
      var (first, v) := writes[0];
      var next := if first in links then links[first := WriteRow(links[first], v)] else links;
      assert (writes + [(id, w)])[1..] == writes[1..] + [(id, w)];
      TableOneMore(next, writes[1..], id, w);
    }
  }

  lemma {:induction false} WritesOneMore(writes: seq<(LinkId, Write)>, id: LinkId, w: Write, other: LinkId)
    ensures WritesOf(writes + [(id, w)], other) == WritesOf(writes, other) + if id == other then [w] else []
    decreases writes
  {
    if writes == [] {
      assert writes + [(id, w)] == [(id, w)] && [(id, w)][1..] == [];
    } else {
      assert (writes + [(id, w)])[1..] == writes[1..] + [(id, w)];
      WritesOneMore(writes[1..], id, w, other);
    }
  }

  lemma EventsOneMore(log: seq<Event>, e: Event, id: LinkId)
    ensures EventsOf(log + [e], id) == EventsOf(log, id) + if e.LinkUpdated? && e.linkId == id then [e] else []
  {
    assert (log + [e])[..|log|] == log;
  }

  /** One step of `id` leaves every other link where it was. */
  lemma OthersStay(start: map<LinkId, Link>, links: map<LinkId, Link>, id: LinkId, e: Effect,
                   other: LinkId, stage: Stage, writes: seq<(LinkId, Write)>, log: seq<Event>, crawl: Crawl)
    requires other != id && LinkIsAt(start, links, other, stage, writes, log, crawl)
    requires e.event.Some? ==> e.event.value.LinkUpdated? ==> e.event.value.linkId == id
    ensures LinkIsAt(start, Written(links, id, e.write), other, stage,
                     AddWrite(writes, id, e.write), AddEvent(log, e.event), crawl)
  {
    if e.write.Some? { WritesOneMore(writes, id, e.write.value, other); }
    if e.event.Some? { EventsOneMore(log, e.event.value, other); }
  }

  /** A marked row is still the row of the same donor and acceptor. */
  lemma MarkedRow(row: Link)
    ensures WriteAll(row, []) == row && WriteAll(row, [Mark(CHECKING)]) == MarkRow(row, CHECKING)
  {
    assert [Mark(CHECKING)][1..] == [];
  }

  /** A step takes its own link to the next stage: its writes... */
  lemma OwnWritesFit(start: map<LinkId, Link>, links: map<LinkId, Link>, id: LinkId, stage: Stage,
                     writes: seq<(LinkId, Write)>, crawl: Crawl, now: int)
    requires links == Table(start, writes) && stage != Over
    requires WritesFit(start, id, stage, WritesOf(writes, id), crawl)
    ensures var e := NextStep(links, id, stage, crawl, now);
      WritesFit(start, id, e.stage, WritesOf(AddWrite(writes, id, e.write), id), crawl)
  {
    var e := NextStep(links, id, stage, crawl, now);
    RowsAreIndependent(start, writes, id);
    if id in start { MarkedRow(start[id]); }
    if e.write.Some? {
      WritesOneMore(writes, id, e.write.value, id);
      assert WritesOf(writes + [(id, e.write.value)], id) == WritesOf(writes, id) + [e.write.value];
    }
  }

  lemma PublishedOneMore(links: map<LinkId, Link>, id: LinkId, stage: Stage, crawl: Crawl, now: int)
    requires stage != Over
    ensures var e := NextStep(links, id, stage, crawl, now);
      Published(Written(links, id, e.write), id, e.stage)
      == Published(links, id, stage) + if e.event.Some? then [e.event.value] else []
  {
  }

  /** ...and its events. */
  lemma OwnEventsFit(links: map<LinkId, Link>, id: LinkId, stage: Stage, log: seq<Event>, crawl: Crawl, now: int)
    requires stage != Over && EventsOf(log, id) == Published(links, id, stage)
    ensures var e := NextStep(links, id, stage, crawl, now);
      EventsOf(AddEvent(log, e.event), id) == Published(Written(links, id, e.write), id, e.stage)
  {
    var e := NextStep(links, id, stage, crawl, now);
    PublishedOneMore(links, id, stage, crawl, now);
    if e.event.Some? {
      EventsOneMore(log, e.event.value, id);
    } else {
      assert Published(links, id, stage) + [] == Published(links, id, stage);
    }
  }

  lemma StepKeepsStages(start: map<LinkId, Link>, p: Checks, ids: seq<LinkId>, k: nat, crawl: Crawl, now: int)
    requires Distinct(ids) && AtStages(start, p, ids, crawl)
    requires k < |ids| && p.stages[k] != Over
    ensures AtStages(start, StepOf(p, ids, k, crawl, now), ids, crawl)
  {
    var e, p' := NextStep(p.links, ids[k], p.stages[k], crawl, now), StepOf(p, ids, k, crawl, now);
    if e.write.Some? { TableOneMore(start, p.writes, ids[k], e.write.value); }
    forall m | 0 <= m < |ids| ensures LinkIsAt(start, p'.links, ids[m], p'.stages[m], p'.writes, p'.log, crawl) {
      assert LinkIsAt(start, p.links, ids[m], p.stages[m], p.writes, p.log, crawl);
      if m == k {
        OwnWritesFit(start, p.links, ids[k], p.stages[k], p.writes, crawl, now);
        OwnEventsFit(p.links, ids[k], p.stages[k], p.log, crawl, now);
      } else {
        OthersStay(start, p.links, ids[k], e, ids[m], p.stages[m], p.writes, p.log, crawl);
      }
    }
  }

  // ----- many links, every interleaving -----

  /** Each link of `ids` that exists is marked once and saved once; no other link is written. */
  ghost predicate EachOnce(start: map<LinkId, Link>, ids: seq<LinkId>, writes: seq<(LinkId, Write)>, crawl: Crawl) {
    && (forall k :: 0 <= k < |ids| ==> WritesFit(start, ids[k], Over, WritesOf(writes, ids[k]), crawl))
    && (forall id :: id !in ids ==> WritesOf(writes, id) == [])
  }

  lemma OnceCheckedIsProcessed(row: Link, ws: seq<Write>, result: CrawlResult)
    requires OnceChecked(ws, result)
    ensures IsProcessed(row, WriteAll(row, ws), result)
  {
    var marked := MarkRow(row, CHECKING);
    assert ws[1..] == [ws[1]] && [ws[1]][1..] == [];
    assert WriteAll(row, ws) == WriteAll(marked, [ws[1]]);
    assert WriteAll(marked, [ws[1]]) == WriteRow(marked, ws[1]);
  }

  /** In whatever order the steps came, every link is processed and every other row is as it was. */
  lemma EachOnceProcesses(start: map<LinkId, Link>, ids: seq<LinkId>, writes: seq<(LinkId, Write)>, crawl: Crawl,
                          id: LinkId)
    requires EachOnce(start, ids, writes, crawl)
    ensures Table(start, writes).Keys == start.Keys
    ensures id in start && id in ids ==> IsProcessed(start[id], Table(start, writes)[id], CheckOf(crawl, id, start[id]))
    ensures id in start && id !in ids ==> Table(start, writes)[id] == start[id]
  {
    RowsAreIndependent(start, writes, id);
    if id in start && id in ids {
      var k :| 0 <= k < |ids| && ids[k] == id;
      OnceCheckedIsProcessed(start[id], WritesOf(writes, ids[k]), CheckOf(crawl, id, start[id]));
    }
  }

  /** The steps still to be taken. */
  function Work(stages: seq<Stage>): nat {
    if stages == [] then 0 else Work(stages[..|stages| - 1]) + Left(stages[|stages| - 1])
  }

  lemma {:induction false} WorkDrops(stages: seq<Stage>, k: nat, stage: Stage)
    requires k < |stages|
    ensures Work(stages[k := stage]) == Work(stages) - Left(stages[k]) + Left(stage)
  {
    var n := |stages| - 1;
    if k == n {
      assert stages[k := stage][..n] == stages[..n];
    } else {
      assert stages[k := stage][..n] == stages[..n][k := stage];
      WorkDrops(stages[..n], k, stage);
    }
  }

  predicate OnlyUpdates(log: seq<Event>) {
    forall i :: 0 <= i < |log| ==> log[i].LinkUpdated?
  }

  /** Saves carry the time they were made at. */
  predicate SavedBetween(writes: seq<(LinkId, Write)>, from: int, to: int) {
    forall i :: 0 <= i < |writes| && writes[i].1.Save? ==> from <= writes[i].1.now <= to
  }

  predicate OnlyThese(writes: seq<(LinkId, Write)>, ids: seq<LinkId>) {
    forall i :: 0 <= i < |writes| ==> writes[i].0 in ids
  }

  lemma StepStaysWithin(p: Checks, ids: seq<LinkId>, k: nat, crawl: Crawl, now: int)
    requires k < |ids| == |p.stages| && p.stages[k] != Over
    requires OnlyThese(p.writes, ids) && OnlyUpdates(p.log)
    ensures var p' := StepOf(p, ids, k, crawl, now);
      OnlyThese(p'.writes, ids) && OnlyUpdates(p'.log) && Work(p'.stages) < Work(p.stages)
  {
    WorkDrops(p.stages, k, NextStep(p.links, ids[k], p.stages[k], crawl, now).stage);
  }

  lemma StepSavesNow(p: Checks, ids: seq<LinkId>, k: nat, crawl: Crawl, from: int, to: int, now: int)
    requires k < |ids| == |p.stages| && p.stages[k] != Over
    requires SavedBetween(p.writes, from, to) && from <= to <= now
    ensures SavedBetween(StepOf(p, ids, k, crawl, now).writes, from, now)
  {
    var e := NextStep(p.links, ids[k], p.stages[k], crawl, now);
    assert e.write.Some? && e.write.value.Save? ==> e.write.value.now == now;
  }

  lemma {:induction false} OthersUnwritten(writes: seq<(LinkId, Write)>, ids: seq<LinkId>, id: LinkId)
    requires OnlyThese(writes, ids) && id !in ids
    ensures WritesOf(writes, id) == []
  {
    if writes != [] {
      assert writes[0].0 in ids;
      forall i | 0 <= i < |writes[1..]| ensures writes[1..][i].0 in ids { assert writes[i + 1].0 in ids; }
      OthersUnwritten(writes[1..], ids, id);
    }
  }

  /** All steps are through: what has been done is exactly one check of each link. */
  lemma AllOverIsEachOnce(start: map<LinkId, Link>, p: Checks, ids: seq<LinkId>, crawl: Crawl)
    requires AtStages(start, p, ids, crawl) && OnlyThese(p.writes, ids)
    requires forall k :: 0 <= k < |ids| ==> p.stages[k] == Over
    ensures EachOnce(start, ids, p.writes, crawl)
    ensures forall k :: 0 <= k < |ids| ==> EventsOf(p.log, ids[k]) == Published(p.links, ids[k], Over)
  {
    forall k | 0 <= k < |ids|
      ensures WritesFit(start, ids[k], Over, WritesOf(p.writes, ids[k]), crawl)
      ensures EventsOf(p.log, ids[k]) == Published(p.links, ids[k], Over)
    {
      assert LinkIsAt(start, p.links, ids[k], p.stages[k], p.writes, p.log, crawl);
    }
    forall id | id !in ids ensures WritesOf(p.writes, id) == [] { OthersUnwritten(p.writes, ids, id); }
  }

  function Begin(links: map<LinkId, Link>, n: nat): Checks {
    Checks(links, seq(n, _ => Ahead), [], [])
  }

  ghost predicate Underway(start: map<LinkId, Link>, p: Checks, ids: seq<LinkId>, crawl: Crawl) {
    AtStages(start, p, ids, crawl) && OnlyThese(p.writes, ids) && OnlyUpdates(p.log)
  }

  lemma BeginIsUnderway(start: map<LinkId, Link>, ids: seq<LinkId>, crawl: Crawl)
    ensures Underway(start, Begin(start, |ids|), ids, crawl)
  {
  }

  lemma StepKeepsUnderway(start: map<LinkId, Link>, p: Checks, ids: seq<LinkId>, k: nat, crawl: Crawl, now: int)
    requires Distinct(ids) && Underway(start, p, ids, crawl) && k < |ids| && p.stages[k] != Over
    ensures var p' := StepOf(p, ids, k, crawl, now);
      Underway(start, p', ids, crawl) && Work(p'.stages) < Work(p.stages)
  {
    StepKeepsStages(start, p, ids, k, crawl, now);
    StepStaysWithin(p, ids, k, crawl, now);
  }

  class SingleLinkProcessor {
    const links: LinkRepository
    const publisher: ProgressPublisher

    constructor (links: LinkRepository, publisher: ProgressPublisher)
      ensures this.links == links && this.publisher == publisher
    {
      this.links, this.publisher := links, publisher;
    }

    /** From one `await` of processOne to the next; time has passed since the last one. */
    method Advance(id: LinkId, stage: Stage, crawl: Crawl, clock: Clock) returns (stage': Stage)
      requires stage != Over
      modifies links`links, publisher`log, clock
      ensures old(clock.now) <= clock.now
      ensures var e := NextStep(old(links.links), id, stage, crawl, clock.now);
        && stage' == e.stage && links.links == Written(old(links.links), id, e.write)
        && publisher.log == AddEvent(old(publisher.log), e.event)
    {
      clock.Pass();
      if id !in links.links { return Over; }
      var link := links.links[id];
      match stage {
        case Ahead =>
          stage' := Loaded;
        case Loaded =>
          var marked := links.MarkStatus(id, CHECKING);
          stage' := Marked;
        case Marked =>
          publisher.PublishNow(LinkUpdated(id, link.projectId, CHECKING_FIELDS));
          stage' := Told;
        case Told =>
          var saved := links.SaveResult(id, crawl(id, link.donorUrl, link.acceptorRaw), clock.now);
          stage' := Saved;
        case Saved =>
          publisher.PublishNow(LinkUpdated(id, link.projectId, FieldsOf(link)));
          stage' := Over;
      }
    }

    /**
     * Check one link: mark it, announce it, save what the crawl of its own donor and
     * acceptor reports, announce the saved row. A link that is gone is skipped without a
     * trace.
     */
    method ProcessOne(id: LinkId, crawl: Crawl, clock: Clock)
      modifies links`links, publisher`log, clock
      ensures old(clock.now) <= clock.now
      ensures links.links.Keys == old(links.links).Keys
      ensures forall other :: other in links.links && other != id ==> links.links[other] == old(links.links)[other]
      ensures id in links.links ==>
        var before := old(links.links)[id];
        var r, at := crawl(id, before.donorUrl, before.acceptorRaw), links.links[id].lastCheckedAt;
        && IsProcessed(before, links.links[id], r)
        && at.Some? && old(clock.now) <= at.value <= clock.now
        && publisher.log == old(publisher.log) + [
             LinkUpdated(id, before.projectId, LiveFields(CHECKING, None, 0, None, None, None)),
             LinkUpdated(id, before.projectId, LiveFields(if r.ok then DONE else ERROR, r.linkFound,
               r.occurrencesCount, r.donorStatusCode, r.error, at))]
      ensures id !in links.links ==> publisher.log == old(publisher.log)
    {
      var stage := Advance(id, Ahead, crawl, clock);
      if stage == Over { return; }
      stage := Advance(id, Loaded, crawl, clock);
      stage := Advance(id, Marked, crawl, clock);
      stage := Advance(id, Told, crawl, clock);
      stage := Advance(id, Saved, crawl, clock);
    }

    /** Link `k` takes its next step, as StepOf says. */
    method OneStep(ids: seq<LinkId>, stages: seq<Stage>, k: nat, crawl: Crawl, clock: Clock,
                   ghost p: Checks, ghost earlier: seq<Event>)
      returns (stages': seq<Stage>, ghost p': Checks)
      requires k < |ids| == |stages| && stages[k] != Over && p.stages == stages && p.links == links.links
      requires publisher.log == earlier + p.log
      modifies links`links, publisher`log, clock
      ensures old(clock.now) <= clock.now
      ensures p' == StepOf(p, ids, k, crawl, clock.now) && links.links == p'.links && stages' == p'.stages
      ensures publisher.log == earlier + p'.log
    {
      var stage := Advance(ids[k], stages[k], crawl, clock);
      stages', p' := stages[k := stage], StepOf(p, ids, k, crawl, clock.now);
    }

    /**
     * Promise.all over processOne: as long as some link has a step to take, any such link
     * takes its next one. `writes` are the writes and `log` the events in the order they
     * came; whatever the order, each link is checked exactly once.
     */
    method ProcessAll(ids: seq<LinkId>, crawl: Crawl, clock: Clock)
      returns (ghost writes: seq<(LinkId, Write)>, ghost log: seq<Event>)
      requires Distinct(ids)
      modifies links`links, publisher`log, clock
      ensures old(clock.now) <= clock.now
      ensures links.links == Table(old(links.links), writes) && EachOnce(old(links.links), ids, writes, crawl)
      ensures SavedBetween(writes, old(clock.now), clock.now)
      ensures publisher.log == old(publisher.log) + log && OnlyUpdates(log)
      ensures forall k :: 0 <= k < |ids| ==> EventsOf(log, ids[k]) == Published(links.links, ids[k], Over)
    {
      var stages: seq<Stage> := seq(|ids|, _ => Ahead);
      ghost var start, p := links.links, Begin(links.links, |ids|);
      BeginIsUnderway(start, ids, crawl);
      while exists k :: 0 <= k < |stages| && stages[k] != Over
        invariant old(clock.now) <= clock.now
        invariant links.links == p.links && stages == p.stages && publisher.log == old(publisher.log) + p.log
        invariant Underway(start, p, ids, crawl) && SavedBetween(p.writes, old(clock.now), clock.now)
        decreases Work(stages)
      {
        var k :| 0 <= k < |stages| && stages[k] != Over;
        ghost var p', since := p, clock.now;
        stages, p' := OneStep(ids, stages, k, crawl, clock, p, old(publisher.log));
        StepKeepsUnderway(start, p, ids, k, crawl, clock.now);
        StepSavesNow(p, ids, k, crawl, old(clock.now), since, clock.now);
        p := p';
      }
      AllOverIsEachOnce(start, p, ids, crawl);
      writes, log := p.writes, p.log;
    }
  }
}
