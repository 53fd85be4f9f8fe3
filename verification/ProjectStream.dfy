/**
 * The browser's cached link pages, patched by the event stream
 * (apps/web/src/hooks/useProjectStream.ts, `applyEvent`), against the table the
 * events come from. Any number of links are checked at once; one link by one
 * processor at a time. Links come and go, and some writes publish no event.
 */
module ProjectStream {
  import opened Options
  import opened CrawlResults
  import opened LinkRows
  import opened Events

  /** A cached row: its id and the row as the list endpoint returned it. */
  datatype Item = Item(id: LinkId, row: Link)
  datatype Page = Page(items: seq<Item>, total: nat, page: nat, limit: nat)
  type Pages = seq<Page>

  /** The row with the six live columns of an event. */
  function PatchRow(row: Link, f: LiveFields): Link {
    row.(status := f.status, linkFound := f.linkFound, occurrencesCount := f.occurrencesCount,
         donorStatusCode := f.donorStatusCode, error := f.error, lastCheckedAt := f.lastCheckedAt)
  }

  function PatchItem(item: Item, e: Event): Item {
    if e.LinkUpdated? && item.id == e.linkId then item.(row := PatchRow(item.row, e.fields)) else item
  }

  /** applyEvent on the cached pages: every item is mapped, nothing else is touched. */
  function ApplyEvent(pages: Pages, e: Event): Pages {
    seq(|pages|, i requires 0 <= i < |pages| =>
      pages[i].(items := seq(|pages[i].items|, j requires 0 <= j < |pages[i].items| =>
        PatchItem(pages[i].items[j], e))))
  }

  /** The events of a log folded in publish order. */
  function Fold(pages: Pages, log: seq<Event>): Pages {
    if log == [] then pages else ApplyEvent(Fold(pages, log[..|log| - 1]), log[|log| - 1])
  }

  /** The same row apart from the six live columns. */
  predicate SameRest(a: Link, b: Link) {
    a == b.(status := a.status, linkFound := a.linkFound, occurrencesCount := a.occurrencesCount,
            donorStatusCode := a.donorStatusCode, error := a.error, lastCheckedAt := a.lastCheckedAt)
  }

  /** Same pages, same rows on them, same columns apart from the live ones. */
  ghost predicate SameShape(a: Pages, b: Pages) {
    && |a| == |b|
    && forall i :: 0 <= i < |a| ==>
         && |a[i].items| == |b[i].items|
         && (a[i].total, a[i].page, a[i].limit) == (b[i].total, b[i].page, b[i].limit)
         && forall j :: 0 <= j < |a[i].items| ==>
              a[i].items[j].id == b[i].items[j].id && SameRest(a[i].items[j].row, b[i].items[j].row)
  }

  lemma {:induction false} FoldKeepsShape(pages: Pages, log: seq<Event>)
    ensures SameShape(Fold(pages, log), pages)
  {
    if log != [] { FoldKeepsShape(pages, log[..|log| - 1]); }
  }

  // ----- the system -----

  /** Where the processing of one link stands. `Queued` is a mark no event tells of; `Dead` a check that died. */
  datatype Stage = Idle | Queued | Marked | Crawling | Saved | Dead

  /** `known` are the ids of all rows there ever were: an id is not used twice. */
  datatype System = System(
    links: map<LinkId, Link>, stages: map<LinkId, Stage>, log: seq<Event>, known: set<LinkId>)

  /** `SaveSilently` is the sheets run failing a malformed row: a save that no event tells of. */
  datatype Label =
    | Queue(ids: seq<LinkId>)
    | MarkChecking(id: LinkId)
    | TellChecking(id: LinkId)
    | SaveResult(id: LinkId, result: CrawlResult, now: int)
    | TellSaved(id: LinkId)
    | Die(id: LinkId)
    | SaveSilently(id: LinkId, result: CrawlResult, now: int)
    | Insert(id: LinkId, row: Link)
    | Remove(gone: set<LinkId>)
    | OtherEvent(e: Event)

  predicate At(s: System, id: LinkId, stage: Stage) {
    id in s.links && id in s.stages && s.stages[id] == stage
  }

  /** Nobody is checking the link: a check has ended, or died. */
  predicate Unchecked(s: System, id: LinkId) {
    At(s, id, Idle) || At(s, id, Dead)
  }

  /** One processing per link at a time; a bulk run queues only rows nobody is checking. */
  predicate Enabled(s: System, l: Label) {
    match l
    case Queue(ids) => forall id :: id in ids && id in s.links ==> Unchecked(s, id)
    case MarkChecking(id) => Unchecked(s, id) || At(s, id, Queued)
    case TellChecking(id) => At(s, id, Marked)
    case SaveResult(id, _, _) => At(s, id, Crawling)
    case TellSaved(id) => At(s, id, Saved)
    case Die(id) => At(s, id, Queued) || At(s, id, Marked) || At(s, id, Crawling) || At(s, id, Saved)
    case SaveSilently(id, _, _) => At(s, id, Idle)
    case Insert(id, _) => id !in s.known
    case Remove(_) => true
    case OtherEvent(e) => !e.LinkUpdated?
  }

  function Write(s: System, id: LinkId, row: Link, stage: Stage): System {
    s.(links := s.links[id := row], stages := s.stages[id := stage])
  }

  function Tell(s: System, id: LinkId, fields: LiveFields, stage: Stage): System
    requires id in s.links
  {
    s.(stages := s.stages[id := stage], log := s.log + [LinkUpdated(id, s.links[id].projectId, fields)])
  }

  function Next(s: System, l: Label): System {
    if !Enabled(s, l) then s
    else match l
      case Queue(ids) => s.(
        links := map id | id in s.links :: if id in ids then MarkRow(s.links[id], QUEUED) else s.links[id],
        stages := map id | id in s.stages :: if id in ids then Queued else s.stages[id])
      case MarkChecking(id) => Write(s, id, MarkRow(s.links[id], CHECKING), Marked)
      case TellChecking(id) => Tell(s, id, CHECKING_FIELDS, Crawling)
      case SaveResult(id, result, now) => Write(s, id, SaveRow(s.links[id], result, now), Saved)
      case TellSaved(id) => Tell(s, id, FieldsOf(s.links[id]), Idle)
      case Die(id) => s.(stages := s.stages[id := Dead])
      case SaveSilently(id, result, now) => Write(s, id, SaveRow(s.links[id], result, now), Idle)
      case Insert(id, row) => Write(s, id, row, Idle).(known := s.known + {id})
      case Remove(gone) => s.(links := s.links - gone, stages := s.stages - gone)
      case OtherEvent(e) => s.(log := s.log + [e])
  }

  function Run(s: System, labels: seq<Label>): System
    decreases labels
  {
    if labels == [] then s else Run(Next(s, labels[0]), labels[1..])
  }

  /**
   * A check can always be begun on a row nobody is checking, and carried through: it
   * leaves the saved row and two events, and every other row as it was.
   */
  lemma CheckRunsThrough(s: System, id: LinkId, result: CrawlResult, now: int)
    requires Unchecked(s, id) || At(s, id, Queued)
    ensures var row := SaveRow(MarkRow(s.links[id], CHECKING), result, now);
      var labels := [MarkChecking(id), TellChecking(id), Label.SaveResult(id, result, now), TellSaved(id)];
      Run(s, labels) == s.(
        links := s.links[id := row], stages := s.stages[id := Idle],
        log := s.log + [LinkUpdated(id, row.projectId, LiveFields(CHECKING, None, 0, None, None, None))]
          + [LinkUpdated(id, row.projectId, LiveFields(row.status, row.linkFound, row.occurrencesCount,
                                                       row.donorStatusCode, row.error, row.lastCheckedAt))])
  {
    var row := SaveRow(MarkRow(s.links[id], CHECKING), result, now);
    var s1 := Next(s, MarkChecking(id));
    var s2 := Next(s1, TellChecking(id));
    var s3 := Next(s2, Label.SaveResult(id, result, now));
    var s4 := Next(s3, TellSaved(id));
    RunFour(s, MarkChecking(id), TellChecking(id), Label.SaveResult(id, result, now), TellSaved(id));
    assert s3.links == s.links[id := row];
    assert s4.stages == s.stages[id := Idle];
  }

  lemma RunOne(s: System, labels: seq<Label>)
    requires labels != []
    ensures Run(s, labels) == Run(Next(s, labels[0]), labels[1..])
    ensures |labels| == 1 ==> Run(s, labels) == Next(s, labels[0])
  {
  }

  lemma RunFour(s: System, a: Label, b: Label, c: Label, d: Label)
    ensures Run(s, [a, b, c, d]) == Next(Next(Next(Next(s, a), b), c), d)
  {
    RunOne(s, [a, b, c, d]);
    RunOne(Next(s, a), [b, c, d]);
    RunOne(Next(Next(s, a), b), [c, d]);
    RunOne(Next(Next(Next(s, a), b), c), [d]);
  }

  /** A new row is there as inserted, in no stage of a check; rows that go leave nothing; no event tells of either. */
  lemma RowsComeAndGo(s: System, id: LinkId, row: Link, gone: set<LinkId>)
    requires s.links.Keys == s.stages.Keys <= s.known
    ensures id !in s.known ==> var s' := Next(s, Insert(id, row));
      s'.links == s.links[id := row] && At(s', id, Idle) && s'.log == s.log && s'.known == s.known + {id}
    ensures var s' := Next(s, Remove(gone));
      && s'.links.Keys == s'.stages.Keys == s.links.Keys - gone && s'.log == s.log && s'.known == s.known
      && forall k :: k in s'.links ==> s'.links[k] == s.links[k] && s'.stages[k] == s.stages[k]
  {
    assert Enabled(s, Remove(gone));
  }

  // ----- what the cache shows -----

  /** A cached row shows the live columns of its table row. */
  predicate Agrees(item: Item, links: map<LinkId, Link>) {
    && item.id in links
    && item.row.status == links[item.id].status && item.row.linkFound == links[item.id].linkFound
    && item.row.occurrencesCount == links[item.id].occurrencesCount
    && item.row.donorStatusCode == links[item.id].donorStatusCode
    && item.row.error == links[item.id].error && item.row.lastCheckedAt == links[item.id].lastCheckedAt
  }

  /** The cache now, given the snapshot it began with and how much of the log that snapshot had seen. */
  function CacheOf(snapshot: Pages, s: System, seen: nat): Pages
    requires seen <= |s.log|
  {
    Fold(snapshot, s.log[seen..])
  }

  lemma FoldOneMore(pages: Pages, log: seq<Event>, e: Event)
    ensures Fold(pages, log + [e]) == ApplyEvent(Fold(pages, log), e)
  {
    assert (log + [e])[..|log|] == log;
  }

  /**
   * What is known of a link on the table's side: its live columns when they were last
   * told (by the snapshot or by the event that ends a check), and the live columns of
   * the latest silent save since then, if there was one.
   */
  datatype History = History(told: LiveFields, untold: Option<LiveFields>)

  /** The live columns a save writes. */
  function SavedFields(r: CrawlResult, now: int): LiveFields {
    LiveFields(if r.ok then DONE else ERROR, r.linkFound, r.occurrencesCount, r.donorStatusCode, r.error, Some(now))
  }

  function HistoryStep(s: System, l: Label, id: LinkId, h: History): History {
    if !Enabled(s, l) then h
    else if l.TellSaved? && l.id == id then History(FieldsOf(s.links[id]), None)
    else if l.SaveSilently? && l.id == id then h.(untold := Some(SavedFields(l.result, l.now)))
    else h
  }

  function HistoryAfter(s: System, labels: seq<Label>, id: LinkId, h: History): History
    decreases labels
  {
    if labels == [] then h else HistoryAfter(Next(s, labels[0]), labels[1..], id, HistoryStep(s, labels[0], id, h))
  }

  /** The silent saves since the link was last told of left its live columns as they were told. */
  predicate NothingUntold(h: History) {
    h.untold.None? || h.untold.value == h.told
  }

  ghost predicate CacheShows(pages: Pages, id: LinkId, f: LiveFields) {
    forall i, j :: 0 <= i < |pages| && 0 <= j < |pages[i].items| && pages[i].items[j].id == id ==>
      FieldsOf(pages[i].items[j].row) == f
  }

  /** While a link is idle the cache shows what was told, and the table what was written last. */
  ghost predicate Tracked(s: System, pages: Pages, id: LinkId, h: History) {
    && id in s.known
    && (At(s, id, Idle) ==>
          && CacheShows(pages, id, h.told)
          && FieldsOf(s.links[id]) == if h.untold.Some? then h.untold.value else h.told)
  }

  function PagesAfter(s: System, l: Label, pages: Pages): Pages {
    var s' := Next(s, l);
    if |s'.log| == |s.log| + 1 then ApplyEvent(pages, s'.log[|s.log|]) else pages
  }

  lemma StepKeepsTrack(s: System, pages: Pages, id: LinkId, h: History, l: Label)
    requires Tracked(s, pages, id, h)
    ensures Tracked(Next(s, l), PagesAfter(s, l, pages), id, HistoryStep(s, l, id, h))
    ensures s.log <= Next(s, l).log && |Next(s, l).log| <= |s.log| + 1
  {
  }

  /** While a link is being checked the cache says so: no result yet, no error, no time. */
  lemma CheckingIsShown(s: System, pages: Pages, id: LinkId, i: nat, j: nat)
    requires At(s, id, Marked) && i < |pages| && j < |pages[i].items|
    ensures var item, item' := pages[i].items[j], PagesAfter(s, TellChecking(id), pages)[i].items[j];
      item' == if item.id != id then item
               else Item(id, item.row.(status := CHECKING, linkFound := None, occurrencesCount := 0,
                                       donorStatusCode := None, error := None, lastCheckedAt := None))
  {
    assert Enabled(s, TellChecking(id));
  }

  lemma {:induction false} RunKeepsTrack(s: System, snapshot: Pages, seen: nat, labels: seq<Label>,
                                         id: LinkId, h: History)
    requires seen <= |s.log| && Tracked(s, CacheOf(snapshot, s, seen), id, h)
    ensures var s' := Run(s, labels);
      seen <= |s'.log| && Tracked(s', CacheOf(snapshot, s', seen), id, HistoryAfter(s, labels, id, h))
    decreases labels
  {
    if labels != [] {
      var s1, cache := Next(s, labels[0]), CacheOf(snapshot, s, seen);
      StepKeepsTrack(s, cache, id, h, labels[0]);
      if |s1.log| != |s.log| {
        FoldOneMore(snapshot, s.log[seen..], s1.log[|s.log|]);
        assert s1.log[seen..] == s.log[seen..] + [s1.log[|s.log|]];
      } else {
        assert s1.log == s.log;
      }
      RunKeepsTrack(s1, snapshot, seen, labels[1..], id, HistoryStep(s, labels[0], id, h));
    }
  }

  /** A snapshot shows the table rows of its ids as they are when it is taken. */
  ghost predicate TakenFrom(snapshot: Pages, s: System) {
    forall i, j :: 0 <= i < |snapshot| && 0 <= j < |snapshot[i].items| ==>
      var item := snapshot[i].items[j];
      item.id in s.links && item.row == s.links[item.id]
  }

  /** The history of a link since a snapshot taken at `s`. */
  function Since(s: System, labels: seq<Label>, id: LinkId): History
    requires id in s.links
  {
    HistoryAfter(s, labels, id, History(FieldsOf(s.links[id]), None))
  }

  /**
   * Take a snapshot at any moment, even with checks under way, fold every later event
   * in publish order, and let any step happen. A cached row whose link is idle shows
   * the table's six live columns if and only if no silent save since the link was last
   * told of has changed one of them.
   */
  lemma IdleRowAgreesIff(s: System, snapshot: Pages, labels: seq<Label>, i: nat, j: nat)
    requires TakenFrom(snapshot, s) && s.links.Keys <= s.known
    requires i < |snapshot| && j < |snapshot[i].items| && At(Run(s, labels), snapshot[i].items[j].id, Idle)
    ensures var s' := Run(s, labels);
      && |s.log| <= |s'.log|
      && var cache := CacheOf(snapshot, s', |s.log|);
         SameShape(cache, snapshot) &&
         (Agrees(cache[i].items[j], s'.links) <==> NothingUntold(Since(s, labels, snapshot[i].items[j].id)))
  {
    var id, s' := snapshot[i].items[j].id, Run(s, labels);
    assert s.log[|s.log|..] == [];
    assert CacheOf(snapshot, s, |s.log|) == snapshot;
    RunKeepsTrack(s, snapshot, |s.log|, labels, id, History(FieldsOf(s.links[id]), None));
    FoldKeepsShape(snapshot, s'.log[|s.log|..]);
    assert FieldsOf(CacheOf(snapshot, s', |s.log|)[i].items[j].row) == Since(s, labels, id).told;
  }

  /** Every cached row whose link is idle agrees with the table. */
  ghost predicate IdleRowsAgree(s: System, pages: Pages) {
    forall i, j :: 0 <= i < |pages| && 0 <= j < |pages[i].items| && At(s, pages[i].items[j].id, Idle) ==>
      Agrees(pages[i].items[j], s.links)
  }

  ghost predicate NoneUntold(s: System, labels: seq<Label>) {
    forall id :: id in s.links ==> NothingUntold(Since(s, labels, id))
  }

  /** Convergence: without such silent saves all idle rows agree, and the pages are the snapshot's. */
  lemma ReplicaConverges(s: System, snapshot: Pages, labels: seq<Label>)
    requires TakenFrom(snapshot, s) && s.links.Keys <= s.known && NoneUntold(s, labels)
    ensures var s' := Run(s, labels);
      && |s.log| <= |s'.log|
      && IdleRowsAgree(s', CacheOf(snapshot, s', |s.log|))
      && SameShape(CacheOf(snapshot, s', |s.log|), snapshot)
  {
    LogGrows(s, labels);
    var s' := Run(s, labels);
    var cache := CacheOf(snapshot, s', |s.log|);
    FoldKeepsShape(snapshot, s'.log[|s.log|..]);
    forall i, j | 0 <= i < |cache| && 0 <= j < |cache[i].items| && At(s', cache[i].items[j].id, Idle)
      ensures Agrees(cache[i].items[j], s'.links)
    {
      IdleRowAgreesIff(s, snapshot, labels, i, j);
    }
  }

  lemma {:induction false} LogGrows(s: System, labels: seq<Label>)
    ensures |s.log| <= |Run(s, labels).log|
    decreases labels
  {
    if labels != [] { LogGrows(Next(s, labels[0]), labels[1..]); }
  }

  // ----- with a clock that moves on -----

  /** Every save of the link is stamped later than all before it. */
  predicate StampsMoveOn(labels: seq<Label>, id: LinkId, last: Option<int>)
    decreases labels
  {
    if labels == [] then true
    else
      var l := labels[0];
      if (l.SaveResult? || l.SaveSilently?) && l.id == id
      then (last.Some? ==> last.value < l.now) && StampsMoveOn(labels[1..], id, Some(l.now))
      else StampsMoveOn(labels[1..], id, last)
  }

  predicate NoLater(stamp: Option<int>, last: Option<int>) {
    stamp.None? || (last.Some? && stamp.value <= last.value)
  }

  /** No stamp of the row or of its history is later than `last`; an untold one is later than the told one. */
  predicate StampsFit(s: System, id: LinkId, h: History, last: Option<int>) {
    && (id in s.links ==> NoLater(s.links[id].lastCheckedAt, last))
    && NoLater(h.told.lastCheckedAt, last)
    && (h.untold.Some? ==>
          && NoLater(h.untold.value.lastCheckedAt, last)
          && h.untold.value.lastCheckedAt != h.told.lastCheckedAt)
  }

  lemma {:induction false} UntoldStampsDiffer(s: System, labels: seq<Label>, id: LinkId, h: History, last: Option<int>)
    requires id in s.known && StampsFit(s, id, h, last) && StampsMoveOn(labels, id, last)
    ensures var h' := HistoryAfter(s, labels, id, h);
      NothingUntold(h') <==> h'.untold.None?
    decreases labels
  {
    if labels != [] {
      var l := labels[0];
      var last' := if (l.SaveResult? || l.SaveSilently?) && l.id == id then Some(l.now) else last;
      UntoldStampsDiffer(Next(s, l), labels[1..], id, HistoryStep(s, l, id, h), last');
    }
  }

  /**
   * With saves stamped later and later, an idle row is behind exactly when a silent save
   * came after the link was last told of.
   */
  lemma BehindIffSilentlySaved(s: System, snapshot: Pages, labels: seq<Label>, i: nat, j: nat)
    requires TakenFrom(snapshot, s) && s.links.Keys <= s.known
    requires i < |snapshot| && j < |snapshot[i].items| && At(Run(s, labels), snapshot[i].items[j].id, Idle)
    requires StampsMoveOn(labels, snapshot[i].items[j].id, snapshot[i].items[j].row.lastCheckedAt)
    ensures var s' := Run(s, labels);
      && |s.log| <= |s'.log|
      && var cache := CacheOf(snapshot, s', |s.log|);
         SameShape(cache, snapshot) &&
         (!Agrees(cache[i].items[j], s'.links) <==> Since(s, labels, snapshot[i].items[j].id).untold.Some?)
  {
    var id := snapshot[i].items[j].id;
    IdleRowAgreesIff(s, snapshot, labels, i, j);
    UntoldStampsDiffer(s, labels, id, History(FieldsOf(s.links[id]), None), s.links[id].lastCheckedAt);
  }

  /** The sheets run fails a malformed row just created: the table says ERROR, the cache still PENDING. */
  lemma SilentSaveIsBehind(s: System, id: LinkId, message: string, now: int)
    requires At(s, id, Idle) && s.links[id].status == PENDING
    ensures var snapshot := [Page([Item(id, s.links[id])], 1, 1, 1)];
      var s' := Next(s, SaveSilently(id, BASE.(error := Some(message)), now));
      && TakenFrom(snapshot, s) && s'.log == s.log && At(s', id, Idle) && s'.links[id].status == ERROR
      && !IdleRowsAgree(s', CacheOf(snapshot, s', |s.log|))
  {
    var snapshot := [Page([Item(id, s.links[id])], 1, 1, 1)];
    var l := SaveSilently(id, BASE.(error := Some(message)), now);
    assert Enabled(s, l);
    assert s.log[|s.log|..] == [];
    assert Fold(snapshot, []) == snapshot && At(Next(s, l), snapshot[0].items[0].id, Idle);
    assert !Agrees(snapshot[0].items[0], Next(s, l).links);
  }

  /** A queued row is the other exception: the table says QUEUED and no event has said so. */
  lemma QueuedRowIsBehind(s: System, id: LinkId, item: Item)
    requires At(s, id, Idle) && item == Item(id, s.links[id]) && s.links[id].status != QUEUED
    ensures var s' := Next(s, Queue([id]));
      s'.log == s.log && s'.links[id].status == QUEUED && !Agrees(item, s'.links)
  {
    assert Enabled(s, Queue([id]));
  }
}
