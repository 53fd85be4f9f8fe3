/**
 * Any number of crawls over one Redis and any number of workers
 * (apps/worker/src/modules/crawler/crawler.service.ts): each takes a host token,
 * then a global slot, then goes through its worker's breaker to the provider, and
 * releases the slot. Every `await` is a step boundary, so a run is a list of
 * labels; a label that is not enabled changes nothing. A crawl may crash at any
 * point, a release may fail, and a script may run although its reply is lost.
 */
module CrawlProtocol {
  import opened Options
  import opened Sizes
  import Slots = Semaphore
  import Rates = RateLimiter
  import Breakers = CircuitBreaker

  type CrawlId = nat
  type WorkerId = nat
  type Token = Slots.Token

  datatype Phase =
    | Starting | WaitingToken | WaitingSlot
    | Holding | InFlight | Releasing
    | Finished | Leaked | Crashed

  /**
   * `Leaked` is a crawl that returned with its entry left behind: its release failed,
   * or the reply that granted its slot was lost.
   */
  datatype Crawl = Crawl(
    phase: Phase, worker: WorkerId, host: string,
    token: Option<Token>, acquiredAt: int, granted: bool, called: bool)

  datatype Config = Config(limit: nat, slotTtl: nat, rate: Rates.Rate, breaker: Breakers.Options)

  datatype System = System(
    start: int, now: int,
    slots: Slots.SlotSet, used: set<Token>,
    buckets: map<string, Rates.Bucket>,
    history: map<WorkerId, seq<Breakers.Event>>, breakers: map<WorkerId, Breakers.Breaker>,
    crawls: map<CrawlId, Crawl>)

  datatype Label =
    | Tick(ms: nat)
    | Begin(c: CrawlId, worker: WorkerId, host: string)
    | CheckInput(c: CrawlId, valid: bool)
    | PollToken(c: CrawlId)
    | TokenReplyLost(c: CrawlId)
    | TokenTimeout(c: CrawlId)
    | PollSlot(c: CrawlId, token: Token)
    | SlotReplyLost(c: CrawlId, token: Token)
    | SlotTimeout(c: CrawlId)
    | EnterBreaker(c: CrawlId)
    | Settle(c: CrawlId, ok: bool)
    | Release(c: CrawlId)
    | ReleaseFails(c: CrawlId)
    | Crash(c: CrawlId)

  function Initial(start: int): System {
    System(start, start, Slots.EMPTY, {}, map[], map[], map[], map[])
  }

  predicate In(s: System, c: CrawlId, p: Phase) {
    c in s.crawls && s.crawls[c].phase == p
  }

  predicate Ended(p: Phase) {
    p == Finished || p == Leaked || p == Crashed
  }

  /** A slot token is drawn at random; it has not been seen before. */
  predicate Enabled(s: System, l: Label) {
    match l
    case Tick(_) => true
    case Begin(c, _, _) => c !in s.crawls
    case CheckInput(c, _) => In(s, c, Starting)
    case PollToken(c) => In(s, c, WaitingToken)
    case TokenReplyLost(c) => In(s, c, WaitingToken)
    case TokenTimeout(c) => In(s, c, WaitingToken)
    case PollSlot(c, token) => In(s, c, WaitingSlot) && token !in s.used
    case SlotReplyLost(c, token) => In(s, c, WaitingSlot) && token !in s.used
    case SlotTimeout(c) => In(s, c, WaitingSlot)
    case EnterBreaker(c) => In(s, c, Holding)
    case Settle(c, _) => In(s, c, InFlight)
    case Release(c) => In(s, c, Releasing)
    case ReleaseFails(c) => In(s, c, Releasing)
    case Crash(c) => c in s.crawls && !Ended(s.crawls[c].phase)
  }

  function BucketOf(s: System, host: string): Option<Rates.Bucket> {
    if host in s.buckets then Some(s.buckets[host]) else None
  }

  function BreakerOf(s: System, w: WorkerId): Breakers.Breaker {
    if w in s.breakers then s.breakers[w] else Breakers.INITIAL
  }

  function HistoryOf(s: System, w: WorkerId): seq<Breakers.Event> {
    if w in s.history then s.history[w] else []
  }

  /** The steps that run the acquire script, and those that run the consume script. */
  predicate AsksForSlot(l: Label) {
    l.PollSlot? || l.SlotReplyLost?
  }

  predicate AsksForToken(l: Label) {
    l.PollToken? || l.TokenReplyLost?
  }

  // What one step does to each part of the system.

  /** The limiter's and the semaphore's answers to the polls. */
  function TokenAnswer(cfg: Config, s: System, host: string): (Rates.Bucket, int)
    requires Rates.Usable(cfg.rate)
  {
    Rates.ConsumeStep(cfg.rate, BucketOf(s, host), s.now)
  }

  function SlotAnswer(cfg: Config, s: System, token: Token): (Slots.SlotSet, bool) {
    Slots.AcquireStep(s.slots, s.now, cfg.slotTtl, cfg.limit, token)
  }

  function CrawlAfter(cfg: Config, s: System, l: Label): Crawl
    requires Enabled(s, l) && !l.Tick? && Rates.Usable(cfg.rate)
  {
    if l.Begin? then Crawl(Starting, l.worker, l.host, None, s.now, false, false)
    else
      var crawl := s.crawls[l.c];
      match l
      case CheckInput(_, valid) => crawl.(phase := if valid then WaitingToken else Finished)
      case PollToken(_) =>
        if TokenAnswer(cfg, s, crawl.host).1 == 0 then crawl.(phase := WaitingSlot, granted := true) else crawl
      case TokenTimeout(_) => crawl.(phase := Finished)
      case PollSlot(_, token) =>
        if SlotAnswer(cfg, s, token).1
        then crawl.(phase := Holding, token := Some(token), acquiredAt := s.now)
        else crawl
      case TokenReplyLost(_) => crawl.(phase := Finished)
      case SlotReplyLost(_, token) =>
        if SlotAnswer(cfg, s, token).1
        then crawl.(phase := Leaked, token := Some(token), acquiredAt := s.now)
        else crawl.(phase := Finished)
      case SlotTimeout(_) => crawl.(phase := Finished)
      case EnterBreaker(_) =>
        if Breakers.Admits(cfg.breaker, BreakerOf(s, crawl.worker), s.now)
        then crawl.(phase := InFlight, called := true)
        else crawl.(phase := Releasing)
      case Settle(_, _) => crawl.(phase := Releasing)
      case Release(_) => crawl.(phase := Finished)
      case ReleaseFails(_) => crawl.(phase := Leaked)
      case Crash(_) => crawl.(phase := Crashed)
  }

  function SlotsAfter(cfg: Config, s: System, l: Label): Slots.SlotSet
    requires Enabled(s, l)
  {
    if AsksForSlot(l) then SlotAnswer(cfg, s, l.token).0
    else if l.Release? && s.crawls[l.c].token.Some?
    then Slots.ReleaseStep(s.slots, s.now, s.crawls[l.c].token.value).0
    else s.slots
  }

  function BucketsAfter(cfg: Config, s: System, l: Label): map<string, Rates.Bucket>
    requires Enabled(s, l) && Rates.Usable(cfg.rate)
  {
    if AsksForToken(l) then
      var host := s.crawls[l.c].host;
      s.buckets[host := TokenAnswer(cfg, s, host).0]
    else s.buckets
  }

  /** The breaker event of a step, if it has one. */
  function EventOf(s: System, l: Label): Option<Breakers.Event> {
    match l
    case EnterBreaker(_) => Some(Breakers.Enter(s.now))
    case Settle(_, ok) => Some(if ok then Breakers.Succeed(s.now) else Breakers.Fail(s.now))
    case _ => None
  }

  function Apply(cfg: Config, s: System, l: Label): System
    requires Enabled(s, l) && Rates.Usable(cfg.rate)
  {
    if l.Tick? then s.(now := s.now + l.ms)
    else
      var s' := s.(
        slots := SlotsAfter(cfg, s, l),
        used := if AsksForSlot(l) then s.used + {l.token} else s.used,
        buckets := BucketsAfter(cfg, s, l),
        crawls := s.crawls[l.c := CrawlAfter(cfg, s, l)]);
      var e := EventOf(s, l);
      if e.None? then s'
      else
        var w := s.crawls[l.c].worker;
        s'.(breakers := s.breakers[w := Breakers.Apply(cfg.breaker, BreakerOf(s, w), e.value)],
            history := s.history[w := HistoryOf(s, w) + [e.value]])
  }

  function Next(cfg: Config, s: System, l: Label): System
    requires Rates.Usable(cfg.rate)
  {
    if Enabled(s, l) then Apply(cfg, s, l) else s
  }

  function Run(cfg: Config, s: System, labels: seq<Label>): System
    requires Rates.Usable(cfg.rate)
    decreases labels
  {
    if labels == [] then s else Run(cfg, Next(cfg, s, labels[0]), labels[1..])
  }

  // ----- slots -----

  predicate HasSlot(p: Phase) {
    p == Holding || p == InFlight || p == Releasing
  }

  /** Holding a slot, or gone without releasing it. */
  predicate MayLeaveEntry(p: Phase) {
    HasSlot(p) || p == Leaked || p == Crashed
  }

  predicate MayOwn(crawl: Crawl, token: Token) {
    crawl.token == Some(token) && MayLeaveEntry(crawl.phase)
  }

  predicate Young(cfg: Config, s: System, crawl: Crawl) {
    s.now < crawl.acquiredAt + cfg.slotTtl
  }

  ghost predicate EntryKept(cfg: Config, s: System, c: CrawlId)
    requires c in s.crawls
  {
    var crawl := s.crawls[c];
    HasSlot(crawl.phase) ==>
      crawl.token.Some? &&
      (Young(cfg, s, crawl) ==>
        crawl.token.value in s.slots.scores && s.slots.scores[crawl.token.value] == crawl.acquiredAt)
  }

  ghost predicate TokensApart(s: System) {
    && (forall c :: c in s.crawls && s.crawls[c].token.Some? ==> s.crawls[c].token.value in s.used)
    && (forall c, d :: c in s.crawls && d in s.crawls && c != d && s.crawls[c].token.Some? ==>
          s.crawls[c].token != s.crawls[d].token)
  }

  ghost predicate Owned(s: System, token: Token) {
    exists c :: c in s.crawls && MayOwn(s.crawls[c], token)
  }

  ghost predicate EntriesKept(cfg: Config, s: System) {
    forall c :: c in s.crawls ==> EntryKept(cfg, s, c)
  }

  ghost predicate EntriesOwned(s: System) {
    forall t :: t in s.slots.scores ==> t in s.used && Owned(s, t)
  }

  ghost predicate SlotInv(cfg: Config, s: System) {
    && Slots.Valid(s.slots, s.now, cfg.slotTtl, cfg.limit)
    && TokensApart(s)
    && EntriesKept(cfg, s)
    && EntriesOwned(s)
  }

  predicate BeforeSlot(p: Phase) {
    p == Starting || p == WaitingToken || p == WaitingSlot
  }

  /** A crawl that has not reached its slot has no token. */
  ghost predicate NoTokenYet(s: System) {
    forall c :: c in s.crawls && BeforeSlot(s.crawls[c].phase) ==> s.crawls[c].token.None?
  }

  /** Only crawl `c` changed, at one instant. */
  predicate OnlyCrawl(s: System, s': System, c: CrawlId) {
    s'.now == s.now && c in s'.crawls && s'.crawls == s.crawls[c := s'.crawls[c]] && s.used <= s'.used
  }

  /** `c` kept its token, or drew one nobody had seen. */
  predicate TokenKeptOrNew(s: System, s': System, c: CrawlId)
    requires c in s'.crawls
  {
    || s'.crawls[c].token.None?
    || (c in s.crawls && s'.crawls[c].token == s.crawls[c].token)
    || (s'.crawls[c].token.value !in s.used && s'.crawls[c].token.value in s'.used)
  }

  lemma TokensStayApart(s: System, s': System, c: CrawlId)
    requires TokensApart(s) && OnlyCrawl(s, s', c) && TokenKeptOrNew(s, s', c)
    ensures TokensApart(s')
  {
  }

  /** Every entry younger than the TTL that is not `c`'s own is where it was. */
  ghost predicate OthersKept(cfg: Config, s: System, s': System, own: Option<Token>) {
    forall t :: t in s.slots.scores && own != Some(t) && s.now < s.slots.scores[t] + cfg.slotTtl ==>
      t in s'.slots.scores && s'.slots.scores[t] == s.slots.scores[t]
  }

  lemma EntriesStay(cfg: Config, s: System, s': System, c: CrawlId)
    requires TokensApart(s) && EntriesKept(cfg, s) && OnlyCrawl(s, s', c)
    requires OthersKept(cfg, s, s', s'.crawls[c].token)
    requires c in s.crawls && s.crawls[c].token.Some? ==> s'.crawls[c].token == s.crawls[c].token
    requires c in s.crawls && s.crawls[c].token.None? && s'.crawls[c].token.Some? ==>
      s'.crawls[c].token.value !in s.used
    requires c !in s.crawls ==> s'.crawls[c].token.None?
    requires EntryKept(cfg, s', c)
    ensures EntriesKept(cfg, s')
  {
    forall d | d in s'.crawls ensures EntryKept(cfg, s', d) {
      if d != c { assert EntryKept(cfg, s, d); }
    }
  }

  /** The entries of `s'` are entries of `s` with their owners, or `added`, which is `c`'s. */
  lemma OwnersStay(s: System, s': System, c: CrawlId, added: Option<Token>)
    requires EntriesOwned(s) && OnlyCrawl(s, s', c)
    requires forall t :: t in s'.slots.scores && added != Some(t) ==>
      t in s.slots.scores && (c in s.crawls && MayOwn(s.crawls[c], t) ==> MayOwn(s'.crawls[c], t))
    requires added.Some? ==> added.value in s'.used && MayOwn(s'.crawls[c], added.value)
    ensures EntriesOwned(s')
  {
    forall t | t in s'.slots.scores ensures t in s'.used && Owned(s', t) {
      if added == Some(t) {
        assert MayOwn(s'.crawls[c], t);
      } else {
        assert Owned(s, t);
        var d :| d in s.crawls && MayOwn(s.crawls[d], t);
        assert d in s'.crawls && MayOwn(s'.crawls[d], t);
      }
    }
  }

  /** A step that runs no slot script, and keeps `c` an owner if it was one. */
  predicate QuietMove(s: System, s': System, c: CrawlId) {
    && OnlyCrawl(s, s', c) && s'.slots == s.slots
    && (var after := s'.crawls[c];
        if c !in s.crawls then after.token.None? && !HasSlot(after.phase)
        else
          var before := s.crawls[c];
          && after.token == before.token && after.acquiredAt == before.acquiredAt
          && (HasSlot(after.phase) ==> HasSlot(before.phase))
          && (HasSlot(before.phase) ==> MayLeaveEntry(after.phase))
          && (!HasSlot(before.phase) ==> before.token.None?))
  }

  lemma QuietMoveKeepsSlots(cfg: Config, s: System, s': System, c: CrawlId)
    requires SlotInv(cfg, s) && QuietMove(s, s', c)
    ensures SlotInv(cfg, s')
  {
    TokensStayApart(s, s', c);
    if c in s.crawls { assert EntryKept(cfg, s, c); }
    EntriesStay(cfg, s, s', c);
    OwnersStay(s, s', c, None);
  }

  lemma AskingKeepsSlots(cfg: Config, s: System, s': System, c: CrawlId, token: Token)
    requires SlotInv(cfg, s) && In(s, c, WaitingSlot) && s.crawls[c].token.None? && token !in s.used
    requires s'.now == s.now && s'.used == s.used + {token} && OnlyCrawl(s, s', c)
    requires var (slots, ok) := Slots.AcquireStep(s.slots, s.now, cfg.slotTtl, cfg.limit, token);
      && s'.slots == slots
      && var after := s'.crawls[c];
         if ok then MayOwn(after, token) && after.acquiredAt == s.now else after.token.None? && !HasSlot(after.phase)
    ensures SlotInv(cfg, s')
  {
    var ok := Slots.AcquireStep(s.slots, s.now, cfg.slotTtl, cfg.limit, token).1;
    Slots.AcquireKeepsValid(s.slots, s.now, token, s.now, cfg.slotTtl, cfg.limit);
    Slots.AcquireEffect(s.slots, s.now, token, cfg.slotTtl, cfg.limit);
    assert token !in s.slots.scores;
    TokensStayApart(s, s', c);
    EntriesStay(cfg, s, s', c);
    OwnersStay(s, s', c, if ok then Some(token) else None);
  }

  lemma ReleaseKeepsSlots(cfg: Config, s: System, s': System, c: CrawlId, token: Token)
    requires SlotInv(cfg, s) && In(s, c, Releasing) && s.crawls[c].token == Some(token)
    requires s'.now == s.now && s'.used == s.used
    requires s'.slots == Slots.ReleaseStep(s.slots, s.now, token).0
    requires s'.crawls == s.crawls[c := s.crawls[c].(phase := Finished)]
    ensures SlotInv(cfg, s')
  {
    Slots.ReleaseKeepsValid(s.slots, s.now, token, s.now, cfg.slotTtl, cfg.limit);
    assert token !in s'.slots.scores;
    TokensStayApart(s, s', c);
    EntriesStay(cfg, s, s', c);
    OwnersStay(s, s', c, None);
  }

  lemma TickKeepsSlots(cfg: Config, s: System, ms: nat)
    requires SlotInv(cfg, s)
    ensures SlotInv(cfg, s.(now := s.now + ms))
  {
    var s' := s.(now := s.now + ms);
    forall c | c in s'.crawls ensures EntryKept(cfg, s', c) { assert EntryKept(cfg, s, c); }
    forall t | t in s'.slots.scores ensures Owned(s', t) {
      assert Owned(s, t);
      var d :| d in s.crawls && MayOwn(s.crawls[d], t);
      assert d in s'.crawls && MayOwn(s'.crawls[d], t);
    }
  }

  lemma OtherStepsAreQuiet(cfg: Config, s: System, l: Label)
    requires NoTokenYet(s) && Rates.Usable(cfg.rate) && Enabled(s, l)
    requires !l.Tick? && !AsksForSlot(l) && !l.Release?
    ensures QuietMove(s, Apply(cfg, s, l), l.c)
  {
  }

  lemma StepKeepsSlots(cfg: Config, s: System, l: Label)
    requires SlotInv(cfg, s) && NoTokenYet(s) && Rates.Usable(cfg.rate)
    ensures SlotInv(cfg, Next(cfg, s, l))
  {
    if Enabled(s, l) {
      var s' := Next(cfg, s, l);
      if l.Tick? {
        TickKeepsSlots(cfg, s, l.ms);
      } else if AsksForSlot(l) {
        AskingKeepsSlots(cfg, s, s', l.c, l.token);
      } else if l.Release? {
        assert EntryKept(cfg, s, l.c);
        ReleaseKeepsSlots(cfg, s, s', l.c, s.crawls[l.c].token.value);
      } else {
        OtherStepsAreQuiet(cfg, s, l);
        QuietMoveKeepsSlots(cfg, s, s', l.c);
      }
    }
  }

  lemma StepKeepsNoTokenYet(cfg: Config, s: System, l: Label)
    requires NoTokenYet(s) && Rates.Usable(cfg.rate)
    ensures NoTokenYet(Next(cfg, s, l))
  {
  }

  lemma {:induction false} RunKeepsSlots(cfg: Config, s: System, labels: seq<Label>)
    requires SlotInv(cfg, s) && NoTokenYet(s) && Rates.Usable(cfg.rate)
    ensures SlotInv(cfg, Run(cfg, s, labels))
    decreases labels
  {
    if labels != [] {
      StepKeepsSlots(cfg, s, labels[0]);
      StepKeepsNoTokenYet(cfg, s, labels[0]);
      RunKeepsSlots(cfg, Next(cfg, s, labels[0]), labels[1..]);
    }
  }

  function InFlightCrawls(s: System): set<CrawlId> {
    set c | c in s.crawls && s.crawls[c].phase == InFlight
  }

  function YoungHolders(cfg: Config, s: System): set<CrawlId> {
    set c | c in s.crawls && HasSlot(s.crawls[c].phase) && Young(cfg, s, s.crawls[c])
  }

  lemma {:induction false} DistinctTokensFit(s: System, holders: set<CrawlId>)
    requires TokensApart(s)
    requires forall c :: c in holders ==>
      c in s.crawls && s.crawls[c].token.Some? && s.crawls[c].token.value in s.slots.scores
    ensures |holders| <= |s.slots.scores|
    decreases holders
  {
    var tokens := set c | c in holders :: s.crawls[c].token.value;
    SameSize(s, holders, tokens);
    assert tokens <= s.slots.scores.Keys;
    Slots.SubmapIsNoBigger(map t | t in tokens :: 0, s.slots.scores);
    assert (map t | t in tokens :: 0).Keys == tokens;
  }

  lemma {:induction false} SameSize(s: System, holders: set<CrawlId>, tokens: set<Token>)
    requires TokensApart(s)
    requires forall c :: c in holders ==> c in s.crawls && s.crawls[c].token.Some?
    requires tokens == set c | c in holders :: s.crawls[c].token.value
    ensures |holders| == |tokens|
    decreases holders
  {
    if holders != {} {
      var c :| c in holders;
      var t := s.crawls[c].token.value;
      var rest := set d | d in holders - {c} :: s.crawls[d].token.value;
      assert rest == tokens - {t};
      SameSize(s, holders - {c}, rest);
    }
  }

  /** A crawl that acquired its slot less than a TTL ago still has its entry, whatever the others do. */
  lemma HolderKeepsEntry(cfg: Config, start: int, labels: seq<Label>, c: CrawlId)
    requires Rates.Usable(cfg.rate)
    requires var s := Run(cfg, Initial(start), labels);
      c in s.crawls && HasSlot(s.crawls[c].phase) && Young(cfg, s, s.crawls[c])
    ensures var s := Run(cfg, Initial(start), labels);
      && s.crawls[c].token.Some?
      && s.crawls[c].token.value in Slots.Live(s.slots, s.now).scores
      && s.slots.scores[s.crawls[c].token.value] == s.crawls[c].acquiredAt
  {
    RunKeepsSlots(cfg, Initial(start), labels);
    assert EntryKept(cfg, Run(cfg, Initial(start), labels), c);
  }

  /**
   * The global bound: in every reachable state the set has at most `limit` entries,
   * and at most `limit` crawls hold a slot they acquired less than a TTL ago. So when
   * no crawl in flight has outlived its TTL, at most `limit` provider calls are in flight.
   */
  lemma InFlightBounded(cfg: Config, start: int, labels: seq<Label>)
    requires Rates.Usable(cfg.rate)
    ensures var s := Run(cfg, Initial(start), labels);
      && |s.slots.scores| <= cfg.limit
      && |YoungHolders(cfg, s)| <= cfg.limit
      && ((forall c :: In(s, c, InFlight) ==> Young(cfg, s, s.crawls[c])) ==> |InFlightCrawls(s)| <= cfg.limit)
  {
    RunKeepsSlots(cfg, Initial(start), labels);
    var s := Run(cfg, Initial(start), labels);
    forall c | c in YoungHolders(cfg, s)
      ensures s.crawls[c].token.Some? && s.crawls[c].token.value in s.slots.scores
    {
      assert EntryKept(cfg, s, c);
    }
    DistinctTokensFit(s, YoungHolders(cfg, s));
    if forall c :: In(s, c, InFlight) ==> Young(cfg, s, s.crawls[c]) {
      forall c | c in InFlightCrawls(s) ensures c in YoungHolders(cfg, s) {
        assert In(s, c, InFlight);
      }
      SubsetIsNoBigger(InFlightCrawls(s), YoungHolders(cfg, s));
    }
  }

  /**
   * No residue: a crawl that returned, its release done and no granting reply lost,
   * leaves no entry of its own.
   */
  lemma FinishedLeavesNoEntry(cfg: Config, start: int, labels: seq<Label>, c: CrawlId)
    requires Rates.Usable(cfg.rate)
    requires In(Run(cfg, Initial(start), labels), c, Finished)
    ensures var s := Run(cfg, Initial(start), labels);
      s.crawls[c].token.Some? ==> s.crawls[c].token.value !in s.slots.scores
  {
    RunKeepsSlots(cfg, Initial(start), labels);
    var s := Run(cfg, Initial(start), labels);
    forall t | t in s.slots.scores ensures s.crawls[c].token != Some(t) {
      assert Owned(s, t);
    }
  }

  ghost predicate NobodyHolds(s: System) {
    forall c :: c in s.crawls ==> !MayLeaveEntry(s.crawls[c].phase)
  }

  /** Every entry belongs to a holder, a crash, a failed release or a lost reply: without those, there is none. */
  lemma QuietSetIsEmpty(cfg: Config, start: int, labels: seq<Label>)
    requires Rates.Usable(cfg.rate)
    requires NobodyHolds(Run(cfg, Initial(start), labels))
    ensures Run(cfg, Initial(start), labels).slots.scores == map[]
  {
    RunKeepsSlots(cfg, Initial(start), labels);
    var s := Run(cfg, Initial(start), labels);
    assert forall t :: t in s.slots.scores ==> Owned(s, t);
  }

  // ----- host tokens -----

  /** The crawls of a host that were granted a token, and those that called the provider. */
  function GrantedOn(s: System, host: string): set<CrawlId> {
    set c | c in s.crawls && s.crawls[c].host == host && s.crawls[c].granted
  }

  function CalledOn(s: System, host: string): set<CrawlId> {
    set c | c in s.crawls && s.crawls[c].host == host && s.crawls[c].called
  }

  /** Grants so far and tokens left never exceed what the host was given by the bucket's last use. */
  predicate WithinSupply(rate: Rates.Rate, grants: nat, b: Rates.Bucket, start: int) {
    && Rates.Valid(rate, Some(b))
    && grants as real + b.tokens <= rate.capacity + Rates.Earned(rate, b.ts - start)
  }

  ghost predicate Conserved(cfg: Config, s: System, host: string) {
    if host in s.buckets
    then s.start <= s.buckets[host].ts <= s.now
         && WithinSupply(cfg.rate, |GrantedOn(s, host)|, s.buckets[host], s.start)
    else GrantedOn(s, host) == {}
  }

  /** A crawl is granted its token before it waits for a slot, and calls only after that. */
  predicate GrantComesFirst(crawl: Crawl) {
    && (crawl.called ==> crawl.granted)
    && (crawl.phase == Starting || crawl.phase == WaitingToken ==> !crawl.granted)
    && (HasSlot(crawl.phase) || crawl.phase == WaitingSlot ==> crawl.granted)
  }

  ghost predicate RateInv(cfg: Config, s: System) {
    && s.start <= s.now
    && (forall c :: c in s.crawls ==> GrantComesFirst(s.crawls[c]))
    && (forall host :: Conserved(cfg, s, host))
  }

  /** A step after which every host has the bucket and the grants it had. */
  predicate GrantsNothing(s: System, s': System, c: CrawlId) {
    && OnlyCrawl(s, s', c) && s'.buckets == s.buckets && s'.start == s.start
    && GrantComesFirst(s'.crawls[c])
    && (if c in s.crawls
        then s'.crawls[c].host == s.crawls[c].host && s'.crawls[c].granted == s.crawls[c].granted
        else !s'.crawls[c].granted)
  }

  lemma GrantsNothingConserves(cfg: Config, s: System, s': System, c: CrawlId)
    requires RateInv(cfg, s) && GrantsNothing(s, s', c)
    ensures RateInv(cfg, s')
  {
    forall host ensures Conserved(cfg, s', host) {
      assert Conserved(cfg, s, host);
      assert GrantedOn(s', host) == GrantedOn(s, host);
    }
  }

  lemma TickConserves(cfg: Config, s: System, ms: nat)
    requires RateInv(cfg, s)
    ensures RateInv(cfg, s.(now := s.now + ms))
  {
    var s' := s.(now := s.now + ms);
    forall host ensures Conserved(cfg, s', host) {
      assert Conserved(cfg, s, host);
      assert GrantedOn(s', host) == GrantedOn(s, host);
    }
  }

  /** One consume on a host's bucket spends what it grants. */
  lemma ConsumeStaysWithinSupply(rate: Rates.Rate, grants: nat, b: Option<Rates.Bucket>, start: int, now: int)
    requires Rates.Usable(rate) && Rates.Refills(rate) && start <= now
    requires if b.Some? then b.value.ts <= now && WithinSupply(rate, grants, b.value, start) else grants == 0
    ensures var (b', wait) := Rates.ConsumeStep(rate, b, now);
      b'.ts == now && WithinSupply(rate, if wait == 0 then grants + 1 else grants, b', start)
  {
    Rates.StepKeepsValid(rate, b, now);
    Rates.ZeroMeansGranted(rate, b, now);
    if b.Some? {
      Rates.OnHandIsEarned(rate, b.value, now);
      Rates.EarnedAdds(rate, b.value.ts - start, now - b.value.ts);
    } else {
      Rates.EarnedGrows(rate, 0, now - start);
    }
  }

  lemma GrantedAfterPoll(s: System, s': System, c: CrawlId, grant: bool, host: string)
    requires In(s, c, WaitingToken) && !s.crawls[c].granted && OnlyCrawl(s, s', c)
    requires s'.crawls[c].host == s.crawls[c].host && s'.crawls[c].granted == grant
    ensures c !in GrantedOn(s, host)
    ensures GrantedOn(s', host) == GrantedOn(s, host) + if grant && host == s.crawls[c].host then {c} else {}
  {
  }

  lemma PollTokenConserves(cfg: Config, s: System, s': System, c: CrawlId, b: Rates.Bucket, grant: bool)
    requires RateInv(cfg, s) && In(s, c, WaitingToken) && OnlyCrawl(s, s', c)
    requires s'.start == s.start && s'.buckets == s.buckets[s.crawls[c].host := b]
    requires s'.crawls[c].host == s.crawls[c].host && s'.crawls[c].granted == grant && GrantComesFirst(s'.crawls[c])
    requires b.ts == s.now
    requires var before := |GrantedOn(s, s.crawls[c].host)|;
      WithinSupply(cfg.rate, if grant then before + 1 else before, b, s.start)
    ensures RateInv(cfg, s')
  {
    assert GrantComesFirst(s.crawls[c]);
    forall host ensures Conserved(cfg, s', host) {
      assert Conserved(cfg, s, host);
      GrantedAfterPoll(s, s', c, grant, host);
    }
  }

  lemma PhasesFollowGrant(cfg: Config, s: System, l: Label)
    requires Rates.Usable(cfg.rate) && Enabled(s, l) && !l.Tick?
    requires l.c in s.crawls ==> GrantComesFirst(s.crawls[l.c])
    ensures GrantComesFirst(Apply(cfg, s, l).crawls[l.c])
  {
  }

  lemma OtherStepsGrantNothing(cfg: Config, s: System, l: Label)
    requires Rates.Usable(cfg.rate) && Enabled(s, l) && !l.Tick? && !AsksForToken(l)
    ensures var s' := Apply(cfg, s, l);
      GrantComesFirst(s'.crawls[l.c]) ==> GrantsNothing(s, s', l.c)
  {
  }

  lemma StepConserves(cfg: Config, s: System, l: Label)
    requires RateInv(cfg, s) && Rates.Usable(cfg.rate) && Rates.Refills(cfg.rate)
    ensures RateInv(cfg, Next(cfg, s, l)) && Next(cfg, s, l).start == s.start
  {
    if Enabled(s, l) {
      if l.Tick? {
        TickConserves(cfg, s, l.ms);
      } else if AsksForToken(l) {
        var host := s.crawls[l.c].host;
        var (b, wait) := Rates.ConsumeStep(cfg.rate, BucketOf(s, host), s.now);
        assert Conserved(cfg, s, host);
        ConsumeStaysWithinSupply(cfg.rate, |GrantedOn(s, host)|, BucketOf(s, host), s.start, s.now);
        PhasesFollowGrant(cfg, s, l);
        PollTokenConserves(cfg, s, Next(cfg, s, l), l.c, b, wait == 0 && l.PollToken?);
      } else {
        PhasesFollowGrant(cfg, s, l);
        OtherStepsGrantNothing(cfg, s, l);
        GrantsNothingConserves(cfg, s, Next(cfg, s, l), l.c);
      }
    }
  }

  lemma {:induction false} RunConserves(cfg: Config, s: System, labels: seq<Label>)
    requires RateInv(cfg, s) && Rates.Usable(cfg.rate) && Rates.Refills(cfg.rate)
    ensures RateInv(cfg, Run(cfg, s, labels)) && Run(cfg, s, labels).start == s.start
    decreases labels
  {
    if labels != [] {
      StepConserves(cfg, s, labels[0]);
      RunConserves(cfg, Next(cfg, s, labels[0]), labels[1..]);
    }
  }

  /**
   * Politeness: over all workers and crawls, a host is called at most one bucket
   * plus the rate times the elapsed time.
   */
  lemma HostCallsBounded(cfg: Config, start: int, labels: seq<Label>, host: string)
    requires Rates.Usable(cfg.rate) && Rates.Refills(cfg.rate)
    ensures var s := Run(cfg, Initial(start), labels);
      |CalledOn(s, host)| as real <= cfg.rate.capacity + Rates.Earned(cfg.rate, s.now - start)
  {
    RunConserves(cfg, Initial(start), labels);
    var s := Run(cfg, Initial(start), labels);
    assert Conserved(cfg, s, host);
    SubsetIsNoBigger(CalledOn(s, host), GrantedOn(s, host));
    Rates.EarnedGrows(cfg.rate, 0, s.now - start);
    if host in s.buckets { Rates.EarnedGrows(cfg.rate, s.buckets[host].ts - start, s.now - start); }
  }

  // ----- breakers -----

  /** Each worker's breaker is the one its own event history leads to. */
  ghost predicate BreakerInv(cfg: Config, s: System) {
    && s.breakers.Keys == s.history.Keys
    && forall w :: w in s.history ==>
         s.breakers[w] == Breakers.After(cfg.breaker, s.history[w]) &&
         forall e :: e in s.history[w] ==> e.now <= s.now
  }

  lemma StepKeepsBreakers(cfg: Config, s: System, l: Label)
    requires BreakerInv(cfg, s) && Rates.Usable(cfg.rate)
    ensures BreakerInv(cfg, Next(cfg, s, l))
  {
    if Enabled(s, l) && EventOf(s, l).Some? {
      var w, e := s.crawls[l.c].worker, EventOf(s, l).value;
      assert BreakerOf(s, w) == Breakers.After(cfg.breaker, HistoryOf(s, w));
      Breakers.OneMoreEvent(cfg.breaker, Breakers.INITIAL, HistoryOf(s, w), e);
      EventKept(cfg, s, Next(cfg, s, l), w, e);
    }
  }

  lemma EventKept(cfg: Config, s: System, s': System, w: WorkerId, e: Breakers.Event)
    requires BreakerInv(cfg, s) && e.now <= s.now <= s'.now
    requires s'.breakers == s.breakers[w := Breakers.After(cfg.breaker, HistoryOf(s, w) + [e])]
    requires s'.history == s.history[w := HistoryOf(s, w) + [e]]
    ensures BreakerInv(cfg, s')
  {
  }

  lemma {:induction false} RunKeepsBreakers(cfg: Config, s: System, labels: seq<Label>)
    requires BreakerInv(cfg, s) && Rates.Usable(cfg.rate)
    ensures BreakerInv(cfg, Run(cfg, s, labels))
    decreases labels
  {
    if labels != [] {
      StepKeepsBreakers(cfg, s, labels[0]);
      RunKeepsBreakers(cfg, Next(cfg, s, labels[0]), labels[1..]);
    }
  }

  /**
   * In every reachable state, a crawl holding a slot reaches the provider exactly
   * when its worker has seen fewer failures in a row than the threshold, or a
   * cooldown has passed since the latest of them; otherwise it goes straight to
   * releasing the slot.
   */
  lemma ProviderReachedIff(cfg: Config, start: int, labels: seq<Label>, c: CrawlId)
    requires Rates.Usable(cfg.rate) && 1 <= cfg.breaker.failureThreshold
    requires In(Run(cfg, Initial(start), labels), c, Holding)
    ensures
      var s := Run(cfg, Initial(start), labels);
      var events := HistoryOf(s, s.crawls[c].worker);
      var reached := Breakers.FailuresInARow(events) < cfg.breaker.failureThreshold
                     || Breakers.LastOpening(cfg.breaker, events) + cfg.breaker.cooldownMs <= s.now;
      Next(cfg, s, EnterBreaker(c)).crawls[c].phase == if reached then InFlight else Releasing
  {
    RunKeepsBreakers(cfg, Initial(start), labels);
    var s := Run(cfg, Initial(start), labels);
    var w := s.crawls[c].worker;
    assert BreakerOf(s, w) == Breakers.After(cfg.breaker, HistoryOf(s, w));
    Breakers.AdmittedIff(cfg.breaker, HistoryOf(s, w), s.now);
  }

  // ----- crawls get through -----

  /**
   * A crawl that polls goes on if and only if its host's bucket holds a whole token, and
   * takes it; other hosts and other crawls are as they were.
   */
  lemma TokenPollIff(cfg: Config, s: System, c: CrawlId)
    requires Rates.Usable(cfg.rate) && In(s, c, WaitingToken)
    ensures var host := s.crawls[c].host;
      var s', tokens := Next(cfg, s, PollToken(c)), Rates.Tokens(cfg.rate, BucketOf(s, host), s.now);
      && s'.crawls == s.crawls[c := s'.crawls[c]]
      && s'.crawls[c].phase == (if 1.0 <= tokens then WaitingSlot else WaitingToken)
      && s'.buckets == s.buckets[host :=
           Rates.Bucket(if 1.0 <= tokens then tokens - 1.0 else tokens, s.now, s.now + cfg.rate.ttlMs)]
  {
    Rates.TryInPlainTerms(cfg.rate, s.crawls[c].host, s.now, s.buckets);
  }

  lemma SlotPoll(cfg: Config, s: System, c: CrawlId, token: Token)
    requires Rates.Usable(cfg.rate) && In(s, c, WaitingSlot) && token !in s.used
    requires Slots.Valid(s.slots, s.now, cfg.slotTtl, cfg.limit)
    ensures var s', young := Next(cfg, s, PollSlot(c, token)), Slots.YoungOnes(s.slots, s.now, cfg.slotTtl);
      && s'.crawls == s.crawls[c := s'.crawls[c]]
      && s'.crawls[c].phase == (if |young| < cfg.limit then Holding else WaitingSlot)
      && s'.slots.scores.Keys == young + (if |young| < cfg.limit then {token} else {})
  {
    Slots.TryInPlainTerms(s.slots, s.now, token, cfg.slotTtl, cfg.limit);
    assert Enabled(s, PollSlot(c, token));
  }

  /** In every reachable state: a crawl that asks for a slot gets one if and only if fewer than `limit` are young. */
  lemma SlotPollIff(cfg: Config, start: int, labels: seq<Label>, c: CrawlId, token: Token)
    requires Rates.Usable(cfg.rate)
    requires In(Run(cfg, Initial(start), labels), c, WaitingSlot) && token !in Run(cfg, Initial(start), labels).used
    ensures var s := Run(cfg, Initial(start), labels);
      var s', young := Next(cfg, s, PollSlot(c, token)), Slots.YoungOnes(s.slots, s.now, cfg.slotTtl);
      && s'.crawls == s.crawls[c := s'.crawls[c]]
      && s'.crawls[c].phase == (if |young| < cfg.limit then Holding else WaitingSlot)
      && s'.slots.scores.Keys == young + (if |young| < cfg.limit then {token} else {})
  {
    RunKeepsSlots(cfg, Initial(start), labels);
    SlotPoll(cfg, Run(cfg, Initial(start), labels), c, token);
  }

  /** A system with one crawl, which has no token yet. */
  function Alone(start: int, w: WorkerId, host: string, phase: Phase): System {
    Initial(start).(crawls := map[0 := Crawl(phase, w, host, None, start, false, false)])
  }

  /** One crawl with a host token, and one with a slot as well. */
  function Granted(cfg: Config, start: int, w: WorkerId, host: string): System {
    Initial(start).(
      buckets := map[host := Rates.Bucket(cfg.rate.capacity - 1.0, start, start + cfg.rate.ttlMs)],
      crawls := map[0 := Crawl(WaitingSlot, w, host, None, start, true, false)])
  }

  function Leased(cfg: Config, start: int, w: WorkerId, host: string, token: Token): System {
    Granted(cfg, start, w, host).(
      slots := Slots.SlotSet(map[token := start], Some(start + cfg.slotTtl)), used := {token},
      crawls := map[0 := Crawl(Holding, w, host, Some(token), start, true, false)])
  }

  /** And its call, entered and settled. */
  function Called(cfg: Config, start: int, w: WorkerId, host: string, token: Token,
                  phase: Phase, events: seq<Breakers.Event>, b: Breakers.Breaker): System
  {
    Leased(cfg, start, w, host, token).(
      history := map[w := events], breakers := map[w := b],
      crawls := map[0 := Crawl(phase, w, host, Some(token), start, true, true)])
  }

  lemma FirstTokenIsGranted(cfg: Config, start: int, w: WorkerId, host: string)
    requires Rates.Usable(cfg.rate)
    ensures Next(cfg, Alone(start, w, host, WaitingToken), PollToken(0)) == Granted(cfg, start, w, host)
  {
    Rates.TryInPlainTerms(cfg.rate, host, start, map[]);
  }

  lemma FirstSlotIsGranted(cfg: Config, start: int, w: WorkerId, host: string, token: Token)
    requires Rates.Usable(cfg.rate) && 0 < cfg.limit
    ensures Next(cfg, Granted(cfg, start, w, host), PollSlot(0, token)) == Leased(cfg, start, w, host, token)
  {
    assert Slots.Young(Slots.EMPTY.scores, start, cfg.slotTtl) == map[];
  }

  lemma FirstSteps(cfg: Config, start: int, w: WorkerId, host: string)
    requires Rates.Usable(cfg.rate)
    ensures Next(cfg, Initial(start), Begin(0, w, host)) == Alone(start, w, host, Starting)
    ensures Next(cfg, Alone(start, w, host, Starting), CheckInput(0, true)) == Alone(start, w, host, WaitingToken)
  {
  }

  lemma FirstCallEnters(cfg: Config, start: int, w: WorkerId, host: string, token: Token)
    requires Rates.Usable(cfg.rate)
    ensures Next(cfg, Leased(cfg, start, w, host, token), EnterBreaker(0))
         == Called(cfg, start, w, host, token, InFlight, [Breakers.Enter(start)], Breakers.INITIAL)
  {
    var s := Leased(cfg, start, w, host, token);
    assert HistoryOf(s, w) + [Breakers.Enter(start)] == [Breakers.Enter(start)];
    assert EventOf(s, EnterBreaker(0)) == Some(Breakers.Enter(start));
  }

  /** The breaker after one call on a new one. */
  function CountedOnce(ok: bool): Breakers.Breaker {
    Breakers.Breaker(Breakers.CLOSED, if ok then 0 else 1, 0)
  }

  lemma FirstCallSettles(cfg: Config, start: int, w: WorkerId, host: string, token: Token, ok: bool)
    requires Rates.Usable(cfg.rate) && 1 < cfg.breaker.failureThreshold
    ensures var entered := [Breakers.Enter(start)];
      Next(cfg, Called(cfg, start, w, host, token, InFlight, entered, Breakers.INITIAL), Settle(0, ok))
      == Called(cfg, start, w, host, token, Releasing,
                entered + [if ok then Breakers.Succeed(start) else Breakers.Fail(start)], CountedOnce(ok))
  {
    var s := Called(cfg, start, w, host, token, InFlight, [Breakers.Enter(start)], Breakers.INITIAL);
    var e := if ok then Breakers.Succeed(start) else Breakers.Fail(start);
    assert EventOf(s, Settle(0, ok)) == Some(e);
    assert Breakers.Apply(cfg.breaker, BreakerOf(s, w), e) == CountedOnce(ok);
  }

  lemma FirstRelease(cfg: Config, start: int, w: WorkerId, host: string, token: Token,
                     events: seq<Breakers.Event>, b: Breakers.Breaker)
    requires Rates.Usable(cfg.rate) && 0 < cfg.slotTtl
    ensures Next(cfg, Called(cfg, start, w, host, token, Releasing, events, b), Release(0))
         == Called(cfg, start, w, host, token, Finished, events, b).(slots := Slots.EMPTY)
  {
    assert Slots.ReleaseStep(Leased(cfg, start, w, host, token).slots, start, token).0 == Slots.EMPTY;
  }

  lemma RunFour(cfg: Config, s: System, a: Label, b: Label, c: Label, d: Label)
    requires Rates.Usable(cfg.rate)
    ensures Run(cfg, s, [a, b, c, d]) == Next(cfg, Next(cfg, Next(cfg, Next(cfg, s, a), b), c), d)
  {
    RunOne(cfg, s, [a, b, c, d]);
    RunOne(cfg, Next(cfg, s, a), [b, c, d]);
    RunOne(cfg, Next(cfg, Next(cfg, s, a), b), [c, d]);
    RunOne(cfg, Next(cfg, Next(cfg, Next(cfg, s, a), b), c), [d]);
  }

  lemma RunOne(cfg: Config, s: System, labels: seq<Label>)
    requires Rates.Usable(cfg.rate) && labels != []
    ensures Run(cfg, s, labels) == Run(cfg, Next(cfg, s, labels[0]), labels[1..])
    ensures |labels| == 1 ==> Run(cfg, s, labels) == Next(cfg, s, labels[0])
  {
  }

  /** From its begin to its slot, an undisturbed crawl takes one token and one slot. */
  lemma CrawlGetsItsSlot(cfg: Config, start: int, w: WorkerId, host: string, token: Token)
    requires Rates.Usable(cfg.rate) && 0 < cfg.limit
    ensures Run(cfg, Initial(start), [Begin(0, w, host), CheckInput(0, true), PollToken(0), PollSlot(0, token)])
         == Leased(cfg, start, w, host, token)
  {
    FirstSteps(cfg, start, w, host);
    FirstTokenIsGranted(cfg, start, w, host);
    FirstSlotIsGranted(cfg, start, w, host, token);
    RunFour(cfg, Initial(start), Begin(0, w, host), CheckInput(0, true), PollToken(0), PollSlot(0, token));
  }

  /** From there it calls the provider, its breaker counts the outcome, and it gives its slot back. */
  lemma CrawlGetsThrough(cfg: Config, start: int, w: WorkerId, host: string, token: Token, ok: bool)
    requires Rates.Usable(cfg.rate) && 0 < cfg.slotTtl && 1 < cfg.breaker.failureThreshold
    ensures
      var s := Run(cfg, Leased(cfg, start, w, host, token), [EnterBreaker(0), Settle(0, ok), Release(0), Tick(0)]);
      && s.crawls == map[0 := Crawl(Finished, w, host, Some(token), start, true, true)]
      && s.slots == Slots.EMPTY && s.buckets == Leased(cfg, start, w, host, token).buckets
      && s.breakers == map[w := Breakers.Breaker(Breakers.CLOSED, if ok then 0 else 1, 0)]
  {
    var settled := [Breakers.Enter(start)] + [if ok then Breakers.Succeed(start) else Breakers.Fail(start)];
    FirstCallEnters(cfg, start, w, host, token);
    FirstCallSettles(cfg, start, w, host, token, ok);
    FirstRelease(cfg, start, w, host, token, settled, CountedOnce(ok));
    RunFour(cfg, Leased(cfg, start, w, host, token), EnterBreaker(0), Settle(0, ok), Release(0), Tick(0));
  }
}
