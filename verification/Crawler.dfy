/**
 * One crawl from start to end (apps/worker/src/modules/crawler/crawler.service.ts).
 * The provider, the HTML parser and the URL parser are parameters: any reply is
 * possible. CrawlProtocol says what many of these do at once.
 */
module Crawler {
  import opened Options
  import opened Clocks
  import opened CrawlResults
  import opened Polling
  import Slots = Semaphore
  import Rates = RateLimiter
  import Breakers = CircuitBreaker

  datatype Response = Response(statusCode: int, finalUrl: string, redirectChain: seq<string>)

  datatype Parsed = Parsed(
    indexable: bool, metaRobots: Option<string>, xRobotsTag: Option<string>,
    canonical: Option<string>, canonicalMatches: bool, occurrences: seq<Occurrence>)

  /** Everything outside the service that a crawl depends on. */
  datatype World = World(
    acceptorHost: string -> Reading<string>,
    safeHost: string -> Option<string>,
    scrape: string -> Breakers.Outcome<Response>,
    parse: (Response, string) -> Reading<Parsed>)

  ghost predicate Possible(w: World) {
    forall url :: !w.scrape(url).CircuitOpen?
  }

  /** The steps others can see, in order. */
  datatype Step =
    | TokenTaken(host: string) | SlotTaken(token: Slots.Token)
    | ProviderCalled(url: string) | SlotReleased(token: Slots.Token)

  // ----- what a crawl reports, field by field -----

  /** A crawl that got no result: the error, and nothing about the donor but perhaps its page's address. */
  predicate Failed(r: CrawlResult, message: string) {
    && !r.ok && r.error == Some(message)
    && r.donorIndexable.None? && r.donorMetaRobots.None? && r.donorXRobotsTag.None?
    && r.donorCanonical.None? && r.canonicalMatches.None?
    && r.linkFound.None? && r.occurrences.None? && r.occurrencesCount == 0
  }

  predicate WithoutPage(r: CrawlResult) {
    r.donorStatusCode.None? && r.donorFinalUrl.None? && r.donorRedirectChain.None?
  }

  predicate WithPage(r: CrawlResult, page: Response) {
    && r.donorStatusCode == Some(page.statusCode) && r.donorFinalUrl == Some(page.finalUrl)
    && r.donorRedirectChain == Some(page.redirectChain)
  }

  predicate WithFindings(r: CrawlResult, p: Parsed) {
    && r.ok && r.error.None?
    && r.donorIndexable == Some(p.indexable) && r.donorMetaRobots == p.metaRobots && r.donorXRobotsTag == p.xRobotsTag
    && r.donorCanonical == p.canonical && r.canonicalMatches == Some(p.canonicalMatches)
    && r.linkFound == Some(p.occurrences != []) && r.occurrences == Some(p.occurrences)
    && r.occurrencesCount == |p.occurrences|
  }

  /** The result of a crawl that held a slot, by whether the breaker let it call the provider. */
  predicate Reports(w: World, url: string, host: string, called: bool, r: CrawlResult) {
    if !called then Failed(r, "Circuit is OPEN") && WithoutPage(r)
    else match w.scrape(url)
      case CircuitOpen => true
      case Rejected(message) => Failed(r, message) && WithoutPage(r)
      case Resolved(page) =>
        WithPage(r, page) &&
        match w.parse(page, host)
        case Unreadable(message) => Failed(r, "Parse error: " + message)
        case Read(p) => WithFindings(r, p)
  }

  /** A crawl is accepted only on a readable page, and its result always fits its verdict. */
  lemma ReportIsConsistent(w: World, url: string, host: string, called: bool, r: CrawlResult)
    requires Possible(w) && Reports(w, url, host, called, r)
    ensures Consistent(r)
    ensures r.ok <==> called && w.scrape(url).Resolved? && w.parse(w.scrape(url).value, host).Read?
    ensures r.donorStatusCode.Some? <==> called && w.scrape(url).Resolved?
  {
    assert !w.scrape(url).CircuitOpen?;
  }

  /** The result as the try block and its catch put it together, before it is timed. */
  method Report(w: World, url: string, host: string, outcome: Breakers.Outcome<Response>) returns (r: CrawlResult)
    requires Possible(w) && (outcome.CircuitOpen? || outcome == w.scrape(url))
    ensures Reports(w, url, host, !outcome.CircuitOpen?, r)
  {
    r := BASE;
    if outcome.CircuitOpen? { return r.(error := Some("Circuit is OPEN")); }
    if outcome.Rejected? { return r.(error := Some(outcome.error)); }
    var response := outcome.value;
    r := r.(donorStatusCode := Some(response.statusCode), donorFinalUrl := Some(response.finalUrl),
            donorRedirectChain := Some(response.redirectChain));
    var parsed := w.parse(response, host);
    if parsed.Unreadable? { return r.(error := Some("Parse error: " + parsed.message)); }
    var p := parsed.value;
    r := r.(ok := true, donorIndexable := Some(p.indexable), donorMetaRobots := p.metaRobots,
            donorXRobotsTag := p.xRobotsTag, donorCanonical := p.canonical,
            canonicalMatches := Some(p.canonicalMatches), linkFound := Some(0 < |p.occurrences|),
            occurrences := Some(p.occurrences), occurrencesCount := |p.occurrences|);
  }

  // ----- the other crawls -----

  /**
   * What a crawl meets: the others' calls on the host's bucket while it waits for a token,
   * on the slots before it asks, while it waits and while it calls, and on the breaker
   * while it waits for the token, for the slot and for the provider; and the tokens it draws.
   */
  datatype Others = Others(
    hashes: Outside<Rates.Hashes>,
    slotsBefore: Outside<Slots.SlotSet>, slots: Outside<Slots.SlotSet>, slotsDuring: Outside<Slots.SlotSet>,
    draw: nat -> Slots.Token,
    breakerEarly: seq<Breakers.Event>, breakerLate: seq<Breakers.Event>, breakerDuring: seq<Breakers.Event>)

  /** What happens to the breaker before the crawl reaches it. */
  function Waited(o: Others, granted: bool): seq<Breakers.Event> {
    o.breakerEarly + if granted then o.breakerLate else []
  }

  /** The tries of the two waits, and the time and the slots when each was over. */
  datatype Journal = Journal(
    tokenTurns: seq<Turn<Rates.Hashes>>, between: int,
    slotTurns: seq<Turn<Slots.SlotSet>>, entered: int, held: Slots.SlotSet)

  class CrawlerService {
    const limiter: Rates.DomainRateLimiter
    const semaphore: Slots.RedisSemaphore
    const breaker: Breakers.CircuitBreaker

    constructor (limiter: Rates.DomainRateLimiter, semaphore: Slots.RedisSemaphore, breaker: Breakers.CircuitBreaker)
      ensures this.limiter == limiter && this.semaphore == semaphore && this.breaker == breaker
    {
      this.limiter, this.semaphore, this.breaker := limiter, semaphore, breaker;
    }

    ghost predicate Ready(clock: Clock)
      reads limiter.store, semaphore.redis, clock
    {
      && Rates.Usable(limiter.rate) && Rates.AllValid(limiter.rate, limiter.store.buckets)
      && 0 < semaphore.pollIntervalMs && 0 < semaphore.ttlMs
      && Slots.Valid(semaphore.redis.Value(), clock.now, semaphore.ttlMs, semaphore.limit)
    }

    ghost predicate Fair(o: Others)
    {
      && Rates.Sound(limiter.rate, o.hashes)
      && Slots.Civil(o.slotsBefore, o.draw, semaphore.ttlMs, semaphore.limit)
      && Slots.Civil(o.slots, o.draw, semaphore.ttlMs, semaphore.limit)
      && Slots.Civil(o.slotsDuring, o.draw, semaphore.ttlMs, semaphore.limit)
    }

    /** The wait for the host token, from `now` to `later`. */
    ghost predicate TokenWait(o: Others, host: string, now: int, m: Rates.Hashes,
                              turns: seq<Turn<Rates.Hashes>>, later: int, m': Rates.Hashes)
      requires 0.0 < limiter.rate.perSec
    {
      Polls(Rates.Waiting(limiter.rate, host, now + 60_000), o.hashes, now, m, turns, later, m')
    }

    /** The wait for the slot, which begins once the others have had their turn. */
    ghost predicate SlotWait(o: Others, now: int, s: Slots.SlotSet, turns: seq<Turn<Slots.SlotSet>>,
                             later: int, s': Slots.SlotSet)
    {
      var begun := now + o.slotsBefore.lasts(0);
      Polls(Slots.Waiting(semaphore.ttlMs, semaphore.limit, o.draw, semaphore.pollIntervalMs, begun + 60_000),
            o.slots, begun, o.slotsBefore.act(0, begun, s), turns, later, s')
    }

    lemma SlotWaitBegins(o: Others, start: int, before: Slots.SlotSet, begun: int, found: Slots.SlotSet,
                         turns: seq<Turn<Slots.SlotSet>>, later: int, s': Slots.SlotSet)
      requires begun == start + o.slotsBefore.lasts(0) && found == o.slotsBefore.act(0, begun, before)
      requires Polls(Slots.Waiting(semaphore.ttlMs, semaphore.limit, o.draw, semaphore.pollIntervalMs, begun + 60_000),
                     o.slots, begun, found, turns, later, s')
      ensures SlotWait(o, start, before, turns, later, s')
    {
    }

    method TakeToken(host: string, clock: Clock, o: Others)
      returns (granted: bool, ghost turns: seq<Turn<Rates.Hashes>>)
      requires Ready(clock) && Fair(o)
      modifies limiter.store, breaker, clock
      ensures Ready(clock) && old(clock.now) <= clock.now
      ensures TokenWait(o, host, old(clock.now), old(limiter.store.buckets), turns, clock.now, limiter.store.buckets)
      ensures granted == (turns[|turns| - 1].answer == 0)
      ensures breaker.Value() == Breakers.AfterFrom(breaker.options, old(breaker.Value()), o.breakerEarly)
    {
      granted, turns := limiter.Consume(host, clock, 60_000, o.hashes);
      breaker.Overlap(o.breakerEarly);
    }

    /** The slot is held from the time its script ran. */
    method TakeSlot(clock: Clock, o: Others)
      returns (lease: Option<Slots.Token>, ghost turns: seq<Turn<Slots.SlotSet>>)
      requires Ready(clock) && Fair(o)
      modifies semaphore.redis, breaker, clock
      ensures Ready(clock) && old(clock.now) <= clock.now
      ensures SlotWait(o, old(clock.now), old(semaphore.redis.Value()), turns, clock.now, semaphore.redis.Value())
      ensures lease == Slots.LeaseOf(o.draw, turns)
      ensures lease.Some? ==> semaphore.KeepsYoung(lease.value, turns[|turns| - 1].asked, clock.now)
      ensures breaker.Value() == Breakers.AfterFrom(breaker.options, old(breaker.Value()), o.breakerLate)
    {
      ghost var start, before := clock.now, semaphore.redis.Value();
      semaphore.Interference(clock, 0, o.slotsBefore, 0);
      ghost var begun, found := clock.now, semaphore.redis.Value();
      lease, turns := semaphore.Acquire(clock, 60_000, o.slots, o.draw);
      SlotWaitBegins(o, start, before, begun, found, turns, clock.now, semaphore.redis.Value());
      breaker.Overlap(o.breakerLate);
    }

    /**
     * Both waits as the journal tells them, from the hashes `m` and the slots `s` to the
     * hashes `m'`: granted if the last token script said so, and then with the lease the
     * last slot script gave, if any.
     */
    ghost predicate Awaited(o: Others, host: string, now: int, m: Rates.Hashes, s: Slots.SlotSet, j: Journal,
                            granted: bool, lease: Option<Slots.Token>, m': Rates.Hashes)
      requires 0.0 < limiter.rate.perSec
    {
      && now <= j.between <= j.entered && TokenWait(o, host, now, m, j.tokenTurns, j.between, m')
      && granted == (j.tokenTurns[|j.tokenTurns| - 1].answer == 0)
      && if granted
         then SlotWait(o, j.between, s, j.slotTurns, j.entered, j.held) && lease == Slots.LeaseOf(o.draw, j.slotTurns)
         else lease.None? && j.entered == j.between && j.held == s
    }

    lemma BreakerWaited(o: Others, b: Breakers.Breaker, granted: bool)
      ensures var early := Breakers.AfterFrom(breaker.options, b, o.breakerEarly);
        Breakers.AfterFrom(breaker.options, b, Waited(o, granted))
        == if granted then Breakers.AfterFrom(breaker.options, early, o.breakerLate) else early
    {
      Breakers.EventsJoin(breaker.options, b, o.breakerEarly, o.breakerLate);
      assert o.breakerEarly + [] == o.breakerEarly;
    }

    lemma BothWaits(o: Others, host: string, now: int, m: Rates.Hashes, s: Slots.SlotSet, j: Journal,
                    granted: bool, lease: Option<Slots.Token>, m': Rates.Hashes)
      requires 0.0 < limiter.rate.perSec && now <= j.between <= j.entered
      requires TokenWait(o, host, now, m, j.tokenTurns, j.between, m')
      requires granted == (j.tokenTurns[|j.tokenTurns| - 1].answer == 0)
      requires granted ==> SlotWait(o, j.between, s, j.slotTurns, j.entered, j.held)
      requires granted ==> lease == Slots.LeaseOf(o.draw, j.slotTurns)
      requires !granted ==> lease.None? && j.entered == j.between && j.held == s
      ensures Awaited(o, host, now, m, s, j, granted, lease, m')
    {
    }

    /** Wait for a host token, then for a slot; either wait may time out. */
    method AwaitTurn(host: string, clock: Clock, o: Others)
      returns (granted: bool, lease: Option<Slots.Token>, steps: seq<Step>, ghost j: Journal)
      requires Ready(clock) && Fair(o)
      modifies limiter.store, semaphore.redis, breaker, clock
      ensures Ready(clock)
      ensures Awaited(o, host, old(clock.now), old(limiter.store.buckets), old(semaphore.redis.Value()), j,
                      granted, lease, limiter.store.buckets)
      ensures clock.now == j.entered && semaphore.redis.Value() == j.held
      ensures lease.Some? ==> semaphore.KeepsYoung(lease.value, j.slotTurns[|j.slotTurns| - 1].asked, clock.now)
      ensures steps == (if granted then [TokenTaken(host)] else [])
                     + (if lease.Some? then [SlotTaken(lease.value)] else [])
      ensures breaker.Value() == Breakers.AfterFrom(breaker.options, old(breaker.Value()), Waited(o, granted))
    {
      ghost var start, m, s, before := clock.now, limiter.store.buckets, semaphore.redis.Value(), breaker.Value();
      ghost var tokenTurns, slotTurns, between;
      lease, slotTurns := None, [];
      granted, tokenTurns := TakeToken(host, clock, o);
      between := clock.now;
      if granted {
        lease, slotTurns := TakeSlot(clock, o);
      }
      BreakerWaited(o, before, granted);
      steps := (if granted then [TokenTaken(host)] else []) + (if lease.Some? then [SlotTaken(lease.value)] else []);
      j := Journal(tokenTurns, between, slotTurns, clock.now, semaphore.redis.Value());
      BothWaits(o, host, start, m, s, j, granted, lease, limiter.store.buckets);
    }

    /** What the provider call comes to, if the breaker lets it through. */
    function OutcomeOf(w: World, url: string, called: bool): Breakers.Outcome<Response> {
      if called then w.scrape(url) else Breakers.CircuitOpen
    }

    /** The try block and its catch: provider through breaker, then the parser. */
    method CallProvider(w: World, url: string, host: string, clock: Clock, o: Others)
      returns (r: CrawlResult, called: bool)
      requires Possible(w) && Ready(clock) && Fair(o)
      modifies semaphore.redis, breaker, clock
      ensures Ready(clock) && clock.now == old(clock.now) + o.slotsDuring.lasts(0)
      ensures semaphore.redis.Value() == o.slotsDuring.act(0, clock.now, old(semaphore.redis.Value()))
      ensures called == Breakers.Admits(breaker.options, old(breaker.Value()), old(clock.now))
      ensures breaker.Value() == Breakers.AfterFrom(breaker.options, old(breaker.Value()),
        Breakers.CallEvents(OutcomeOf(w, url, called), old(clock.now), clock.now, o.breakerDuring))
      ensures Reports(w, url, host, called, r) && Consistent(r)
    {
      var entered := clock.now;
      semaphore.Interference(clock, 0, o.slotsDuring, 0);
      var outcome := breaker.Exec(entered, clock.now, w.scrape(url), o.breakerDuring);
      called := !outcome.CircuitOpen?;
      r := Report(w, url, host, outcome);
      ReportIsConsistent(w, url, host, called, r);
    }

    /** Under the slot: the call, and in `finally` the release. */
    method UnderSlot(w: World, url: string, host: string, token: Slots.Token, startedAt: int,
                     clock: Clock, releaseFails: bool, o: Others)
      returns (r: CrawlResult, called: bool, steps: seq<Step>)
      requires Possible(w) && Ready(clock) && Fair(o) && startedAt <= clock.now
      modifies semaphore.redis, breaker, clock
      ensures Ready(clock) && clock.now == old(clock.now) + o.slotsDuring.lasts(0)
      ensures var s := o.slotsDuring.act(0, clock.now, old(semaphore.redis.Value()));
        semaphore.redis.Value() == if releaseFails then s else Slots.ReleaseStep(s, clock.now, token).0
      ensures called == Breakers.Admits(breaker.options, old(breaker.Value()), old(clock.now))
      ensures breaker.Value() == Breakers.AfterFrom(breaker.options, old(breaker.Value()),
        Breakers.CallEvents(OutcomeOf(w, url, called), old(clock.now), clock.now, o.breakerDuring))
      ensures steps == (if called then [ProviderCalled(url)] else [])
                     + (if releaseFails then [] else [SlotReleased(token)])
      ensures Reports(w, url, host, called, r) && Consistent(r) && r.durationMs == clock.now - startedAt
      ensures !releaseFails ==> token !in semaphore.redis.scores
    {
      r, called := CallProvider(w, url, host, clock, o);
      steps := if called then [ProviderCalled(url)] else [];
      r := r.(durationMs := clock.now - startedAt);
      if !releaseFails {
        Slots.ReleaseKeepsValid(semaphore.redis.Value(), clock.now, token, clock.now,
                                semaphore.ttlMs, semaphore.limit);
        var _ := semaphore.Release(clock.now, token);
        steps := steps + [SlotReleased(token)];
      }
    }

    /** Token before slot before provider, and the slot given back last. */
    predicate InOrder(steps: seq<Step>, host: string, url: string, granted: bool,
                      lease: Option<Slots.Token>, called: bool, releaseFails: bool)
    {
      steps == (if granted then [TokenTaken(host)] else [])
             + (if lease.Some? then [SlotTaken(lease.value)] else [])
             + ((if called then [ProviderCalled(url)] else [])
               + (if lease.Some? && !releaseFails then [SlotReleased(lease.value)] else []))
    }

    /** What happens to the breaker during a crawl: the others' events, and this crawl's call if it held a slot. */
    function BreakerEvents(w: World, url: string, granted: bool, lease: Option<Slots.Token>, called: bool,
                           entered: int, ended: int, o: Others): seq<Breakers.Event>
    {
      Waited(o, granted) +
      if lease.None? then []
      else Breakers.CallEvents(OutcomeOf(w, url, called), entered, ended, o.breakerDuring)
    }

    lemma BreakerCalled(o: Others, b: Breakers.Breaker, w: World, url: string, granted: bool,
                        lease: Option<Slots.Token>, called: bool, entered: int, ended: int)
      ensures var waited := Breakers.AfterFrom(breaker.options, b, Waited(o, granted));
        Breakers.AfterFrom(breaker.options, b, BreakerEvents(w, url, granted, lease, called, entered, ended, o))
        == if lease.None? then waited
           else Breakers.AfterFrom(breaker.options, waited,
             Breakers.CallEvents(OutcomeOf(w, url, called), entered, ended, o.breakerDuring))
    {
      assert Waited(o, granted) + [] == Waited(o, granted);
      Breakers.EventsJoin(breaker.options, b, Waited(o, granted),
        Breakers.CallEvents(OutcomeOf(w, url, called), entered, ended, o.breakerDuring));
    }

    /** The result of every path from the first wait on. */
    predicate Ends(w: World, url: string, host: string, acceptorHost: string, granted: bool,
                   lease: Option<Slots.Token>, called: bool, r: CrawlResult)
    {
      if !granted then
        && lease.None? && !called && WithoutPage(r)
        && Failed(r, "Rate limit wait failed: " + TimeoutMessage(host))
      else if lease.None? then !called && Failed(r, "Could not acquire crawler slot") && WithoutPage(r)
      else Reports(w, url, acceptorHost, called, r)
    }

    /** After the waits: nothing more, or the provider call and the release of this crawl's own entry. */
    predicate Released(o: Others, lease: Option<Slots.Token>, releaseFails: bool, j: Journal,
                       now: int, s: Slots.SlotSet)
    {
      if lease.None? then now == j.entered && s == j.held
      else
        && now == j.entered + o.slotsDuring.lasts(0)
        && var after := o.slotsDuring.act(0, now, j.held);
           s == if releaseFails then after else Slots.ReleaseStep(after, now, lease.value).0
    }

    /** A crawl of well-formed input: token, slot, call, release. */
    method Crawl(w: World, url: string, host: string, acceptorHost: string, clock: Clock, releaseFails: bool, o: Others)
      returns (r: CrawlResult, granted: bool, lease: Option<Slots.Token>, called: bool, steps: seq<Step>,
               ghost j: Journal)
      requires Possible(w) && Ready(clock) && Fair(o)
      modifies limiter.store, semaphore.redis, breaker, clock
      ensures Ready(clock) && old(clock.now) <= clock.now
      ensures Awaited(o, host, old(clock.now), old(limiter.store.buckets), old(semaphore.redis.Value()), j,
                      granted, lease, limiter.store.buckets)
      ensures Released(o, lease, releaseFails, j, clock.now, semaphore.redis.Value())
      ensures Consistent(r) && r.durationMs == clock.now - old(clock.now)
      ensures Ends(w, url, host, acceptorHost, granted, lease, called, r)
      ensures InOrder(steps, host, url, granted, lease, called, releaseFails)
      ensures lease.Some? ==> called == Breakers.Admits(breaker.options,
        Breakers.AfterFrom(breaker.options, old(breaker.Value()), Waited(o, true)), j.entered)
      ensures breaker.Value() == Breakers.AfterFrom(breaker.options, old(breaker.Value()),
        BreakerEvents(w, url, granted, lease, called, j.entered, clock.now, o))
      ensures lease.Some? && !releaseFails ==> lease.value !in semaphore.redis.scores
    {
      var startedAt := clock.now;
      ghost var before := breaker.Value();
      granted, lease, steps, j := AwaitTurn(host, clock, o);
      called := false;
      if lease.Some? {
        var rest;
        r, called, rest := UnderSlot(w, url, acceptorHost, lease.value, startedAt, clock, releaseFails, o);
        steps := steps + rest;
      } else {
        r := TimedOut(host, granted, clock.now - startedAt);
      }
      BreakerCalled(o, before, w, url, granted, lease, called, j.entered, clock.now);
    }

    function TimedOut(host: string, granted: bool, ms: nat): CrawlResult {
      BASE.(error := Some(if granted then "Could not acquire crawler slot"
                          else "Rate limit wait failed: " + TimeoutMessage(host)), durationMs := ms)
    }

    /**
     * Never throws: every path ends in a consistent result, reported as its path says.
     * Malformed input touches nothing. Otherwise token comes before slot before provider,
     * and the slot is given back last, so unless the release itself failed, no entry of
     * this crawl remains; the breaker sees what the others do and, if this crawl held a
     * slot, its one call.
     */
    method CrawlAndAnalyze(w: World, donorUrl: string, acceptorRaw: string, clock: Clock, releaseFails: bool, o: Others)
      returns (r: CrawlResult, granted: bool, lease: Option<Slots.Token>, called: bool, steps: seq<Step>,
               ghost j: Journal)
      requires Possible(w) && Ready(clock) && Fair(o)
      modifies limiter.store, semaphore.redis, breaker, clock
      ensures Ready(clock) && old(clock.now) <= clock.now
      ensures Consistent(r) && r.durationMs == clock.now - old(clock.now)
      ensures w.acceptorHost(acceptorRaw).Unreadable? ==>
        Failed(r, "Invalid acceptor: " + w.acceptorHost(acceptorRaw).message) && WithoutPage(r)
      ensures w.acceptorHost(acceptorRaw).Read? && w.safeHost(donorUrl).None? ==>
        Failed(r, "Invalid donor URL: " + donorUrl) && WithoutPage(r)
      ensures w.acceptorHost(acceptorRaw).Unreadable? || w.safeHost(donorUrl).None? ==>
        && !granted && lease.None? && !called && steps == [] && limiter.store.buckets == old(limiter.store.buckets)
        && breaker.Value() == old(breaker.Value()) && semaphore.redis.Value() == old(semaphore.redis.Value())
      ensures w.acceptorHost(acceptorRaw).Read? && w.safeHost(donorUrl).Some? ==>
        var host := w.safeHost(donorUrl).value;
        && Awaited(o, host, old(clock.now), old(limiter.store.buckets), old(semaphore.redis.Value()), j,
                   granted, lease, limiter.store.buckets)
        && Released(o, lease, releaseFails, j, clock.now, semaphore.redis.Value())
        && Ends(w, donorUrl, host, w.acceptorHost(acceptorRaw).value, granted, lease, called, r)
        && InOrder(steps, host, donorUrl, granted, lease, called, releaseFails)
        && breaker.Value() == Breakers.AfterFrom(breaker.options, old(breaker.Value()),
             BreakerEvents(w, donorUrl, granted, lease, called, j.entered, clock.now, o))
      ensures lease.Some? ==> called == Breakers.Admits(breaker.options,
        Breakers.AfterFrom(breaker.options, old(breaker.Value()), Waited(o, true)), j.entered)
      ensures lease.Some? && !releaseFails ==> lease.value !in semaphore.redis.scores
    {
      granted, lease, called, steps := false, None, false, [];
      j := Journal([], clock.now, [], clock.now, semaphore.redis.Value());
      var acceptor := w.acceptorHost(acceptorRaw);
      if acceptor.Unreadable? {
        r := BASE.(error := Some("Invalid acceptor: " + acceptor.message));
        return;
      }
      var donorHost := w.safeHost(donorUrl);
      if donorHost.None? {
        r := BASE.(error := Some("Invalid donor URL: " + donorUrl));
        return;
      }
      r, granted, lease, called, steps, j :=
        Crawl(w, donorUrl, donorHost.value, acceptor.value, clock, releaseFails, o);
    }
  }

  /** What the limiter throws when it gives up. */
  function TimeoutMessage(host: string): string {
    "DomainRateLimiter consume timeout for host \"" + host + "\" after 60000ms"
  }
}
