/**
 * The in-process circuit breaker (packages/worker-core/src/circuit-breaker.ts).
 *
 * `exec` awaits the protected call between its entry and its settlement, so
 * calls overlap: a run is a list of entries and settlements in any order.
 */
module CircuitBreaker {

  datatype State = CLOSED | OPEN | HALF_OPEN

  datatype Options = Options(failureThreshold: nat, cooldownMs: nat)

  datatype Breaker = Breaker(state: State, consecutiveFailures: nat, openedAt: int)

  const INITIAL: Breaker := Breaker(CLOSED, 0, 0)

  /** getState moves an OPEN breaker on once its cooldown has passed. */
  function Observe(o: Options, b: Breaker, now: int): Breaker {
    if b.state == OPEN && o.cooldownMs <= now - b.openedAt then b.(state := HALF_OPEN) else b
  }

  /** Whether `exec` lets a call through to the provider at `now`. */
  predicate Admits(o: Options, b: Breaker, now: int) {
    Observe(o, b, now).state != OPEN
  }

  function OnSuccess(b: Breaker): Breaker {
    b.(consecutiveFailures := 0, state := CLOSED)
  }

  function OnFailure(o: Options, b: Breaker, now: int): Breaker {
    var failures := b.consecutiveFailures + 1;
    if o.failureThreshold <= failures || b.state == HALF_OPEN
    then Breaker(OPEN, failures, now)
    else b.(consecutiveFailures := failures)
  }

  // ----- overlapping calls -----

  /** Entries and settlements of any calls, a bare getState, and reset. */
  datatype Event = Enter(now: int) | Succeed(now: int) | Fail(now: int) | Look(now: int) | Reset(now: int)

  function Apply(o: Options, b: Breaker, e: Event): Breaker {
    match e
    case Enter(now) => Observe(o, b, now)
    case Look(now) => Observe(o, b, now)
    case Succeed(_) => OnSuccess(b)
    case Fail(now) => OnFailure(o, b, now)
    case Reset(_) => INITIAL
  }

  /** The breaker after a run from `b`, latest event last. */
  function AfterFrom(o: Options, b: Breaker, events: seq<Event>): Breaker {
    if events == [] then b
    else Apply(o, AfterFrom(o, b, events[..|events| - 1]), events[|events| - 1])
  }

  function After(o: Options, events: seq<Event>): Breaker {
    AfterFrom(o, INITIAL, events)
  }

  lemma OneMoreEvent(o: Options, b: Breaker, events: seq<Event>, e: Event)
    ensures AfterFrom(o, b, events + [e]) == Apply(o, AfterFrom(o, b, events), e)
  {
    assert (events + [e])[..|events|] == events;
  }

  lemma {:induction false} EventsJoin(o: Options, b: Breaker, first: seq<Event>, rest: seq<Event>)
    ensures AfterFrom(o, b, first + rest) == AfterFrom(o, AfterFrom(o, b, first), rest)
    decreases |rest|
  {
    if rest == [] {
      assert first + rest == first;
    } else {
      var init, last := rest[..|rest| - 1], rest[|rest| - 1];
      assert (first + rest)[..|first + rest| - 1] == first + init;
      EventsJoin(o, b, first, init);
    }
  }

  /** Failures settled since the last success or reset. */
  function FailuresInARow(events: seq<Event>): nat {
    if events == [] then 0
    else match events[|events| - 1]
      case Succeed(_) => 0
      case Reset(_) => 0
      case Fail(_) => FailuresInARow(events[..|events| - 1]) + 1
      case _ => FailuresInARow(events[..|events| - 1])
  }

  /**
   * Over every interleaving of overlapping calls the breaker is CLOSED exactly
   * when fewer than the threshold have failed since the last success or reset.
   */
  lemma {:induction false} ClosedIffFewFailures(o: Options, events: seq<Event>)
    requires 1 <= o.failureThreshold
    ensures After(o, events).consecutiveFailures == FailuresInARow(events)
    ensures After(o, events).state == CLOSED <==> FailuresInARow(events) < o.failureThreshold
  {
    if events != [] {
      ClosedIffFewFailures(o, events[..|events| - 1]);
    }
  }

  /** The time of the last failure that found the threshold reached: when the breaker last opened. */
  function LastOpening(o: Options, events: seq<Event>): int
    requires o.failureThreshold <= FailuresInARow(events) && 1 <= o.failureThreshold
  {
    var init, last := events[..|events| - 1], events[|events| - 1];
    if last.Fail? then last.now else LastOpening(o, init)
  }

  /**
   * A call is let through exactly when the failures in a row are too few, or a
   * cooldown has passed since the latest of them.
   */
  lemma {:induction false} AdmittedIff(o: Options, events: seq<Event>, now: int)
    requires 1 <= o.failureThreshold
    requires forall e :: e in events ==> e.now <= now
    ensures Admits(o, After(o, events), now) <==>
      (FailuresInARow(events) < o.failureThreshold || LastOpening(o, events) + o.cooldownMs <= now)
  {
    ClosedIffFewFailures(o, events);
    if o.failureThreshold <= FailuresInARow(events) { OpenedAtLastOpening(o, events, now); }
  }

  lemma {:induction false} OpenedAtLastOpening(o: Options, events: seq<Event>, now: int)
    requires 1 <= o.failureThreshold <= FailuresInARow(events)
    requires forall e :: e in events ==> e.now <= now
    ensures After(o, events).openedAt == LastOpening(o, events)
    ensures After(o, events).state == HALF_OPEN ==> LastOpening(o, events) + o.cooldownMs <= now
  {
    var init, last := events[..|events| - 1], events[|events| - 1];
    ClosedIffFewFailures(o, init);
    ClosedIffFewFailures(o, events);
    assert last in events;
    if !last.Fail? {
      OpenedAtLastOpening(o, init, now);
    }
  }

  /**
   * HALF_OPEN has no gate: however many calls enter before the first of them
   * settles, every one is let through.
   */
  lemma {:induction false} HalfOpenAdmitsEveryCall(o: Options, events: seq<Event>, enters: seq<Event>, now: int)
    requires After(o, events).state == HALF_OPEN
    requires forall e :: e in enters ==> e.Enter?
    ensures After(o, events + enters).state == HALF_OPEN && Admits(o, After(o, events + enters), now)
    decreases |enters|
  {
    if enters == [] {
      assert events + enters == events;
    } else {
      var init, last := enters[..|enters| - 1], enters[|enters| - 1];
      HalfOpenAdmitsEveryCall(o, events, init, now);
      assert (events + enters)[..|events + enters| - 1] == events + init;
      assert last in enters;
    }
  }

  // ----- calls one after the other, all failing -----

  /** One exec: entered at `start`; if let through, it fails at `end`. */
  datatype Attempt = Attempt(start: int, end: int)

  function Try(o: Options, b: Breaker, a: Attempt): Breaker {
    var seen := Observe(o, b, a.start);
    if seen.state == OPEN then seen else OnFailure(o, seen, a.end)
  }

  function ProviderCalls(o: Options, b: Breaker, attempts: seq<Attempt>): nat
    decreases attempts
  {
    if attempts == [] then 0
    else
      (if Admits(o, b, attempts[0].start) then 1 else 0)
      + ProviderCalls(o, Try(o, b, attempts[0]), attempts[1..])
  }

  /** The attempts follow one another inside [from, to]. */
  predicate InTurn(attempts: seq<Attempt>, from: int, to: int)
    decreases attempts
  {
    if attempts == [] then from <= to
    else from <= attempts[0].start <= attempts[0].end && InTurn(attempts[1..], attempts[0].end, to)
  }

  predicate Reachable(o: Options, b: Breaker) {
    b.state == CLOSED <==> b.consecutiveFailures < o.failureThreshold
  }

  /** Time that the breaker's state still owes before it would be spent, in ms of window. */
  function Credit(o: Options, b: Breaker, from: int, to: int): int {
    match b.state
    case CLOSED => (o.failureThreshold - b.consecutiveFailures) * o.cooldownMs + (to - from)
    case HALF_OPEN => o.cooldownMs + (to - from)
    case OPEN => to - b.openedAt
  }

  lemma {:induction false} CallsWithinCredit(o: Options, b: Breaker, attempts: seq<Attempt>, from: int, to: int)
    requires Reachable(o, b) && InTurn(attempts, from, to)
    requires b.state == OPEN ==> b.openedAt <= from
    ensures from <= to
    ensures ProviderCalls(o, b, attempts) * o.cooldownMs <= Credit(o, b, from, to)
    decreases attempts
  {
    if attempts == [] {
      if b.state == CLOSED { ProductGrows(0, o.failureThreshold - b.consecutiveFailures, o.cooldownMs); }
    } else {
      var a := attempts[0];
      var b' := Try(o, b, a);
      CallsWithinCredit(o, b', attempts[1..], a.end, to);
      OneMore(ProviderCalls(o, b', attempts[1..]), o.cooldownMs);
      TryCosts(o, b, a, from, to);
    }
  }

  lemma OneMore(k: int, z: int)
    ensures (k + 1) * z == k * z + z
  {
  }

  /** One attempt lowers the credit by a cooldown when it is let through, and never raises it. */
  lemma TryCosts(o: Options, b: Breaker, a: Attempt, from: int, to: int)
    requires Reachable(o, b) && from <= a.start <= a.end
    requires b.state == OPEN ==> b.openedAt <= from
    ensures Credit(o, Try(o, b, a), a.end, to) + (if Admits(o, b, a.start) then o.cooldownMs else 0)
         <= Credit(o, b, from, to)
  {
    if b.state == CLOSED {
      var free := o.failureThreshold - b.consecutiveFailures;
      OneMore(free - 1, o.cooldownMs);
      ProductGrows(0, free - 1, o.cooldownMs);
    }
  }

  /**
   * Calls that all fail, one after the other: in every window of length T the
   * provider is called k times with (k - threshold) x cooldown <= T, whatever
   * state the breaker was in when the window began.
   */
  lemma {:induction false} FailingCallsAreSpaced(
      o: Options, b: Breaker, attempts: seq<Attempt>, from: int, to: int)
    requires 1 <= o.failureThreshold && Reachable(o, b) && InTurn(attempts, from, to)
    requires b.state == OPEN ==> b.openedAt <= from
    ensures (ProviderCalls(o, b, attempts) - o.failureThreshold) * o.cooldownMs <= to - from
    decreases attempts
  {
    CallsWithinCredit(o, b, attempts, from, to);
    var k := ProviderCalls(o, b, attempts);
    if b.state != OPEN {
      DistributeOver(k, o.failureThreshold, o.cooldownMs);
      if b.state == CLOSED {
        ProductGrows(o.failureThreshold - b.consecutiveFailures, o.failureThreshold, o.cooldownMs);
      } else {
        ProductGrows(1, o.failureThreshold, o.cooldownMs);
      }
    } else if attempts == [] {
      ProductGrows(0 - o.failureThreshold as int, 0, o.cooldownMs);
    } else if !Admits(o, b, attempts[0].start) {
      FailingCallsAreSpaced(o, b, attempts[1..], attempts[0].end, to);
    } else {
      var b' := Try(o, b, attempts[0]);
      CallsWithinCredit(o, b', attempts[1..], attempts[0].end, to);
      ProductGrows(k - o.failureThreshold, k - 1, o.cooldownMs);
    }
  }

  lemma ProductGrows(x: int, y: int, z: nat)
    requires x <= y
    ensures x * z <= y * z
  {
    assert 0 <= (y - x) * z;
  }

  lemma DistributeOver(x: int, y: int, z: int)
    ensures (x - y) * z == x * z - y * z
  {
  }

  // ----- the object -----

  datatype Outcome<T> = CircuitOpen | Resolved(value: T) | Rejected(error: string)

  /** The events of one call and of those that overlap with it. */
  function CallEvents<T>(outcome: Outcome<T>, start: int, end: int, others: seq<Event>): seq<Event> {
    match outcome
    case CircuitOpen => [Enter(start)]
    case Resolved(_) => [Enter(start)] + others + [Succeed(end)]
    case Rejected(_) => [Enter(start)] + others + [Fail(end)]
  }

  class CircuitBreaker {
    var state: State
    var consecutiveFailures: nat
    var openedAt: int
    const options: Options

    function Value(): Breaker
      reads this
    {
      Breaker(state, consecutiveFailures, openedAt)
    }

    constructor (options: Options)
      ensures this.options == options && Value() == INITIAL
    {
      this.options := options;
      state, consecutiveFailures, openedAt := CLOSED, 0, 0;
    }

    method GetState(now: int) returns (s: State)
      modifies this
      ensures Value() == Observe(options, old(Value()), now) && s == state
      ensures state == if old(state) == OPEN && old(openedAt) + options.cooldownMs <= now then HALF_OPEN else old(state)
      ensures consecutiveFailures == old(consecutiveFailures) && openedAt == old(openedAt)
    {
      if state == OPEN && now - openedAt >= options.cooldownMs {
        state := HALF_OPEN;
      }
      s := state;
    }

    method Succeeded()
      modifies this
      ensures Value() == OnSuccess(old(Value()))
      ensures state == CLOSED && consecutiveFailures == 0 && openedAt == old(openedAt)
    {
      consecutiveFailures := 0;
      state := CLOSED;
    }

    method Failed(now: int)
      modifies this
      ensures Value() == OnFailure(options, old(Value()), now)
      ensures consecutiveFailures == old(consecutiveFailures) + 1
      ensures if options.failureThreshold <= consecutiveFailures || old(state) == HALF_OPEN
        then state == OPEN && openedAt == now else state == old(state) && openedAt == old(openedAt)
    {
      consecutiveFailures := consecutiveFailures + 1;
      if consecutiveFailures >= options.failureThreshold || state == HALF_OPEN {
        state := OPEN;
        openedAt := now;
      }
    }

    method Reset()
      modifies this
      ensures Value() == Breaker(CLOSED, 0, 0)
    {
      state, consecutiveFailures, openedAt := CLOSED, 0, 0;
    }

    /** The other calls of the process enter and settle while this one awaits, exactly as `others` says. */
    method Overlap(others: seq<Event>)
      modifies this
      ensures Value() == AfterFrom(options, old(Value()), others)
    {
      var after := AfterFrom(options, Value(), others);
      state, consecutiveFailures, openedAt := after.state, after.consecutiveFailures, after.openedAt;
    }

    /**
     * One exec, entered at `start`: unless the breaker is OPEN the provider is called and
     * gives `reply` at `end`, after the other calls' events `others`. The caller gets the
     * reply itself, and this call adds its entry and its settlement to the events, and
     * nothing else. With no other call meanwhile, the fields say what one call does.
     */
    method Exec<T>(start: int, end: int, reply: Outcome<T>, others: seq<Event>) returns (outcome: Outcome<T>)
      requires !reply.CircuitOpen?
      modifies this
      ensures outcome == if Admits(options, old(Value()), start) then reply else CircuitOpen
      ensures Value() == AfterFrom(options, old(Value()), CallEvents(outcome, start, end, others))
      ensures outcome.CircuitOpen? <==> old(state) == OPEN && start < old(openedAt) + options.cooldownMs
      ensures outcome.CircuitOpen? ==> Value() == old(Value())
      ensures others == [] && outcome.Resolved? ==> state == CLOSED && consecutiveFailures == 0
      ensures others == [] && outcome.Rejected? ==> consecutiveFailures == old(consecutiveFailures) + 1
      ensures others == [] && outcome.Rejected? ==>
        if options.failureThreshold <= consecutiveFailures || old(state) != CLOSED
        then state == OPEN && openedAt == end else state == CLOSED && openedAt == old(openedAt)
    {
      ghost var before := Value();
      var s := GetState(start);
      OneMoreEvent(options, before, [], Enter(start));
      assert [] + [Enter(start)] == [Enter(start)];
      if s == OPEN {
        return CircuitOpen;
      }
      Overlap(others);
      EventsJoin(options, before, [Enter(start)], others);
      OneMoreEvent(options, before, [Enter(start)] + others, if reply.Resolved? then Succeed(end) else Fail(end));
      if reply.Resolved? {
        Succeeded();
      } else {
        Failed(end);
      }
      return reply;
    }
  }
}
