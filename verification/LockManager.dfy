/**
 * The lease mutex kept in one Redis string per key
 * (packages/worker-core/src/lock-manager.ts).
 */
module LockManager {
  import opened Options

  type Token = string

  datatype Cell = Cell(token: Token, expireAt: int)

  /** What any command sees at `now`: an expired key is gone. */
  function Live(c: Option<Cell>, now: int): Option<Cell> {
    if c.Some? && c.value.expireAt <= now then None else c
  }

  predicate Holds(c: Option<Cell>, now: int, token: Token) {
    Live(c, now).Some? && Live(c, now).value.token == token
  }

  /** SET key token NX PX ttl. */
  function AcquireStep(c: Option<Cell>, now: int, ttl: nat, token: Token): (Option<Cell>, bool) {
    if Live(c, now).None? then (Some(Cell(token, now + ttl)), true) else (c, false)
  }

  /** Extend the lease, only if the value is still this token. */
  function HeartbeatStep(c: Option<Cell>, now: int, ttl: nat, token: Token): (Option<Cell>, bool) {
    if Holds(c, now, token) then (Some(Cell(token, now + ttl)), true) else (Live(c, now), false)
  }

  /** Delete the key, only if the value is still this token. */
  function ReleaseStep(c: Option<Cell>, now: int, token: Token): (Option<Cell>, bool) {
    if Holds(c, now, token) then (None, true) else (Live(c, now), false)
  }

  /**
   * The three steps in plain terms. An absent or expired key is taken, with a full lease;
   * only the token in a living key extends or deletes it; nothing else changes what
   * anyone can see.
   */
  lemma StepsInPlainTerms(c: Option<Cell>, now: int, ttl: nat, token: Token)
    ensures var (after, acquired) := AcquireStep(c, now, ttl, token);
      && (acquired <==> c.None? || c.value.expireAt <= now)
      && after == if acquired then Some(Cell(token, now + ttl)) else c
    ensures var (after, extended) := HeartbeatStep(c, now, ttl, token);
      && (extended <==> c.Some? && now < c.value.expireAt && c.value.token == token)
      && after == if extended then Some(Cell(token, now + ttl))
                  else if c.Some? && c.value.expireAt <= now then None else c
    ensures var (after, released) := ReleaseStep(c, now, token);
      && (released <==> c.Some? && now < c.value.expireAt && c.value.token == token)
      && after == if released || (c.Some? && c.value.expireAt <= now) then None else c
  {
  }

  // ----- runs of any clients on one key -----

  datatype Op =
    | Acquire(now: int, token: Token)
    | Heartbeat(now: int, token: Token)
    | Release(now: int, token: Token)

  function Step(c: Option<Cell>, op: Op, ttl: nat): (Option<Cell>, bool) {
    match op
    case Acquire(now, token) => AcquireStep(c, now, ttl, token)
    case Heartbeat(now, token) => HeartbeatStep(c, now, ttl, token)
    case Release(now, token) => ReleaseStep(c, now, token)
  }

  function Run(c: Option<Cell>, ops: seq<Op>, ttl: nat): Option<Cell>
    decreases ops
  {
    if ops == [] then c else Run(Step(c, ops[0], ttl).0, ops[1..], ttl)
  }

  /** Times never go back, and start no earlier than `from`. */
  ghost predicate Ordered(ops: seq<Op>, from: int)
    decreases ops
  {
    ops == [] || (from <= ops[0].now && Ordered(ops[1..], ops[0].now))
  }

  function LastTime(ops: seq<Op>, from: int): int {
    if ops == [] then from else ops[|ops| - 1].now
  }

  /** None of the ops was sent by the client that drew `token`. */
  ghost predicate ByOthers(ops: seq<Op>, token: Token) {
    forall op :: op in ops ==> op.token != token
  }

  /**
   * Mutual exclusion: until a lease runs out, nothing that clients with other
   * tokens do can move it. The lock stays with its holder, and the lease it was
   * given is unchanged.
   */
  lemma {:induction false} LeaseIsExclusive(c: Cell, ops: seq<Op>, from: int, ttl: nat)
    requires Ordered(ops, from) && LastTime(ops, from) < c.expireAt && ByOthers(ops, c.token)
    ensures Run(Some(c), ops, ttl) == Some(c)
    ensures forall op :: op in ops ==> !Step(Some(c), op, ttl).1
    decreases ops
  {
    if ops != [] {
      assert ops[0] in ops;
      FirstIsEarliest(ops, from);
      LeaseIsExclusive(c, ops[1..], ops[0].now, ttl);
      assert ops == [ops[0]] + ops[1..];
    }
  }

  lemma {:induction false} FirstIsEarliest(ops: seq<Op>, from: int)
    requires Ordered(ops, from)
    ensures from <= LastTime(ops, from)
    ensures ops != [] ==> ops[0].now <= LastTime(ops, from)
    decreases ops
  {
    if ops != [] { FirstIsEarliest(ops[1..], ops[0].now); }
  }

  /**
   * A holder that lost its lease is powerless: once its token is not in the key,
   * its heartbeats and releases fail and change nothing anyone can see, and its
   * token never comes back.
   */
  lemma {:induction false} StaleHolderIsPowerless(c: Option<Cell>, ops: seq<Op>, token: Token, from: int, ttl: nat)
    requires Ordered(ops, from) && !Holds(c, from, token)
    requires forall op :: op in ops && op.token == token ==> !op.Acquire?
    ensures !Holds(Run(c, ops, ttl), LastTime(ops, from), token)
    ensures ops != [] && ops[0].token == token ==>
      !Step(c, ops[0], ttl).1 && Live(Step(c, ops[0], ttl).0, ops[0].now) == Live(c, ops[0].now)
    decreases ops
  {
    if ops != [] {
      assert ops[0] in ops;
      StaleHolderIsPowerless(Step(c, ops[0], ttl).0, ops[1..], token, ops[0].now, ttl);
    }
  }

  /** A holder that keeps beating within the TTL never loses the lock to anyone. */
  ghost predicate BeatsInTime(ops: seq<Op>, token: Token, lease: int, ttl: nat)
    decreases ops
  {
    ops == [] ||
    (ops[0].now < lease &&
     (ops[0].token == token ==> ops[0].Heartbeat?) &&
     BeatsInTime(ops[1..], token, if ops[0].token == token then ops[0].now + ttl else lease, ttl))
  }

  lemma {:induction false} BeatingHolderKeepsLock(c: Cell, ops: seq<Op>, from: int, ttl: nat)
    requires Ordered(ops, from) && BeatsInTime(ops, c.token, c.expireAt, ttl)
    ensures Run(Some(c), ops, ttl).Some? && Run(Some(c), ops, ttl).value.token == c.token
    decreases ops
  {
    if ops != [] {
      BeatingHolderKeepsLock(Step(Some(c), ops[0], ttl).0.value, ops[1..], ops[0].now, ttl);
    }
  }

  lemma TakenAndGone(cells: map<string, Cell>, key: string, c: Cell)
    ensures cells[key := c] - {key} == cells - {key}
  {
  }

  // ----- the mutable store and its client -----

  class LockStore {
    var cells: map<string, Cell>

    constructor ()
      ensures cells == map[]
    {
      cells := map[];
    }

    function Get(key: string): Option<Cell>
      reads this
    {
      if key in cells then Some(cells[key]) else None
    }

    /** The store with one key set to `c`, or removed. */
    function With(key: string, c: Option<Cell>): map<string, Cell>
      reads this
    {
      if c.Some? then cells[key := c.value] else cells - {key}
    }

    /** Redis drops a key that has expired before it runs anything on it. */
    method DropIfExpired(key: string, now: int)
      modifies this
      ensures cells == old(With(key, Live(Get(key), now)))
    {
      if key in cells && cells[key].expireAt <= now {
        cells := cells - {key};
      }
    }
  }

  class LockManager {
    const redis: LockStore

    constructor (redis: LockStore)
      ensures this.redis == redis
    {
      this.redis := redis;
    }

    method Acquire(key: string, now: int, ttlMs: nat, token: Token) returns (acquired: bool)
      modifies redis
      ensures var (c, ok) := AcquireStep(old(redis.Get(key)), now, ttlMs, token);
        redis.cells == old(redis.With(key, c)) && acquired == ok
      ensures acquired <==> key !in old(redis.cells) || old(redis.cells)[key].expireAt <= now
      ensures redis.cells == if acquired then old(redis.cells)[key := Cell(token, now + ttlMs)] else old(redis.cells)
    {
      redis.DropIfExpired(key, now);
      acquired := key !in redis.cells;
      if acquired {
        redis.cells := redis.cells[key := Cell(token, now + ttlMs)];
      }
    }

    method IsLocked(key: string, now: int) returns (locked: bool)
      modifies redis
      ensures locked == Live(old(redis.Get(key)), now).Some?
      ensures redis.cells == old(redis.With(key, Live(redis.Get(key), now)))
    {
      redis.DropIfExpired(key, now);
      locked := key in redis.cells;
    }

    method Heartbeat(key: string, now: int, ttlMs: nat, token: Token) returns (extended: bool)
      modifies redis
      ensures var (c, ok) := HeartbeatStep(old(redis.Get(key)), now, ttlMs, token);
        redis.cells == old(redis.With(key, c)) && extended == ok
    {
      redis.DropIfExpired(key, now);
      extended := key in redis.cells && redis.cells[key].token == token;
      if extended {
        redis.cells := redis.cells[key := Cell(token, now + ttlMs)];
      }
    }

    method Release(key: string, now: int, token: Token) returns (released: bool)
      modifies redis
      ensures var (c, ok) := ReleaseStep(old(redis.Get(key)), now, token);
        redis.cells == old(redis.With(key, c)) && released == ok
      ensures released <==>
        key in old(redis.cells) && now < old(redis.cells)[key].expireAt && old(redis.cells)[key].token == token
      ensures key in old(redis.cells) && old(redis.cells)[key].token == token ==>
        redis.cells == old(redis.cells) - {key}
    {
      redis.DropIfExpired(key, now);
      released := key in redis.cells && redis.cells[key].token == token;
      if released {
        redis.cells := redis.cells - {key};
      }
    }
  }
}
