/**
 * The counting semaphore kept in one Redis sorted set
 * (packages/worker-core/src/semaphore.ts).
 *
 * Each Lua script is one atomic step on the value of the key. The steps are
 * functions; the classes at the end run them on a mutable key and are proved
 * equal to them.
 */
module Semaphore {
  import opened Options
  import opened Clocks
  import opened Polling

  type Token = string

  /** A sorted set: each member with its score, and the instant the whole key expires. */
  datatype SlotSet = SlotSet(scores: map<Token, int>, expireAt: Option<int>)

  const EMPTY: SlotSet := SlotSet(map[], None)

  predicate Expired(s: SlotSet, now: int) {
    s.expireAt.Some? && s.expireAt.value <= now
  }

  /** What any command sees at `now`: an expired key is gone. */
  function Live(s: SlotSet, now: int): SlotSet {
    if Expired(s, now) then EMPTY else s
  }

  /** Redis deletes a sorted set, and its expiry with it, when the last member goes. */
  function Keep(scores: map<Token, int>, expireAt: Option<int>): SlotSet {
    SlotSet(scores, if scores == map[] then None else expireAt)
  }

  /** The members that survive pruning at `now`: younger than the TTL. */
  function Young(scores: map<Token, int>, now: int, ttl: nat): map<Token, int> {
    map t | t in scores && now - ttl < scores[t] :: scores[t]
  }

  function AcquireStep(s: SlotSet, now: int, ttl: nat, limit: nat, token: Token): (SlotSet, bool) {
    var live := Live(s, now);
    var kept := Young(live.scores, now, ttl);
    if |kept| < limit
    then (SlotSet(kept[token := now], Some(now + ttl)), true)
    else (Keep(kept, live.expireAt), false)
  }

  function ReleaseStep(s: SlotSet, now: int, token: Token): (SlotSet, bool) {
    var live := Live(s, now);
    (Keep(live.scores - {token}, live.expireAt), token in live.scores)
  }

  function HeartbeatStep(s: SlotSet, now: int, ttl: nat, token: Token): (SlotSet, bool) {
    var live := Live(s, now);
    if token in live.scores
    then (SlotSet(live.scores[token := now], Some(now + ttl)), true)
    else (live, false)
  }

  // ----- runs -----

  /** One script call of any client, in the order Redis executes them. */
  datatype Op =
    | Acquire(now: int, token: Token)
    | Release(now: int, token: Token)
    | Heartbeat(now: int, token: Token)

  function Step(s: SlotSet, op: Op, ttl: nat, limit: nat): (SlotSet, bool) {
    match op
    case Acquire(now, token) => AcquireStep(s, now, ttl, limit, token)
    case Release(now, token) => ReleaseStep(s, now, token)
    case Heartbeat(now, token) => HeartbeatStep(s, now, ttl, token)
  }

  function Run(s: SlotSet, ops: seq<Op>, ttl: nat, limit: nat): SlotSet
    decreases ops
  {
    if ops == [] then s else Run(Step(s, ops[0], ttl, limit).0, ops[1..], ttl, limit)
  }

  /** What the acquires of a run were told, in order. */
  function Grants(s: SlotSet, ops: seq<Op>, ttl: nat, limit: nat): seq<bool>
    decreases ops
  {
    if ops == [] then []
    else
      var (s', granted) := Step(s, ops[0], ttl, limit);
      (if ops[0].Acquire? then [granted] else []) + Grants(s', ops[1..], ttl, limit)
  }

  /** Times never go back, and start no earlier than `from`. */
  ghost predicate Ordered(ops: seq<Op>, from: int) {
    ops == [] || (from <= ops[0].now && Ordered(ops[1..], ops[0].now))
  }

  function LastTime(ops: seq<Op>, from: int): int {
    if ops == [] then from else ops[|ops| - 1].now
  }

  /** What every script keeps: capacity, no score from the future, and a key that outlives its members. */
  predicate Valid(s: SlotSet, now: int, ttl: nat, limit: nat) {
    && |s.scores| <= limit
    && (s.scores != map[] ==> s.expireAt.Some?)
    && forall t :: t in s.scores ==> s.scores[t] <= now && s.scores[t] + ttl <= s.expireAt.value
  }

  lemma YoungIsNoBigger(scores: map<Token, int>, now: int, ttl: nat)
    ensures |Young(scores, now, ttl)| <= |scores|
  {
    SubmapIsNoBigger(Young(scores, now, ttl), scores);
  }

  lemma SubmapIsNoBigger(a: map<Token, int>, b: map<Token, int>)
    requires a.Keys <= b.Keys
    ensures |a| <= |b|
  {
    var rest := b.Keys - a.Keys;
    assert b.Keys == a.Keys + rest;
    assert |b.Keys| == |a.Keys| + |rest|;
    assert |a| == |a.Keys| && |b| == |b.Keys|;
  }

  lemma AcquireKeepsValid(s: SlotSet, now: int, token: Token, before: int, ttl: nat, limit: nat)
    requires Valid(s, before, ttl, limit) && before <= now
    ensures Valid(AcquireStep(s, now, ttl, limit, token).0, now, ttl, limit)
  {
    var live := Live(s, now);
    var kept := Young(live.scores, now, ttl);
    YoungIsNoBigger(live.scores, now, ttl);
    if |kept| < limit {
      var added := kept[token := now];
      assert added.Keys == kept.Keys + {token};
      assert |added| == |added.Keys| <= |kept.Keys| + 1;
    }
  }

  lemma ReleaseKeepsValid(s: SlotSet, now: int, token: Token, before: int, ttl: nat, limit: nat)
    requires Valid(s, before, ttl, limit) && before <= now
    ensures Valid(ReleaseStep(s, now, token).0, now, ttl, limit)
  {
    var live := Live(s, now);
    SubmapIsNoBigger(live.scores - {token}, live.scores);
  }

  lemma HeartbeatKeepsValid(s: SlotSet, now: int, token: Token, before: int, ttl: nat, limit: nat)
    requires Valid(s, before, ttl, limit) && before <= now
    ensures Valid(HeartbeatStep(s, now, ttl, token).0, now, ttl, limit)
  {
    var live := Live(s, now);
    if token in live.scores {
      SubmapIsNoBigger(live.scores[token := now], live.scores);
    }
  }

  /**
   * What an acquire does to the members, old ones being those as old as the TTL: they
   * go, young ones stay, the new token comes if fewer than `limit` are young, and nothing
   * else comes. A key that has members outlives them; a new member renews its lifetime.
   */
  lemma AcquireEffect(s: SlotSet, now: int, token: Token, ttl: nat, limit: nat)
    requires Valid(s, now, ttl, limit)
    ensures var (s', granted) := AcquireStep(s, now, ttl, limit, token);
      && (granted <==> |set t | t in s.scores && now < s.scores[t] + ttl| < limit)
      && (forall t :: t in s'.scores <==> (t in s.scores && now < s.scores[t] + ttl) || (granted && t == token))
      && (forall t :: t in s'.scores ==> s'.scores[t] == if granted && t == token then now else s.scores[t])
      && (granted ==> s'.expireAt == Some(now + ttl))
      && (!granted && s'.scores != map[] ==> s'.expireAt == s.expireAt)
  {
    var young := Young(Live(s, now).scores, now, ttl);
    assert young.Keys == set t | t in s.scores && now < s.scores[t] + ttl;
    assert |young| == |young.Keys|;
  }

  /** A release takes its own token away, and nothing else; a heartbeat renews a member that is there. */
  lemma OwnTokenOnly(s: SlotSet, now: int, token: Token, ttl: nat)
    requires !Expired(s, now)
    ensures var (s', removed) := ReleaseStep(s, now, token);
      && (removed <==> token in s.scores) && s'.scores == s.scores - {token}
      && (s'.scores != map[] ==> s'.expireAt == s.expireAt)
    ensures var (s', extended) := HeartbeatStep(s, now, ttl, token);
      && (extended <==> token in s.scores)
      && s' == if extended then SlotSet(s.scores[token := now], Some(now + ttl)) else s
  {
  }

  /** An expired key is an empty one to every script. */
  lemma ExpiredIsEmpty(s: SlotSet, op: Op, ttl: nat, limit: nat)
    requires s.expireAt.Some? && s.expireAt.value <= op.now
    ensures Step(s, op, ttl, limit) == Step(EMPTY, op, ttl, limit)
    ensures op.Acquire? && 0 < limit ==>
      Step(s, op, ttl, limit) == (SlotSet(map[op.token := op.now], Some(op.now + ttl)), true)
    ensures !op.Acquire? ==> Step(s, op, ttl, limit) == (EMPTY, false)
  {
    assert Young(map[], op.now, ttl) == map[];
    assert EMPTY.scores - {op.token} == EMPTY.scores;
  }

  lemma StepKeepsValid(s: SlotSet, op: Op, before: int, ttl: nat, limit: nat)
    requires Valid(s, before, ttl, limit) && before <= op.now
    ensures Valid(Step(s, op, ttl, limit).0, op.now, ttl, limit)
  {
    match op
    case Acquire(now, token) => AcquireKeepsValid(s, now, token, before, ttl, limit);
    case Release(now, token) => ReleaseKeepsValid(s, now, token, before, ttl, limit);
    case Heartbeat(now, token) => HeartbeatKeepsValid(s, now, token, before, ttl, limit);
  }

  /** Capacity: whatever the clients do, the set never holds more than `limit` members. */
  lemma {:induction false} NeverOverLimit(s: SlotSet, ops: seq<Op>, from: int, ttl: nat, limit: nat)
    requires Valid(s, from, ttl, limit) && Ordered(ops, from)
    ensures Valid(Run(s, ops, ttl, limit), LastTime(ops, from), ttl, limit)
    ensures |Run(s, ops, ttl, limit).scores| <= limit
    decreases ops
  {
    if ops != [] {
      StepKeepsValid(s, ops[0], from, ttl, limit);
      NeverOverLimit(Step(s, ops[0], ttl, limit).0, ops[1..], ops[0].now, ttl, limit);
    }
  }

  /**
   * A holder keeps its slot: as long as nobody releases its token, it is still a
   * member at every time less than a TTL after it acquired or last beat.
   */
  lemma {:induction false} HolderSurvives(
      s: SlotSet, ops: seq<Op>, token: Token, from: int, ttl: nat, limit: nat)
    requires Valid(s, from, ttl, limit) && Ordered(ops, from)
    requires token in s.scores && LastTime(ops, from) < s.scores[token] + ttl
    requires forall op :: op in ops && op.Release? ==> op.token != token
    ensures var end := Run(s, ops, ttl, limit);
      token in Live(end, LastTime(ops, from)).scores && s.scores[token] <= end.scores[token]
    decreases ops
  {
    if ops != [] {
      var s' := Step(s, ops[0], ttl, limit).0;
      LastIsLatest(ops, from);
      assert !Expired(s, ops[0].now);
      StepKeepsValid(s, ops[0], from, ttl, limit);
      assert ops[0] in ops;
      HolderSurvives(s', ops[1..], token, ops[0].now, ttl, limit);
    }
  }

  lemma {:induction false} LastIsLatest(ops: seq<Op>, from: int)
    requires Ordered(ops, from)
    ensures from <= LastTime(ops, from)
    ensures forall op :: op in ops ==> from <= op.now <= LastTime(ops, from)
  {
    if ops != [] {
      LastIsLatest(ops[1..], ops[0].now);
      assert ops == [ops[0]] + ops[1..];
    }
  }

  /** The client of `token` only beats, and no script runs a TTL or more after its last beat. */
  ghost predicate BeatsInTime(ops: seq<Op>, token: Token, last: int, ttl: nat)
    decreases ops
  {
    ops == [] ||
    (ops[0].now < last + ttl &&
     (ops[0].token == token ==> ops[0].Heartbeat?) &&
     BeatsInTime(ops[1..], token, if ops[0].token == token then ops[0].now else last, ttl))
  }

  function LastBeat(ops: seq<Op>, token: Token, last: int): int
    decreases ops
  {
    if ops == [] then last
    else LastBeat(ops[1..], token, if ops[0].token == token then ops[0].now else last)
  }

  /** A holder that beats within every TTL never loses its slot, and its score is its last beat. */
  lemma {:induction false} BeatingHolderNeverExpires(
      s: SlotSet, ops: seq<Op>, token: Token, from: int, ttl: nat, limit: nat)
    requires Valid(s, from, ttl, limit) && Ordered(ops, from)
    requires token in s.scores && BeatsInTime(ops, token, s.scores[token], ttl)
    ensures var end := Run(s, ops, ttl, limit);
      token in end.scores && end.scores[token] == LastBeat(ops, token, s.scores[token])
    ensures ops != [] && ops[0].token == token ==> Step(s, ops[0], ttl, limit).1
    decreases ops
  {
    if ops != [] {
      StepKeepsValid(s, ops[0], from, ttl, limit);
      BeatingHolderNeverExpires(Step(s, ops[0], ttl, limit).0, ops[1..], token, ops[0].now, ttl, limit);
    }
  }

  /** Self-healing: when every script ran at least a TTL ago, the next acquire is granted. */
  lemma {:induction false} SilentHoldersAreReclaimed(
      ops: seq<Op>, from: int, now: int, token: Token, ttl: nat, limit: nat)
    requires Ordered(ops, from) && LastTime(ops, from) + ttl <= now && 1 <= limit
    ensures AcquireStep(Run(EMPTY, ops, ttl, limit), now, ttl, limit, token).1
  {
    NeverOverLimit(EMPTY, ops, from, ttl, limit);
    var s := Run(EMPTY, ops, ttl, limit);
    assert Young(Live(s, now).scores, now, ttl) == map[];
  }

  // ----- the whole-key expiry -----

  /** The same scripts on a set whose key never expires. */
  function PlainStep(m: map<Token, int>, op: Op, ttl: nat, limit: nat): (map<Token, int>, bool) {
    match op
    case Acquire(now, token) =>
      var kept := Young(m, now, ttl);
      if |kept| < limit then (kept[token := now], true) else (kept, false)
    case Release(now, token) => (m - {token}, token in m)
    case Heartbeat(now, token) => if token in m then (m[token := now], true) else (m, false)
  }

  function PlainGrants(m: map<Token, int>, ops: seq<Op>, ttl: nat, limit: nat): seq<bool>
    decreases ops
  {
    if ops == [] then []
    else
      var (m', granted) := PlainStep(m, ops[0], ttl, limit);
      (if ops[0].Acquire? then [granted] else []) + PlainGrants(m', ops[1..], ttl, limit)
  }

  /** The two sets agree on every member that a prune at `now` would keep. */
  ghost predicate SameYoung(s: SlotSet, m: map<Token, int>, now: int, ttl: nat) {
    Young(s.scores, now, ttl) == Young(m, now, ttl)
  }

  /**
   * Every heartbeat for a member comes less than a TTL after that member's last stamp:
   * something each client can see to on its own.
   */
  ghost predicate BeatsOnTime(m: map<Token, int>, ops: seq<Op>, ttl: nat, limit: nat)
    decreases ops
  {
    ops == [] ||
    ((ops[0].Heartbeat? && ops[0].token in m ==> ops[0].now < m[ops[0].token] + ttl) &&
     BeatsOnTime(PlainStep(m, ops[0], ttl, limit).0, ops[1..], ttl, limit))
  }

  /** What is old once stays old. */
  lemma YoungLater(m: map<Token, int>, now: int, later: int, ttl: nat)
    requires now <= later
    ensures Young(m, later, ttl) == Young(Young(m, now, ttl), later, ttl)
  {
  }

  lemma YoungWithout(m: map<Token, int>, token: Token, now: int, ttl: nat)
    ensures Young(m - {token}, now, ttl) == Young(m, now, ttl) - {token}
  {
  }

  /** An expired key held only members a prune at that time would drop. */
  lemma LiveIsInvisible(s: SlotSet, before: int, now: int, ttl: nat, limit: nat)
    requires Valid(s, before, ttl, limit)
    ensures Young(Live(s, now).scores, now, ttl) == Young(s.scores, now, ttl)
  {
  }

  lemma PlainStepKeepsSameYoung(s: SlotSet, m: map<Token, int>, op: Op, before: int, ttl: nat, limit: nat)
    requires Valid(s, before, ttl, limit) && before <= op.now
    requires SameYoung(s, m, before, ttl) && s.scores.Keys <= m.Keys
    requires op.Heartbeat? && op.token in m ==> op.token in Live(s, op.now).scores
    ensures var s', m' := Step(s, op, ttl, limit).0, PlainStep(m, op, ttl, limit).0;
      SameYoung(s', m', op.now, ttl) && s'.scores.Keys <= m'.Keys
    ensures Step(s, op, ttl, limit).1 == PlainStep(m, op, ttl, limit).1 || op.Release?
  {
    YoungLater(s.scores, before, op.now, ttl);
    YoungLater(m, before, op.now, ttl);
    LiveIsInvisible(s, before, op.now, ttl, limit);
    if op.Release? {
      YoungWithout(Live(s, op.now).scores, op.token, op.now, ttl);
      YoungWithout(m, op.token, op.now, ttl);
    } else if op.Heartbeat? && op.token in m {
      YoungWith(Live(s, op.now).scores, op.token, op.now, ttl);
      YoungWith(m, op.token, op.now, ttl);
    }
  }

  lemma YoungWith(m: map<Token, int>, token: Token, now: int, ttl: nat)
    ensures Young(m[token := now], now, ttl)
         == if 0 < ttl then Young(m, now, ttl)[token := now] else Young(m, now, ttl) - {token}
  {
  }

  /** A member stamped less than a TTL ago is in both sets, and its key is alive. */
  lemma StampedIsLive(s: SlotSet, m: map<Token, int>, token: Token, before: int, now: int, ttl: nat, limit: nat)
    requires Valid(s, before, ttl, limit) && before <= now && SameYoung(s, m, before, ttl)
    requires token in m && now < m[token] + ttl
    ensures token in Live(s, now).scores
  {
    assert token in Young(m, before, ttl);
    assert token in Young(s.scores, before, ttl);
  }

  lemma {:induction false} GrantsAgree(
      s: SlotSet, m: map<Token, int>, ops: seq<Op>, from: int, ttl: nat, limit: nat)
    requires Valid(s, from, ttl, limit) && Ordered(ops, from) && BeatsOnTime(m, ops, ttl, limit)
    requires SameYoung(s, m, from, ttl) && s.scores.Keys <= m.Keys
    ensures Grants(s, ops, ttl, limit) == PlainGrants(m, ops, ttl, limit)
    decreases ops
  {
    if ops != [] {
      var op := ops[0];
      if op.Heartbeat? && op.token in m { StampedIsLive(s, m, op.token, from, op.now, ttl, limit); }
      StepKeepsValid(s, op, from, ttl, limit);
      PlainStepKeepsSameYoung(s, m, op, from, ttl, limit);
      GrantsAgree(Step(s, op, ttl, limit).0, PlainStep(m, op, ttl, limit).0, ops[1..], op.now, ttl, limit);
    }
  }

  /**
   * Expiring the whole key never changes what an acquire is told: in every run of
   * acquires, releases and timely heartbeats, per-member pruning alone decides.
   */
  lemma KeyExpiryIsInvisible(ops: seq<Op>, from: int, ttl: nat, limit: nat)
    requires Ordered(ops, from) && BeatsOnTime(map[], ops, ttl, limit)
    ensures Grants(EMPTY, ops, ttl, limit) == PlainGrants(map[], ops, ttl, limit)
  {
    GrantsAgree(EMPTY, map[], ops, from, ttl, limit);
  }

  // ----- the heartbeat that comes too late -----

  lemma LongerThanAll(used: set<Token>) returns (n: nat)
    ensures forall t :: t in used ==> |t| < n
    decreases used
  {
    if used == {} {
      n := 0;
    } else {
      var t :| t in used;
      n := LongerThanAll(used - {t});
      if n <= |t| { n := |t| + 1; }
    }
  }

  lemma FreshToken(used: set<Token>) returns (token: Token)
    ensures token !in used
  {
    var n := LongerThanAll(used);
    token := seq(n, _ => 'x');
    assert |token| == n;
  }

  predicate AcquiresAt(ops: seq<Op>, now: int) {
    forall i :: 0 <= i < |ops| ==> ops[i].Acquire? && ops[i].now == now
  }

  lemma {:induction false} AcquiresAreOnTime(m: map<Token, int>, ops: seq<Op>, now: int, ttl: nat, limit: nat)
    requires AcquiresAt(ops, now)
    ensures Ordered(ops, now) && BeatsOnTime(m, ops, ttl, limit)
    decreases ops
  {
    if ops != [] { AcquiresAreOnTime(PlainStep(m, ops[0], ttl, limit).0, ops[1..], now, ttl, limit); }
  }

  lemma FirstGrants(s: SlotSet, m: map<Token, int>, op: Op, rest: seq<Op>, ttl: nat, limit: nat)
    requires op.Acquire?
    ensures var (s', granted) := Step(s, op, ttl, limit);
      Grants(s, [op] + rest, ttl, limit) == [granted] + Grants(s', rest, ttl, limit)
    ensures var (m', granted) := PlainStep(m, op, ttl, limit);
      PlainGrants(m, [op] + rest, ttl, limit) == [granted] + PlainGrants(m', rest, ttl, limit)
  {
    assert ([op] + rest)[1..] == rest;
  }

  /** `s` lacks exactly one of the young members of the plain set, which is within its limit. */
  predicate LacksOne(s: SlotSet, m: map<Token, int>, token: Token, now: int, ttl: nat, limit: nat) {
    && !Expired(s, now) && token in Young(m, now, ttl) && |Young(m, now, ttl)| <= limit
    && Young(s.scores, now, ttl) == Young(m, now, ttl) - {token}
  }

  lemma LacksOneSizes(s: SlotSet, m: map<Token, int>, token: Token, now: int, ttl: nat, limit: nat)
    requires LacksOne(s, m, token, now, ttl, limit)
    ensures |Young(s.scores, now, ttl)| + 1 == |Young(m, now, ttl)|
  {
    var kept, plain := Young(s.scores, now, ttl), Young(m, now, ttl);
    assert plain.Keys == kept.Keys + {token};
    assert |kept| == |kept.Keys| && |plain| == |plain.Keys|;
  }

  /** A new token that both sets grant leaves the difference as it was. */
  lemma BothGrant(s: SlotSet, m: map<Token, int>, token: Token, t: Token, now: int, ttl: nat, limit: nat)
    requires 0 < ttl && LacksOne(s, m, token, now, ttl, limit)
    requires t !in Young(m, now, ttl) && |Young(m, now, ttl)| < limit
    ensures var s', m' := Step(s, Acquire(now, t), ttl, limit).0, PlainStep(m, Acquire(now, t), ttl, limit).0;
      LacksOne(s', m', token, now, ttl, limit) && |Young(m', now, ttl)| == |Young(m, now, ttl)| + 1
  {
    var kept, plain := Young(s.scores, now, ttl), Young(m, now, ttl);
    LacksOneSizes(s, m, token, now, ttl, limit);
    YoungLater(s.scores, now, now, ttl);
    YoungLater(m, now, now, ttl);
    YoungWith(kept, t, now, ttl);
    YoungWith(plain, t, now, ttl);
    assert plain[t := now].Keys == plain.Keys + {t};
    assert |plain[t := now]| == |plain[t := now].Keys| && |plain| == |plain.Keys|;
  }

  /** A set that lacks one young member of the plain set lets one client too many in. */
  lemma {:induction false} MissingMemberShows(
      s: SlotSet, m: map<Token, int>, token: Token, now: int, ttl: nat, limit: nat) returns (ops: seq<Op>)
    requires 0 < ttl && LacksOne(s, m, token, now, ttl, limit)
    ensures AcquiresAt(ops, now) && Grants(s, ops, ttl, limit) != PlainGrants(m, ops, ttl, limit)
    decreases limit - |Young(m, now, ttl)|
  {
    var t := FreshToken(Young(m, now, ttl).Keys);
    var op := Acquire(now, t);
    LacksOneSizes(s, m, token, now, ttl, limit);
    if |Young(m, now, ttl)| == limit {
      ops := [op];
      FirstGrants(s, m, op, [], ttl, limit);
      assert ops + [] == ops;
      assert Grants(s, ops, ttl, limit)[0] && !PlainGrants(m, ops, ttl, limit)[0];
    } else {
      var s', m' := Step(s, op, ttl, limit).0, PlainStep(m, op, ttl, limit).0;
      BothGrant(s, m, token, t, now, ttl, limit);
      var rest := MissingMemberShows(s', m', token, now, ttl, limit);
      ops := [op] + rest;
      FirstGrants(s, m, op, rest, ttl, limit);
      assert Grants(s, ops, ttl, limit)[1..] == Grants(s', rest, ttl, limit);
      assert PlainGrants(m, ops, ttl, limit)[1..] == PlainGrants(m', rest, ttl, limit);
    }
  }

  /** From now on no run of acquires, releases and timely heartbeats can tell the two sets apart. */
  ghost predicate Indistinguishable(s: SlotSet, m: map<Token, int>, now: int, ttl: nat, limit: nat) {
    forall ops :: Ordered(ops, now) && BeatsOnTime(m, ops, ttl, limit) ==>
      Grants(s, ops, ttl, limit) == PlainGrants(m, ops, ttl, limit)
  }

  /**
   * One heartbeat at any time keeps the expiry invisible if and only if it still finds
   * the member, if the plain set has it; a beat too late lets some later client in
   * that the plain set refuses.
   */
  lemma BeatIsInvisibleIff(s: SlotSet, m: map<Token, int>, token: Token, before: int, now: int, ttl: nat, limit: nat)
    requires 0 < ttl && Valid(s, before, ttl, limit) && before <= now && |m| <= limit
    requires SameYoung(s, m, before, ttl) && s.scores.Keys <= m.Keys
    ensures var beat := Heartbeat(now, token);
      Indistinguishable(Step(s, beat, ttl, limit).0, PlainStep(m, beat, ttl, limit).0, now, ttl, limit)
      <==> (token in m ==> token in Live(s, now).scores)
  {
    var beat := Heartbeat(now, token);
    var s', m' := Step(s, beat, ttl, limit).0, PlainStep(m, beat, ttl, limit).0;
    StepKeepsValid(s, beat, before, ttl, limit);
    if token in m ==> token in Live(s, now).scores {
      PlainStepKeepsSameYoung(s, m, beat, before, ttl, limit);
      forall ops | Ordered(ops, now) && BeatsOnTime(m', ops, ttl, limit)
        ensures Grants(s', ops, ttl, limit) == PlainGrants(m', ops, ttl, limit)
      {
        GrantsAgree(s', m', ops, now, ttl, limit);
      }
    } else {
      LateBeatLosesMember(s, m, token, before, now, ttl, limit);
      var ops := MissingMemberShows(s', m', token, now, ttl, limit);
      AcquiresAreOnTime(m', ops, now, ttl, limit);
    }
  }

  lemma LateBeatLosesMember(s: SlotSet, m: map<Token, int>, token: Token, before: int, now: int, ttl: nat, limit: nat)
    requires 0 < ttl && Valid(s, before, ttl, limit) && before <= now && |m| <= limit
    requires SameYoung(s, m, before, ttl) && token in m && token !in Live(s, now).scores
    ensures var s', m' := HeartbeatStep(s, now, ttl, token).0, m[token := now];
      LacksOne(s', m', token, now, ttl, limit)
  {
    YoungLater(s.scores, before, now, ttl);
    YoungLater(m, before, now, ttl);
    LiveIsInvisible(s, before, now, ttl, limit);
    YoungWith(m, token, now, ttl);
    YoungIsNoBigger(m[token := now], now, ttl);
    assert m[token := now].Keys == m.Keys && |m[token := now]| == |m.Keys| == |m|;
    assert token !in Young(m, now, ttl);
  }

  /** The smallest such run: a beat one TTL after the acquire, then a second client. */
  lemma HeartbeatSeesKeyExpiry(ttl: nat, a: Token, b: Token)
    requires 0 < ttl && a != b
    ensures var ops := [Acquire(0, a), Heartbeat(ttl, a), Acquire(ttl, b)];
      Grants(EMPTY, ops, ttl, 1) == [true, true] && PlainGrants(map[], ops, ttl, 1) == [true, false]
  {
    var ops := [Acquire(0, a), Heartbeat(ttl, a), Acquire(ttl, b)];
    var s1 := AcquireStep(EMPTY, 0, ttl, 1, a).0;
    assert Young(map[], 0, ttl) == map[];
    assert s1 == SlotSet(map[a := 0], Some(ttl));
    assert HeartbeatStep(s1, ttl, ttl, a) == (EMPTY, false);
    assert Young(map[], ttl, ttl) == map[];
    assert ops[1..] == [Heartbeat(ttl, a), Acquire(ttl, b)] && ops[1..][1..] == [Acquire(ttl, b)];
    assert Grants(EMPTY, ops[1..][1..], ttl, 1) == [true];
    assert Grants(s1, ops[1..], ttl, 1) == [true];
    var m2 := map[a := 0][a := ttl];
    assert Young(m2, ttl, ttl) == m2;
    assert PlainGrants(m2, ops[1..][1..], ttl, 1) == [false];
    assert PlainGrants(map[a := 0], ops[1..], ttl, 1) == [false];
  }

  // ----- a waiting client -----

  /**
   * The others run the same scripts: they keep the set valid, and as none of them knows
   * the tokens this client draws, an entry with one of them stays while it is young.
   */
  ghost predicate Civil(w: Outside<SlotSet>, draw: nat -> Token, ttl: nat, limit: nat) {
    && (forall n, now, s :: Valid(s, now, ttl, limit) ==> Valid(w.act(n, now, s), now, ttl, limit))
    && (forall n, now, s, k :: LeavesAlone(w, n, now, s, draw(k), ttl, limit))
  }

  predicate LeavesAlone(w: Outside<SlotSet>, n: nat, now: int, s: SlotSet, token: Token, ttl: nat, limit: nat) {
    Valid(s, now, ttl, limit) && token in s.scores && now < s.scores[token] + ttl ==>
      token in w.act(n, now, s).scores && w.act(n, now, s).scores[token] == s.scores[token]
  }

  /** The script answers 1 for a grant and 0 for none. */
  function ScriptOn(ttl: nat, limit: nat, token: Token, now: int, s: SlotSet): (SlotSet, int) {
    var (s', granted) := AcquireStep(s, now, ttl, limit, token);
    (s', if granted then 1 else 0)
  }

  /** A refused client sleeps one poll interval, unless the deadline has come. */
  function Waiting(ttl: nat, limit: nat, draw: nat -> Token, pollMs: nat, deadline: int): Loop<SlotSet> {
    Loop((k, now, s) => ScriptOn(ttl, limit, draw(k), now, s),
         (answer, at) => answer != 1 && at < deadline,
         _ => pollMs)
  }

  /** The loop, read out. */
  lemma WaitingMeans(ttl: nat, limit: nat, draw: nat -> Token, pollMs: nat, deadline: int,
                     w: Outside<SlotSet>, k: nat, t: Turn<SlotSet>)
    ensures var loop := Waiting(ttl, limit, draw, pollMs, deadline);
      && (RunsScript(loop, k, t) <==> ScriptOn(ttl, limit, draw(k), t.asked, t.found) == (t.left, t.answer))
      && (GoesOn(loop, w, k, t) <==> t.answer != 1 && Replied(w, k, t) < deadline)
      && Woken(loop, w, k, t) == Replied(w, k, t) + pollMs + w.lasts(3 * k + 2)
      && Rested(loop, w, k, t) == w.act(3 * k + 2, Woken(loop, w, k, t), Settled(w, k, t))
  {
  }

  /** The lease a call returns: the token drawn for its last try, if that was granted. */
  function LeaseOf(draw: nat -> Token, turns: seq<Turn<SlotSet>>): Option<Token>
    requires turns != []
  {
    if turns[|turns| - 1].answer == 1 then Some(draw(|turns| - 1)) else None
  }

  /** The members younger than the TTL. */
  function YoungOnes(s: SlotSet, now: int, ttl: nat): set<Token> {
    set m | m in s.scores && now < s.scores[m] + ttl
  }

  /** Every try drops the old members, and enters its own token if fewer than `limit` are young. */
  lemma TryInPlainTerms(s: SlotSet, now: int, token: Token, ttl: nat, limit: nat)
    requires Valid(s, now, ttl, limit)
    ensures var (s', answer) := ScriptOn(ttl, limit, token, now, s);
      var young := YoungOnes(s, now, ttl);
      && answer == (if |young| < limit then 1 else 0)
      && s'.scores.Keys == young + (if |young| < limit then {token} else {})
      && (|young| < limit ==> s'.scores[token] == now)
  {
    AcquireEffect(s, now, token, ttl, limit);
  }

  /**
   * A call gets a slot if and only if its last script found fewer than `limit` members
   * younger than the TTL; that script entered the token, and no other try entered any.
   */
  lemma LeaseIsOneEntry(w: Outside<SlotSet>, draw: nat -> Token, ttl: nat, limit: nat, pollMs: nat, deadline: int,
                        now: int, s: SlotSet, turns: seq<Turn<SlotSet>>, later: int, s': SlotSet, k: nat)
    requires Polls(Waiting(ttl, limit, draw, pollMs, deadline), w, now, s, turns, later, s') && k < |turns|
    requires Valid(turns[k].found, turns[k].asked, ttl, limit)
    ensures var t := turns[k];
      var young := YoungOnes(t.found, t.asked, ttl);
      && (|young| < limit <==> LeaseOf(draw, turns).Some? && k == |turns| - 1)
      && t.left.scores.Keys == young + (if |young| < limit then {draw(k)} else {})
      && (|young| < limit ==> t.left.scores[draw(k)] == t.asked)
  {
    var loop, t := Waiting(ttl, limit, draw, pollMs, deadline), turns[k];
    TryInPlainTerms(t.found, t.asked, draw(k), ttl, limit);
    WaitingMeans(ttl, limit, draw, pollMs, deadline, w, k, t);
    assert RunsScript(loop, k, t);
    if k < |turns| - 1 { assert GoesOn(loop, w, k, t); }
  }

  /** A client nobody disturbs before its script runs gets a slot at once if and only if one is free. */
  lemma UndisturbedAcquire(w: Outside<SlotSet>, draw: nat -> Token, ttl: nat, limit: nat, pollMs: nat, deadline: int,
                           now: int, s: SlotSet, turns: seq<Turn<SlotSet>>, later: int, s': SlotSet)
    requires Polls(Waiting(ttl, limit, draw, pollMs, deadline), w, now, s, turns, later, s')
    requires Valid(s, now, ttl, limit) && w.lasts(0) == 0 && w.act(0, now, s) == s
    ensures LeaseOf(draw, turns) == Some(draw(0)) && |turns| == 1
      <==> |YoungOnes(s, now, ttl)| < limit
  {
    assert Begins(w, 0, now, s, turns[0]);
    LeaseIsOneEntry(w, draw, ttl, limit, pollMs, deadline, now, s, turns, later, s', 0);
  }

  /** One Redis sorted-set key and the commands the scripts use on it. */
  class SortedSetKey {
    var scores: map<Token, int>
    var expireAt: Option<int>

    function Value(): SlotSet
      reads this
    {
      SlotSet(scores, expireAt)
    }

    constructor ()
      ensures Value() == EMPTY
    {
      scores, expireAt := map[], None;
    }

    /** Redis drops a key that has expired before it runs anything on it. */
    method DropIfExpired(now: int)
      modifies this
      ensures Value() == Live(old(Value()), now)
    {
      if expireAt.Some? && expireAt.value <= now {
        scores, expireAt := map[], None;
      }
    }

    method ZRemRangeByScore(max: int)
      modifies this
      ensures Value() == Keep(map t | t in old(scores) && max < old(scores)[t] :: old(scores)[t], old(expireAt))
    {
      scores := map t | t in scores && max < scores[t] :: scores[t];
      if scores == map[] { expireAt := None; }
    }

    method ZRem(token: Token) returns (removed: bool)
      modifies this
      ensures Value() == Keep(old(scores) - {token}, old(expireAt))
      ensures removed == (token in old(scores))
    {
      removed := token in scores;
      scores := scores - {token};
      if scores == map[] { expireAt := None; }
    }

    method ZAdd(score: int, token: Token)
      modifies this`scores
      ensures scores == old(scores)[token := score]
    {
      scores := scores[token := score];
    }

    method PExpire(now: int, ttl: nat)
      modifies this`expireAt
      ensures expireAt == Some(now + ttl)
    {
      expireAt := Some(now + ttl);
    }
  }

  class RedisSemaphore {
    const redis: SortedSetKey
    const limit: nat
    const ttlMs: nat
    const pollIntervalMs: nat

    constructor (redis: SortedSetKey, limit: nat, ttlMs: nat, pollIntervalMs: nat)
      ensures this.redis == redis && this.limit == limit
      ensures this.ttlMs == ttlMs && this.pollIntervalMs == pollIntervalMs
    {
      this.redis, this.limit := redis, limit;
      this.ttlMs, this.pollIntervalMs := ttlMs, pollIntervalMs;
    }

    /** One try; `token` is the identifier the client drew for it. */
    method TryAcquire(now: int, token: Token) returns (granted: bool)
      modifies redis
      ensures (redis.Value(), granted) == AcquireStep(old(redis.Value()), now, ttlMs, limit, token)
    {
      redis.DropIfExpired(now);
      redis.ZRemRangeByScore(now - ttlMs);
      granted := |redis.scores| < limit;
      if granted {
        redis.ZAdd(now, token);
        redis.PExpire(now, ttlMs);
      }
    }

    method Release(now: int, token: Token) returns (removed: bool)
      modifies redis
      ensures (redis.Value(), removed) == ReleaseStep(old(redis.Value()), now, token)
    {
      redis.DropIfExpired(now);
      removed := redis.ZRem(token);
    }

    method Heartbeat(now: int, token: Token) returns (extended: bool)
      modifies redis
      ensures (redis.Value(), extended) == HeartbeatStep(old(redis.Value()), now, ttlMs, token)
    {
      redis.DropIfExpired(now);
      extended := token in redis.scores;
      if extended {
        redis.ZAdd(now, token);
        redis.PExpire(now, ttlMs);
      }
    }

    /** The n-th await: time passes and others run their scripts, both as the surroundings say. */
    method Interference(clock: Clock, ms: nat, w: Outside<SlotSet>, n: nat)
      modifies redis, clock
      ensures clock.now == old(clock.now) + ms + w.lasts(n)
      ensures redis.Value() == w.act(n, clock.now, old(redis.Value()))
    {
      clock.Advance(ms + w.lasts(n));
      var other := w.act(n, clock.now, redis.Value());
      redis.scores, redis.expireAt := other.scores, other.expireAt;
    }

    /** A token stamped at `stamp` is still a live member, with that stamp, unless a TTL has passed. */
    predicate KeepsYoung(token: Token, stamp: int, now: int)
      reads redis
    {
      now < stamp + ttlMs ==>
        token in Live(redis.Value(), now).scores && redis.scores[token] == stamp
    }

    /** A try: the script between its two awaits. */
    method Try(clock: Clock, w: Outside<SlotSet>, draw: nat -> Token, k: nat)
      returns (granted: bool, ghost t: Turn<SlotSet>)
      requires Valid(redis.Value(), clock.now, ttlMs, limit) && Civil(w, draw, ttlMs, limit)
      modifies redis, clock
      ensures Begins(w, k, old(clock.now), old(redis.Value()), t)
      ensures ScriptOn(ttlMs, limit, draw(k), t.asked, t.found) == (t.left, t.answer) && granted == (t.answer == 1)
      ensures clock.now == Replied(w, k, t) && redis.Value() == Settled(w, k, t)
      ensures Valid(redis.Value(), clock.now, ttlMs, limit)
      ensures granted ==> KeepsYoung(draw(k), t.asked, clock.now)
    {
      Interference(clock, 0, w, 3 * k);
      ghost var asked, found := clock.now, redis.Value();
      AcquireKeepsValid(found, asked, draw(k), asked, ttlMs, limit);
      granted := TryAcquire(clock.now, draw(k));
      t := Turn(asked, found, redis.Value(), if granted then 1 else 0);
      assert LeavesAlone(w, 3 * k + 1, Replied(w, k, t), t.left, draw(k), ttlMs, limit);
      Interference(clock, 0, w, 3 * k + 1);
    }

    /** The sleep after try `k`. */
    method Rest(clock: Clock, w: Outside<SlotSet>, draw: nat -> Token, k: nat, deadline: int,
                ghost t: Turn<SlotSet>)
      requires clock.now == Replied(w, k, t) && redis.Value() == Settled(w, k, t)
      requires Valid(redis.Value(), clock.now, ttlMs, limit) && Civil(w, draw, ttlMs, limit)
      modifies redis, clock
      ensures var loop := Waiting(ttlMs, limit, draw, pollIntervalMs, deadline);
        clock.now == Woken(loop, w, k, t) && redis.Value() == Rested(loop, w, k, t)
      ensures clock.now >= old(clock.now) + pollIntervalMs && Valid(redis.Value(), clock.now, ttlMs, limit)
    {
      Interference(clock, pollIntervalMs, w, 3 * k + 2);
    }

    /** One round of the loop: a try, and then the end or a sleep. */
    method Round(clock: Clock, deadline: int, w: Outside<SlotSet>, draw: nat -> Token, k: nat,
                 ghost start: int, ghost before: SlotSet, ghost turns: seq<Turn<SlotSet>>)
      returns (lease: Option<Token>, again: bool, ghost turns': seq<Turn<SlotSet>>)
      requires 0 < pollIntervalMs && k == |turns|
      requires Valid(redis.Value(), clock.now, ttlMs, limit) && Civil(w, draw, ttlMs, limit)
      requires Awake(Waiting(ttlMs, limit, draw, pollIntervalMs, deadline), w, start, before, turns,
                     clock.now, redis.Value())
      modifies redis, clock
      ensures Valid(redis.Value(), clock.now, ttlMs, limit) && old(clock.now) <= clock.now && |turns'| == k + 1
      ensures again ==> old(clock.now) < clock.now && old(clock.now) < deadline
      ensures again ==> Awake(Waiting(ttlMs, limit, draw, pollIntervalMs, deadline), w, start, before, turns',
                              clock.now, redis.Value())
      ensures !again ==> Polls(Waiting(ttlMs, limit, draw, pollIntervalMs, deadline), w, start, before, turns',
                               clock.now, redis.Value())
      ensures !again ==> lease == LeaseOf(draw, turns')
      ensures !again && lease.Some? ==> KeepsYoung(lease.value, turns'[k].asked, clock.now)
    {
      ghost var now, found := clock.now, redis.Value();
      var granted;
      ghost var t;
      granted, t := Try(clock, w, draw, k);
      WaitingMeans(ttlMs, limit, draw, pollIntervalMs, deadline, w, k, t);
      OneMoreTurn(Waiting(ttlMs, limit, draw, pollIntervalMs, deadline), w, start, before, turns, now, found, t);
      turns' := turns + [t];
      lease := if granted then Some(draw(k)) else None;
      again := !granted && clock.now < deadline;
      if again { Rest(clock, w, draw, k, deadline, t); }
    }

    /**
     * Poll until a slot is granted or the deadline has passed, drawing a new token for
     * every try, against any surroundings. The answer is the token of the last try, held
     * until a TTL after its script ran, or a timeout that really is one.
     */
    method Acquire(clock: Clock, maxWaitMs: nat, w: Outside<SlotSet>, draw: nat -> Token)
      returns (lease: Option<Token>, ghost turns: seq<Turn<SlotSet>>)
      requires 0 < pollIntervalMs && Valid(redis.Value(), clock.now, ttlMs, limit) && Civil(w, draw, ttlMs, limit)
      modifies redis, clock
      ensures Polls(Waiting(ttlMs, limit, draw, pollIntervalMs, old(clock.now) + maxWaitMs), w,
                    old(clock.now), old(redis.Value()), turns, clock.now, redis.Value())
      ensures lease == LeaseOf(draw, turns) && (lease.None? ==> old(clock.now) + maxWaitMs <= clock.now)
      ensures old(clock.now) <= clock.now && Valid(redis.Value(), clock.now, ttlMs, limit)
      ensures lease.Some? ==> KeepsYoung(lease.value, turns[|turns| - 1].asked, clock.now)
    {
      ghost var start, before := clock.now, redis.Value();
      var deadline, k, again := clock.now + maxWaitMs, 0, true;
      turns, lease := [], None;
      while again
        invariant k == |turns| && start <= clock.now && Valid(redis.Value(), clock.now, ttlMs, limit)
        invariant again ==> Awake(Waiting(ttlMs, limit, draw, pollIntervalMs, deadline), w, start, before, turns,
                                  clock.now, redis.Value())
        invariant !again ==> Polls(Waiting(ttlMs, limit, draw, pollIntervalMs, deadline), w, start, before, turns,
                                   clock.now, redis.Value())
        invariant !again ==> lease == LeaseOf(draw, turns)
        invariant !again && lease.Some? ==> KeepsYoung(lease.value, turns[k - 1].asked, clock.now)
        decreases again, deadline - clock.now
      {
        lease, again, turns := Round(clock, deadline, w, draw, k, start, before, turns);
        k := k + 1;
      }
    }
  }
}
