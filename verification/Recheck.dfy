/**
 * The cooldown on rechecking one link (apps/api/src/modules/links/links.service.ts,
 * `recheckOne`): a conditional update that only one of many concurrent requests wins.
 */
module Recheck {
  import opened Options

  const COOLDOWN_MS: nat := 60_000

  /** A request reads the clock for its cutoff, then again for the stamp it would write. */
  datatype Attempt = Attempt(now: int, stamp: int)

  /** The update takes effect when lastCooldownAt is null or older than the cutoff. */
  predicate Wins(last: Option<int>, now: int) {
    last.None? || last.value < now - COOLDOWN_MS
  }

  function CasStep(last: Option<int>, a: Attempt): (Option<int>, bool) {
    if Wins(last, a.now) then (Some(a.stamp), true) else (last, false)
  }

  /** The stamps that were written, in the order the database applied the updates. */
  function Accepted(last: Option<int>, attempts: seq<Attempt>): seq<int>
    decreases attempts
  {
    if attempts == [] then []
    else
      var (last', ok) := CasStep(last, attempts[0]);
      (if ok then [attempts[0].stamp] else []) + Accepted(last', attempts[1..])
  }

  /** Each request's own two clock reads are in order; requests may be applied in any order. */
  predicate Sound(attempts: seq<Attempt>) {
    forall i :: 0 <= i < |attempts| ==> attempts[i].now <= attempts[i].stamp
  }

  predicate FarApart(stamps: seq<int>) {
    forall i :: 0 <= i < |stamps| - 1 ==> stamps[i] + COOLDOWN_MS < stamps[i + 1]
  }

  /**
   * Accepted rechecks of a link are more than a cooldown apart, in whatever order the
   * database applied the requests.
   */
  lemma {:induction false} AcceptedFarApart(last: Option<int>, attempts: seq<Attempt>)
    requires Sound(attempts)
    ensures FarApart(Accepted(last, attempts))
    ensures last.Some? && Accepted(last, attempts) != [] ==> last.value + COOLDOWN_MS < Accepted(last, attempts)[0]
    decreases attempts
  {
    if attempts != [] {
      AcceptedFarApart(CasStep(last, attempts[0]).0, attempts[1..]);
    }
  }

  /** The stamp in force once some were written. */
  function InForce(last: Option<int>, written: seq<int>): Option<int> {
    if written == [] then last else Some(written[|written| - 1])
  }

  /**
   * One more request is accepted exactly if no stamp is in force, or the one in force is
   * more than a minute older than the request; the stamp it writes is its own.
   */
  lemma {:induction false} OneMoreAttempt(last: Option<int>, attempts: seq<Attempt>, a: Attempt)
    ensures Accepted(last, []) == []
    ensures var written := Accepted(last, attempts);
      var inForce := InForce(last, written);
      Accepted(last, attempts + [a])
        == written + if inForce.None? || inForce.value + 60_000 < a.now then [a.stamp] else []
    decreases attempts
  {
    if attempts == [] {
    } else {
      assert (attempts + [a])[1..] == attempts[1..] + [a];
      OneMoreAttempt(CasStep(last, attempts[0]).0, attempts[1..], a);
    }
  }

  lemma {:induction false} AllRefused(last: int, attempts: seq<Attempt>)
    requires forall i :: 0 <= i < |attempts| ==> attempts[i].now <= last + 60_000
    ensures Accepted(Some(last), attempts) == []
    decreases attempts
  {
    if attempts == [] {
    } else {
      AllRefused(last, attempts[1..]);
    }
  }

  /**
   * Of any number of requests for a link without a stamp, all made within a minute of each
   * other, exactly one is accepted: the one the database applies first.
   */
  lemma ConcurrentRequests(attempts: seq<Attempt>)
    requires attempts != []
    requires forall i, j :: 0 <= i < |attempts| && 0 <= j < |attempts| ==> attempts[i].now <= attempts[j].stamp + 60_000
    ensures Accepted(None, attempts) == [attempts[0].stamp]
  {
    AllRefused(attempts[0].stamp, attempts[1..]);
  }

  function CountIn(stamps: seq<int>, from: int, to: int): nat {
    if stamps == [] then 0
    else (if from <= stamps[0] <= to then 1 else 0) + CountIn(stamps[1..], from, to)
  }

  lemma {:induction false} CountSpaced(stamps: seq<int>, from: int, to: int)
    requires FarApart(stamps) && from <= to
    ensures CountIn(stamps, from, to) * (COOLDOWN_MS + 1) <= to - from + COOLDOWN_MS + 1
    ensures stamps != [] && to < stamps[0] ==> CountIn(stamps, from, to) == 0
    ensures stamps != [] && from <= stamps[0] <= to ==>
      CountIn(stamps, from, to) * (COOLDOWN_MS + 1) <= to - stamps[0] + COOLDOWN_MS + 1
    decreases stamps
  {
    if stamps != [] {
      assert forall i :: 0 <= i < |stamps[1..]| ==> stamps[1..][i] == stamps[i + 1];
      CountSpaced(stamps[1..], from, to);
      if stamps[1..] == [] {
        assert CountIn(stamps[1..], from, to) == 0;
      } else {
        assert stamps[0] + COOLDOWN_MS < stamps[1];
      }
    }
  }

  /** A window of length W lets at most W / cooldown + 1 rechecks of a link through. */
  lemma WindowAdmits(last: Option<int>, attempts: seq<Attempt>, from: int, width: nat)
    requires Sound(attempts)
    ensures CountIn(Accepted(last, attempts), from, from + width) <= width / COOLDOWN_MS + 1
  {
    AcceptedFarApart(last, attempts);
    CountSpaced(Accepted(last, attempts), from, from + width);
  }

  // ----- the advertised wait -----

  function CeilDiv(x: int, d: nat): int
    requires 0 < d
  {
    (x + d - 1) / d
  }

  /** The seconds a refused request is told, when `left` milliseconds of the cooldown are left. */
  function WaitSec(left: int): int {
    if CeilDiv(left, 1000) <= 1 then 1 else CeilDiv(left, 1000)
  }

  /** The least whole number of seconds, one at the least, that is not less than what is left. */
  lemma WaitInPlainTerms(left: int)
    ensures var secs := WaitSec(left);
      1 <= secs && left <= 1000 * secs && (secs == 1 || 1000 * (secs - 1) < left)
  {
    assert left == 1000 * (left / 1000) + left % 1000;
  }

  /**
   * If nobody else got in, waiting the advertised seconds and one more millisecond is
   * always long enough; the advertised second itself is exactly when the time that was
   * left is not a whole, positive number of seconds.
   */
  lemma AdvertisedWait(last: int, now: int, later: int)
    ensures var left := last + 60_000 - now;
      && (now + 1000 * WaitSec(left) < later ==> CasStep(Some(last), Attempt(later, later)).1)
      && (last + 60_000 < now + 1000 * WaitSec(left) <==> left <= 0 || left % 1000 != 0)
  {
    var left := last + 60_000 - now;
    WaitInPlainTerms(left);
    var q, m := left / 1000, left % 1000;
    assert left == 1000 * q + m && 0 <= m < 1000;
    assert CeilDiv(left, 1000) == if m == 0 then q else q + 1;
  }

  // ----- the request -----

  /** What a request is about: whose link it is, in which project, from where, and its stamp. */
  datatype Row = Row(userId: string, projectId: string, manual: bool, lastCooldownAt: Option<int>)

  datatype Job = Job(linkId: string, projectId: string, manual: bool)

  type Table = map<string, Row>

  datatype Reply = NotFound | Conflict | Enqueued | TooMany(retryAfterSec: int)

  /** The link table and the queue, and what others make of them during an await. */
  datatype World = World(links: Table, queue: seq<Job>)
  type Others = World -> World

  /** Row `id` is there, and has no stamp or one more than a minute before `now`. */
  predicate IsOpen(links: Table, id: string, now: int) {
    id in links && (links[id].lastCooldownAt.None? || links[id].lastCooldownAt.value + 60_000 < now)
  }

  class LinkTable {
    var links: Table
    var queue: seq<Job>

    constructor ()
      ensures links == map[] && queue == []
    {
      links, queue := map[], [];
    }

    ghost function Value(): World
      reads this
    {
      World(links, queue)
    }

    /** Other requests, for this link too, run while this one awaits; links come and go. */
    method Interference(others: Others)
      modifies this
      ensures Value() == others(old(Value()))
    {
      var w := others(World(links, queue));
      links, queue := w.links, w.queue;
    }

    /**
     * The conditional update: one atomic statement, which says how many rows it changed.
     * It stamps a row that has no stamp, or one more than a minute before the cutoff was
     * computed; any other row, and every other link, stays as it is.
     */
    method Update(id: string, a: Attempt) returns (count: nat)
      modifies this`links
      ensures var was := old(links);
        if id in was && (was[id].lastCooldownAt.None? || was[id].lastCooldownAt.value + 60_000 < a.now)
        then count == 1 && links == was[id := was[id].(lastCooldownAt := Some(a.stamp))]
        else count == 0 && links == was
      ensures id in links ==> CasStep(old(links)[id].lastCooldownAt, a) == (links[id].lastCooldownAt, count == 1)
    {
      var cutoff := a.now - COOLDOWN_MS;
      count := 0;
      if id in links && (links[id].lastCooldownAt.None? || links[id].lastCooldownAt.value < cutoff) {
        links := links[id := links[id].(lastCooldownAt := Some(a.stamp))];
        count := 1;
      }
    }

    /**
     * One recheck request of a user. What others do between the request's first read and
     * its update, and between the update and its last statement, is given. Somebody
     * else's link is not found; a manual link of a locked project is refused; otherwise
     * the link is queued, with its project and source, exactly if the update found it
     * open, and only then is it stamped; else the reply says what is left to wait.
     */
    method RecheckOne(user: string, id: string, isLocked: string -> bool, a: Attempt, repliedAt: int,
                      before: Others, after: Others)
      returns (reply: Reply)
      modifies this
      ensures var mine := id in old(links) && old(links)[id].userId == user;
        var busy := mine && old(links)[id].manual && isLocked(old(links)[id].projectId);
        var found := before(old(Value()));
        && (!mine <==> reply == NotFound)
        && (!mine ==> Value() == old(Value()))
        && (busy <==> reply == Conflict)
        && (busy ==> Value() == found)
        && (mine && !busy ==> (reply == Enqueued <==> IsOpen(found.links, id, a.now)))
        && (reply == Enqueued ==>
              var stamped := found.links[id := found.links[id].(lastCooldownAt := Some(a.stamp))];
              var left := after(World(stamped, found.queue));
              && links == left.links
              && queue == left.queue + [Job(id, old(links)[id].projectId, old(links)[id].manual)])
        && (reply.TooMany? ==>
              && Value() == after(found)
              && reply.retryAfterSec == WaitSec(if id in links && links[id].lastCooldownAt.Some?
                   then links[id].lastCooldownAt.value + 60_000 - repliedAt else 60_000))
    {
      if id !in links || links[id].userId != user { return NotFound; }
      var link := links[id];
      Interference(before);
      if link.manual && isLocked(link.projectId) { return Conflict; }
      var count := Update(id, a);
      Interference(after);
      if count == 0 {
        var elapsed := if id in links && links[id].lastCooldownAt.Some?
          then repliedAt - links[id].lastCooldownAt.value else 0;
        var secs := CeilDiv(COOLDOWN_MS - elapsed, 1000);
        return TooMany(if secs <= 1 then 1 else secs);
      }
      queue := queue + [Job(id, link.projectId, link.manual)];
      reply := Enqueued;
    }
  }
}
