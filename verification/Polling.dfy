/**
 * The loop with which a client waits for a shared Redis key to say yes
 * (packages/worker-core/src/domain-rate-limiter.ts, `consume`, and
 * packages/worker-core/src/semaphore.ts, `acquire`): run the script, stop or sleep, run it
 * again. What the others do meanwhile is given from outside.
 */
module Polling {
  /** How long the n-th await of a call lasts, and what others have made of the key by its end. */
  datatype Outside<!S> = Outside(lasts: nat -> nat, act: (nat, int, S) -> S)

  /**
   * The loop itself: what the script does at its k-th try, whether the client goes on
   * after an answer that came at some time, and how long it then sleeps.
   */
  datatype Loop<!S> = Loop(script: (nat, int, S) -> (S, int), goesOn: (int, int) -> bool, pause: int -> nat)

  /** One try: when its script ran, the key as the script found and left it, and its answer. */
  datatype Turn<S> = Turn(asked: int, found: S, left: S, answer: int)

  ghost predicate RunsScript<S>(loop: Loop<S>, k: nat, t: Turn<S>) {
    loop.script(k, t.asked, t.found) == (t.left, t.answer)
  }

  /** When the reply of try `k` is there, and the key then. Each try has three awaits: before, after, and asleep. */
  function Replied<S>(w: Outside<S>, k: nat, t: Turn<S>): int {
    t.asked + w.lasts(3 * k + 1)
  }

  function Settled<S>(w: Outside<S>, k: nat, t: Turn<S>): S {
    w.act(3 * k + 1, Replied(w, k, t), t.left)
  }

  /** When the sleep after try `k` is over, and the key then. */
  function Woken<S>(loop: Loop<S>, w: Outside<S>, k: nat, t: Turn<S>): int {
    Replied(w, k, t) + loop.pause(t.answer) + w.lasts(3 * k + 2)
  }

  function Rested<S>(loop: Loop<S>, w: Outside<S>, k: nat, t: Turn<S>): S {
    w.act(3 * k + 2, Woken(loop, w, k, t), Settled(w, k, t))
  }

  ghost predicate GoesOn<S>(loop: Loop<S>, w: Outside<S>, k: nat, t: Turn<S>) {
    loop.goesOn(t.answer, Replied(w, k, t))
  }

  /** Try `k` begins at `now`, when the key is `s`. */
  ghost predicate Begins<S>(w: Outside<S>, k: nat, now: int, s: S, t: Turn<S>) {
    t.asked == now + w.lasts(3 * k) && t.found == w.act(3 * k, t.asked, s)
  }

  /** The tries of one call, from its first statement on; after every one but the last the client went on. */
  ghost predicate Turns<S>(loop: Loop<S>, w: Outside<S>, now: int, s: S, turns: seq<Turn<S>>) {
    && turns != [] && Begins(w, 0, now, s, turns[0])
    && (forall k :: 0 <= k < |turns| ==> RunsScript(loop, k, turns[k]))
    && (forall k :: 0 <= k < |turns| - 1 ==> GoesOn(loop, w, k, turns[k]))
    && (forall k :: 0 <= k < |turns| - 1 ==>
          Begins(w, k + 1, Woken(loop, w, k, turns[k]), Rested(loop, w, k, turns[k]), turns[k + 1]))
  }

  /** One whole call, over at `later` with the key as `s'`: after its last try the client did not go on. */
  ghost predicate Polls<S>(loop: Loop<S>, w: Outside<S>, now: int, s: S, turns: seq<Turn<S>>, later: int, s': S) {
    && Turns(loop, w, now, s, turns)
    && var k := |turns| - 1;
       !GoesOn(loop, w, k, turns[k]) && later == Replied(w, k, turns[k]) && s' == Settled(w, k, turns[k])
  }

  /** The state in which the next try begins: at the start, or once the last one's sleep is over. */
  ghost predicate Awake<S>(loop: Loop<S>, w: Outside<S>, start: int, before: S, turns: seq<Turn<S>>, now: int, s: S) {
    if turns == [] then now == start && s == before
    else
      var k := |turns| - 1;
      && Turns(loop, w, start, before, turns) && GoesOn(loop, w, k, turns[k])
      && now == Woken(loop, w, k, turns[k]) && s == Rested(loop, w, k, turns[k])
  }

  lemma OneMoreTurn<S>(loop: Loop<S>, w: Outside<S>, start: int, before: S, turns: seq<Turn<S>>,
                       now: int, s: S, t: Turn<S>)
    requires Awake(loop, w, start, before, turns, now, s)
    requires Begins(w, |turns|, now, s, t) && RunsScript(loop, |turns|, t)
    ensures Turns(loop, w, start, before, turns + [t])
    ensures var k := |turns|;
      if GoesOn(loop, w, k, t)
      then Awake(loop, w, start, before, turns + [t], Woken(loop, w, k, t), Rested(loop, w, k, t))
      else Polls(loop, w, start, before, turns + [t], Replied(w, k, t), Settled(w, k, t))
  {
  }

  /** Whatever the surroundings: the tries of a call, its end and the key then are determined. */
  lemma {:induction false} CallIsDetermined<S>(loop: Loop<S>, w: Outside<S>, now: int, s: S,
      a: seq<Turn<S>>, b: seq<Turn<S>>, later: int, s': S, later2: int, s2: S)
    requires Polls(loop, w, now, s, a, later, s') && Polls(loop, w, now, s, b, later2, s2)
    ensures a == b && later == later2 && s' == s2
  {
    var n := if |a| <= |b| then |a| else |b|;
    SameTurns(loop, w, now, s, a, b, n);
    assert GoesOn(loop, w, n - 1, a[n - 1]) <==> GoesOn(loop, w, n - 1, b[n - 1]);
  }

  lemma {:induction false} SameTurns<S>(loop: Loop<S>, w: Outside<S>, now: int, s: S,
                                        a: seq<Turn<S>>, b: seq<Turn<S>>, n: nat)
    requires Turns(loop, w, now, s, a) && Turns(loop, w, now, s, b) && n <= |a| && n <= |b|
    ensures forall k :: 0 <= k < n ==> a[k] == b[k]
    decreases n
  {
    if n != 0 {
      SameTurns(loop, w, now, s, a, b, n - 1);
      if 1 < n {
        assert Begins(w, n - 2 + 1, Woken(loop, w, n - 2, a[n - 2]), Rested(loop, w, n - 2, a[n - 2]), a[n - 2 + 1]);
        assert Begins(w, n - 2 + 1, Woken(loop, w, n - 2, b[n - 2]), Rested(loop, w, n - 2, b[n - 2]), b[n - 2 + 1]);
      }
      assert RunsScript(loop, n - 1, a[n - 1]) && RunsScript(loop, n - 1, b[n - 1]);
    }
  }
}
