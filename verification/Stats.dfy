/**
 * Project statistics (apps/api/src/modules/stats/stats.service.ts): one pass over
 * mutable counters, the ten worst donor hosts, and the timing percentiles.
 */
module Stats {
  import opened Options

  const TOP_PROBLEM_LIMIT: nat := 10

  // ----- counting -----

  /** How many rows of the list satisfy `p`. */
  function Count<T>(rows: seq<T>, p: T -> bool): nat {
    if rows == [] then 0 else Count(rows[..|rows| - 1], p) + if p(rows[|rows| - 1]) then 1 else 0
  }

  lemma {:induction false} CountOfSame<T>(rows: seq<T>, p: T -> bool, q: T -> bool)
    requires forall i :: 0 <= i < |rows| ==> p(rows[i]) == q(rows[i])
    ensures Count(rows, p) == Count(rows, q)
  {
    if rows != [] { CountOfSame(rows[..|rows| - 1], p, q); }
  }

  lemma {:induction false} CountOfEither<T>(rows: seq<T>, p: T -> bool, q: T -> bool, either: T -> bool)
    requires forall i :: 0 <= i < |rows| ==> either(rows[i]) == (p(rows[i]) || q(rows[i]))
    requires forall i :: 0 <= i < |rows| ==> !(p(rows[i]) && q(rows[i]))
    ensures Count(rows, either) == Count(rows, p) + Count(rows, q)
  {
    if rows != [] { CountOfEither(rows[..|rows| - 1], p, q, either); }
  }

  lemma {:induction false} CountOfAll<T>(rows: seq<T>, p: T -> bool)
    requires forall i :: 0 <= i < |rows| ==> p(rows[i])
    ensures Count(rows, p) == |rows|
  {
    if rows != [] { CountOfAll(rows[..|rows| - 1], p); }
  }

  /** Where the rows are that satisfy `p`. */
  function Places<T>(rows: seq<T>, p: T -> bool): set<int> {
    set i | 0 <= i < |rows| && p(rows[i])
  }

  /** Counting counts the places. */
  lemma {:induction false} CountIsSize<T>(rows: seq<T>, p: T -> bool)
    ensures Count(rows, p) == |Places(rows, p)|
  {
    if rows == [] {
      assert Places(rows, p) == {};
    } else {
      var n, before := |rows| - 1, Places(rows[..|rows| - 1], p);
      CountIsSize(rows[..n], p);
      assert Places(rows, p) == if p(rows[n]) then before + {n} else before;
    }
  }

  // ----- the tally of problem hosts: a Map keeps its keys in first-seen order -----

  type Entry = (string, nat)

  function IndexOf(entries: seq<Entry>, host: string): (k: nat)
    ensures k <= |entries|
    ensures k < |entries| ==> entries[k].0 == host
    ensures forall i :: 0 <= i < k ==> entries[i].0 != host
  {
    if entries == [] then 0 else if entries[0].0 == host then 0 else 1 + IndexOf(entries[1..], host)
  }

  /** map.set(host, (map.get(host) ?? 0) + 1) */
  function Bump(entries: seq<Entry>, host: string): seq<Entry> {
    var k := IndexOf(entries, host);
    if k < |entries| then entries[k := (host, entries[k].1 + 1)] else entries + [(host, 1)]
  }

  function Tally(hosts: seq<string>): seq<Entry> {
    if hosts == [] then [] else Bump(Tally(hosts[..|hosts| - 1]), hosts[|hosts| - 1])
  }

  function Times(hosts: seq<string>, host: string): nat {
    if hosts == [] then 0
    else Times(hosts[..|hosts| - 1], host) + if hosts[|hosts| - 1] == host then 1 else 0
  }

  /** Where a host is seen first. */
  function FirstSeen(hosts: seq<string>, host: string): (k: nat)
    ensures k <= |hosts|
    ensures host in hosts ==> k < |hosts| && hosts[k] == host
    ensures forall i :: 0 <= i < k ==> hosts[i] != host
  {
    if hosts == [] then 0 else if hosts[0] == host then 0 else 1 + FirstSeen(hosts[1..], host)
  }

  function Sum(entries: seq<Entry>): nat {
    if entries == [] then 0 else Sum(entries[..|entries| - 1]) + entries[|entries| - 1].1
  }

  lemma {:induction false} SumOfUpdate(entries: seq<Entry>, k: nat, host: string)
    requires k < |entries|
    ensures Sum(entries[k := (host, entries[k].1 + 1)]) == Sum(entries) + 1
  {
    var n := |entries| - 1;
    var updated := entries[k := (host, entries[k].1 + 1)];
    if k == n {
      assert updated[..n] == entries[..n];
    } else {
      SumOfUpdate(entries[..n], k, host);
      assert updated[..n] == entries[..n][k := (host, entries[k].1 + 1)];
    }
  }

  predicate CountsExact(entries: seq<Entry>, hosts: seq<string>) {
    forall i :: 0 <= i < |entries| ==> entries[i].0 in hosts && entries[i].1 == Times(hosts, entries[i].0)
  }

  predicate Listed(entries: seq<Entry>, host: string) {
    exists i :: 0 <= i < |entries| && entries[i].0 == host
  }

  predicate InFirstSeenOrder(entries: seq<Entry>, hosts: seq<string>) {
    forall i, j :: 0 <= i < j < |entries| ==> FirstSeen(hosts, entries[i].0) < FirstSeen(hosts, entries[j].0)
  }

  /** The entries are exactly the hosts seen, each with its count, in first-seen order. */
  ghost predicate Exact(entries: seq<Entry>, hosts: seq<string>) {
    && CountsExact(entries, hosts)
    && (forall h :: h in hosts ==> Listed(entries, h))
    && InFirstSeenOrder(entries, hosts)
  }

  lemma FirstSeenStays(hosts: seq<string>, last: string, host: string)
    ensures host in hosts ==> FirstSeen(hosts + [last], host) == FirstSeen(hosts, host) < |hosts|
    ensures host !in hosts && host == last ==> FirstSeen(hosts + [last], host) == |hosts|
  {
    var k := FirstSeen(hosts + [last], host);
    if host in hosts {
      var m := FirstSeen(hosts, host);
      assert (hosts + [last])[m] == host;
      assert host in hosts + [last];
    } else if host == last {
      assert (hosts + [last])[|hosts|] == host;
    }
  }

  /** A host is seen as often as the list holds it. */
  lemma {:induction false} TimesInPlainTerms(hosts: seq<string>, host: string)
    ensures Times(hosts, host) == multiset(hosts)[host]
  {
    if hosts != [] {
      TimesInPlainTerms(hosts[..|hosts| - 1], host);
      assert hosts == hosts[..|hosts| - 1] + [hosts[|hosts| - 1]];
    }
  }

  lemma {:induction false} NeverSeen(hosts: seq<string>, host: string)
    requires host !in hosts
    ensures Times(hosts, host) == 0
  {
    if hosts != [] { NeverSeen(hosts[..|hosts| - 1], host); }
  }

  /** A host has one entry, the one indexOf finds. */
  lemma ListedOnce(entries: seq<Entry>, hosts: seq<string>, i: nat)
    requires Exact(entries, hosts) && i < |entries|
    ensures IndexOf(entries, entries[i].0) == i
  {
    var k := IndexOf(entries, entries[i].0);
    assert k <= i && FirstSeen(hosts, entries[k].0) == FirstSeen(hosts, entries[i].0);
  }

  lemma BumpCounts(before: seq<Entry>, init: seq<string>, last: string)
    requires Exact(before, init)
    ensures CountsExact(Bump(before, last), init + [last])
  {
    var hosts, after, k := init + [last], Bump(before, last), IndexOf(before, last);
    assert hosts[..|hosts| - 1] == init;
    if k == |before| {
      assert !Listed(before, last);
      NeverSeen(init, last);
    }
    forall i | 0 <= i < |after| ensures after[i].0 in hosts && after[i].1 == Times(hosts, after[i].0) {
      if i < |before| {
        assert before[i].0 in init && before[i].1 == Times(init, before[i].0);
        if before[i].0 == last { ListedOnce(before, init, i); }
      }
    }
  }

  lemma BumpLists(before: seq<Entry>, init: seq<string>, last: string)
    requires forall h :: h in init ==> Listed(before, h)
    ensures forall h :: h in init + [last] ==> Listed(Bump(before, last), h)
  {
    var after, k := Bump(before, last), IndexOf(before, last);
    assert after[k].0 == last;
    forall h | h in init + [last] ensures Listed(after, h) {
      if h != last {
        assert Listed(before, h);
        var i :| 0 <= i < |before| && before[i].0 == h;
        assert after[i].0 == h;
      }
    }
  }

  lemma BumpKeepsOrder(before: seq<Entry>, init: seq<string>, last: string)
    requires Exact(before, init)
    ensures InFirstSeenOrder(Bump(before, last), init + [last])
  {
    var hosts, after := init + [last], Bump(before, last);
    forall i | 0 <= i < |before|
      ensures after[i].0 == before[i].0 && FirstSeen(hosts, after[i].0) == FirstSeen(init, before[i].0) < |init|
    {
      assert before[i].0 in init;
      FirstSeenStays(init, last, before[i].0);
    }
    if IndexOf(before, last) == |before| {
      assert !Listed(before, last);
      FirstSeenStays(init, last, last);
    }
  }

  lemma BumpSums(before: seq<Entry>, last: string)
    ensures Sum(Bump(before, last)) == Sum(before) + 1
  {
    var k := IndexOf(before, last);
    if k < |before| {
      SumOfUpdate(before, k, last);
    } else {
      assert Bump(before, last)[..|before|] == before;
    }
  }

  lemma BumpStaysExact(before: seq<Entry>, init: seq<string>, last: string)
    requires Exact(before, init)
    ensures Exact(Bump(before, last), init + [last])
  {
    BumpCounts(before, init, last);
    BumpLists(before, init, last);
    BumpKeepsOrder(before, init, last);
  }

  lemma {:induction false} TallyIsExact(hosts: seq<string>)
    ensures Exact(Tally(hosts), hosts)
    ensures Sum(Tally(hosts)) == |hosts|
  {
    if hosts != [] {
      var init, last := hosts[..|hosts| - 1], hosts[|hosts| - 1];
      assert hosts == init + [last];
      TallyIsExact(init);
      BumpStaysExact(Tally(init), init, last);
      BumpSums(Tally(init), last);
    }
  }

  // ----- the worst ten -----

  /** Where a stable descending sort puts `e`: after every entry counted at least as often. */
  function Place(sorted: seq<Entry>, e: Entry): (k: nat)
    ensures k <= |sorted|
    ensures 0 < k ==> e.1 <= sorted[k - 1].1
    ensures forall i :: k <= i < |sorted| ==> sorted[i].1 < e.1
  {
    if sorted == [] || e.1 <= sorted[|sorted| - 1].1 then |sorted| else Place(sorted[..|sorted| - 1], e)
  }

  function InsertAt<T>(s: seq<T>, k: nat, x: T): seq<T>
    requires k <= |s|
  {
    s[..k] + [x] + s[k..]
  }

  function SortDescending(entries: seq<Entry>): seq<Entry> {
    if entries == [] then []
    else
      var sorted, e := SortDescending(entries[..|entries| - 1]), entries[|entries| - 1];
      InsertAt(sorted, Place(sorted, e), e)
  }

  /** Ranked: more often first, and among equals the one seen first. */
  predicate Ranked(hosts: seq<string>, a: Entry, b: Entry) {
    b.1 < a.1 || (a.1 == b.1 && FirstSeen(hosts, a.0) < FirstSeen(hosts, b.0))
  }

  ghost predicate AllRanked(hosts: seq<string>, entries: seq<Entry>) {
    forall i, j :: 0 <= i < j < |entries| ==> Ranked(hosts, entries[i], entries[j])
  }

  lemma InsertRanks(hosts: seq<string>, sorted: seq<Entry>, e: Entry)
    requires AllRanked(hosts, sorted)
    requires forall i :: 0 <= i < |sorted| ==> FirstSeen(hosts, sorted[i].0) < FirstSeen(hosts, e.0)
    ensures AllRanked(hosts, InsertAt(sorted, Place(sorted, e), e))
  {
    var k := Place(sorted, e);
    forall i | 0 <= i < k ensures Ranked(hosts, sorted[i], e) {
      if i < k - 1 { assert Ranked(hosts, sorted[i], sorted[k - 1]); }
    }
    var after := InsertAt(sorted, k, e);
    forall i, j | 0 <= i < j < |after| ensures Ranked(hosts, after[i], after[j]) {
      var from, to := if i < k then i else i - 1, if j < k then j else j - 1;
      if i != k && j != k { assert Ranked(hosts, sorted[from], sorted[to]); }
    }
  }

  /** Sorting keeps the members and ranks them. */
  lemma {:induction false} SortRanks(hosts: seq<string>, entries: seq<Entry>)
    requires InFirstSeenOrder(entries, hosts)
    ensures AllRanked(hosts, SortDescending(entries))
    ensures forall e :: e in SortDescending(entries) <==> e in entries
  {
    if entries != [] {
      var init, last := entries[..|entries| - 1], entries[|entries| - 1];
      var sorted := SortDescending(init);
      SortRanks(hosts, init);
      forall i | 0 <= i < |sorted| ensures FirstSeen(hosts, sorted[i].0) < FirstSeen(hosts, last.0) {
        assert sorted[i] in init;
      }
      InsertRanks(hosts, sorted, last);
      InsertKeepsMembers(sorted, Place(sorted, last), last);
      assert entries == init + [last];
    }
  }

  function TopProblemDonors(hosts: seq<string>): seq<Entry> {
    var sorted := SortDescending(Tally(hosts));
    if |sorted| <= TOP_PROBLEM_LIMIT then sorted else sorted[..TOP_PROBLEM_LIMIT]
  }

  lemma SortedTallyIsExact(hosts: seq<string>)
    ensures var sorted := SortDescending(Tally(hosts));
      && AllRanked(hosts, sorted) && CountsExact(sorted, hosts)
      && forall h :: h in hosts ==> Listed(sorted, h)
  {
    var tally := Tally(hosts);
    TallyIsExact(hosts);
    SortRanks(hosts, tally);
    var sorted := SortDescending(tally);
    forall i | 0 <= i < |sorted| ensures sorted[i].0 in hosts && sorted[i].1 == Times(hosts, sorted[i].0) {
      assert sorted[i] in tally;
    }
    forall h | h in hosts ensures Listed(sorted, h) {
      assert Listed(tally, h);
      var k :| 0 <= k < |tally| && tally[k].0 == h;
      assert tally[k] in sorted;
    }
  }

  lemma OmittedIsRankedAfter(hosts: seq<string>, sorted: seq<Entry>, n: nat, h: string)
    requires AllRanked(hosts, sorted) && CountsExact(sorted, hosts) && Listed(sorted, h)
    requires n <= |sorted| && !Listed(sorted[..n], h)
    ensures n < |sorted|
    ensures forall i :: 0 <= i < n ==> Ranked(hosts, sorted[i], (h, Times(hosts, h)))
  {
    var m :| 0 <= m < |sorted| && sorted[m].0 == h;
    assert m < n ==> Listed(sorted[..n], h);
    assert sorted[m] == (h, Times(hosts, h));
  }

  /**
   * The list: at most ten hosts with their exact counts, ranked by count and then by
   * first appearance; a host left out is ranked after every host on a full list.
   */
  lemma TopDonorsAreWorst(hosts: seq<string>)
    ensures var top := TopProblemDonors(hosts);
      && |top| <= 10 && AllRanked(hosts, top) && CountsExact(top, hosts)
      && forall h :: h in hosts && !Listed(top, h) ==> |top| == 10
    ensures var top := TopProblemDonors(hosts);
      forall h, i :: h in hosts && !Listed(top, h) && 0 <= i < |top| ==> Ranked(hosts, top[i], (h, Times(hosts, h)))
  {
    SortedTallyIsExact(hosts);
    var sorted, top := SortDescending(Tally(hosts)), TopProblemDonors(hosts);
    assert top == sorted[..|top|];
    forall h | h in hosts && !Listed(top, h)
      ensures |top| == 10
      ensures forall i :: 0 <= i < |top| ==> Ranked(hosts, top[i], (h, Times(hosts, h)))
    {
      OmittedIsRankedAfter(hosts, sorted, |top|, h);
    }
  }

  // ----- timing -----

  function PlaceInt(sorted: seq<int>, x: int): (k: nat)
    ensures k <= |sorted|
    ensures 0 < k ==> sorted[k - 1] <= x
    ensures forall i :: k <= i < |sorted| ==> x < sorted[i]
  {
    if sorted == [] || sorted[|sorted| - 1] <= x then |sorted| else PlaceInt(sorted[..|sorted| - 1], x)
  }

  function Sort(xs: seq<int>): seq<int> {
    if xs == [] then []
    else
      var sorted, x := Sort(xs[..|xs| - 1]), xs[|xs| - 1];
      InsertAt(sorted, PlaceInt(sorted, x), x)
  }

  predicate Ascending(xs: seq<int>) {
    forall i, j :: 0 <= i <= j < |xs| ==> xs[i] <= xs[j]
  }

  lemma InsertKeepsAscending(sorted: seq<int>, x: int)
    requires Ascending(sorted)
    ensures Ascending(InsertAt(sorted, PlaceInt(sorted, x), x))
  {
    var k := PlaceInt(sorted, x);
    var after := InsertAt(sorted, k, x);
    forall i, j | 0 <= i <= j < |after| ensures after[i] <= after[j] {
      if i < k {
        assert sorted[i] <= sorted[k - 1];
      }
    }
  }

  lemma InsertKeepsMembers<T>(s: seq<T>, k: nat, x: T)
    requires k <= |s|
    ensures forall y :: y in InsertAt(s, k, x) <==> y in s || y == x
  {
    assert s == s[..k] + s[k..];
  }

  lemma {:induction false} SortSorts(xs: seq<int>)
    ensures Ascending(Sort(xs)) && |Sort(xs)| == |xs|
    ensures forall x :: x in Sort(xs) <==> x in xs
  {
    if xs != [] {
      var init, last := xs[..|xs| - 1], xs[|xs| - 1];
      assert xs == init + [last];
      SortSorts(init);
      InsertKeepsAscending(Sort(init), last);
      InsertKeepsMembers(Sort(init), PlaceInt(Sort(init), last), last);
    }
  }

  /** Sorting is a rearrangement: every property is held by as many elements as before. */
  lemma {:induction false} SortKeepsCounts(xs: seq<int>, p: int -> bool)
    ensures Count(Sort(xs), p) == Count(xs, p)
  {
    if xs != [] {
      var init, last := xs[..|xs| - 1], xs[|xs| - 1];
      SortKeepsCounts(init, p);
      CountOfInsert(Sort(init), PlaceInt(Sort(init), last), last, p);
    }
  }

  lemma {:induction false} CountOfInsert(xs: seq<int>, k: nat, x: int, p: int -> bool)
    requires k <= |xs|
    ensures Count(InsertAt(xs, k, x), p) == Count(xs, p) + if p(x) then 1 else 0
    decreases |xs|
  {
    var after := InsertAt(xs, k, x);
    if k == |xs| {
      assert after[..|after| - 1] == xs;
    } else {
      var n := |xs| - 1;
      CountOfInsert(xs[..n], k, x, p);
      assert after[..|after| - 1] == InsertAt(xs[..n], k, x);
    }
  }

  /** The nearest-rank index for a percentage, clamped to the list. */
  function Rank(percent: nat, n: nat): int {
    var idx := (percent * n + 99) / 100 - 1;
    var clamped := if n - 1 <= idx then n - 1 else idx;
    if clamped <= 0 then 0 else clamped
  }

  function Percentile(sorted: seq<int>, percent: nat): int {
    if sorted == [] then 0
    else
      var k := Rank(percent, |sorted|);
      sorted[k]
  }

  /** Math.round: halves go up. */
  function RoundedMean(sum: int, n: nat): int
    requires 0 < n
  {
    (2 * sum + n) / (2 * n)
  }

  function SumInts(xs: seq<int>): int {
    if xs == [] then 0 else SumInts(xs[..|xs| - 1]) + xs[|xs| - 1]
  }

  datatype Timing = Timing(avgMs: int, p50Ms: int, p95Ms: int)

  function ComputeTiming(durations: seq<int>): Option<Timing> {
    if durations == [] then None
    else
      var sorted := Sort(durations);
      Some(Timing(RoundedMean(SumInts(sorted), |durations|), Percentile(sorted, 50), Percentile(sorted, 95)))
  }

  /** In a sorted list the elements up to index k are at most xs[k], and those below xs[k] come before k. */
  lemma {:induction false} CountsAround(xs: seq<int>, k: nat)
    requires Ascending(xs) && k < |xs|
    ensures k + 1 <= Count(xs, x => x <= xs[k])
    ensures Count(xs, x => x < xs[k]) <= k
  {
    CountPrefix(xs, k, |xs|);
    assert xs[..|xs|] == xs;
  }

  lemma {:induction false} CountPrefix(xs: seq<int>, k: nat, n: nat)
    requires Ascending(xs) && k < |xs| && n <= |xs|
    ensures (if n <= k + 1 then n else k + 1) <= Count(xs[..n], x => x <= xs[k])
    ensures Count(xs[..n], x => x < xs[k]) <= (if n <= k then n else k)
    decreases n
  {
    if n != 0 {
      CountPrefix(xs, k, n - 1);
      assert xs[..n][..n - 1] == xs[..n - 1];
    }
  }

  /**
   * A percentile of a nonempty list is one of its samples; at least that share of the
   * samples are no larger, and less than that share are smaller.
   */
  lemma PercentileSplits(xs: seq<int>, percent: nat)
    requires xs != [] && 1 <= percent <= 100
    ensures Splits(xs, percent, Percentile(Sort(xs), percent))
  {
    var sorted := Sort(xs);
    SortSorts(xs);
    var k := Rank(percent, |xs|);
    RankBounds(percent, |xs|);
    CountsAround(sorted, k);
    var v := sorted[k];
    assert v in sorted;
    SortKeepsCounts(xs, x => x <= v);
    SortKeepsCounts(xs, x => x < v);
    CountOfSame(sorted, x => x <= v, x => x <= sorted[k]);
    CountOfSame(sorted, x => x < v, x => x < sorted[k]);
  }

  lemma RankBounds(percent: nat, n: nat)
    requires 1 <= percent <= 100 && 0 < n
    ensures 0 <= Rank(percent, n) < n
    ensures 100 * Rank(percent, n) < percent * n <= 100 * (Rank(percent, n) + 1)
  {
    assert percent * n <= 100 * n by { MulMonotone(percent, 100, n); }
    assert n <= percent * n by { MulMonotone(1, percent, n); }
  }

  lemma MulMonotone(a: nat, b: nat, n: nat)
    requires a <= b
    ensures a * n <= b * n
  {
    assert 0 <= (b - a) * n;
  }

  lemma {:induction false} SumBounds(xs: seq<int>, low: int, high: int)
    requires forall i :: 0 <= i < |xs| ==> low <= xs[i] <= high
    ensures low * |xs| <= SumInts(xs) <= high * |xs|
  {
    if xs != [] {
      var n := |xs| - 1;
      SumBounds(xs[..n], low, high);
      assert low * |xs| == low * n + low && high * |xs| == high * n + high;
    }
  }

  lemma DivMeans(m: int, d: nat)
    requires 0 < d
    ensures (m / d) * d <= m < (m / d) * d + d
  {
  }

  lemma TimesTwice(a: int, n: nat)
    ensures a * (2 * n) == 2 * (a * n) && (a + 1) * (2 * n) == 2 * (a * n) + 2 * n
  {
  }

  lemma MeanBetween(sum: int, n: nat, low: int, high: int)
    requires 0 < n && low * n <= sum <= high * n
    ensures low <= RoundedMean(sum, n) <= high
  {
    var d, m := 2 * n, 2 * sum + n;
    var q := m / d;
    DivMeans(m, d);
    if q < low {
      MulInts(q + 1, low, d);
      TimesTwice(low, n);
      TimesTwice(q, n);
    } else if high < q {
      MulInts(high + 1, q, d);
      TimesTwice(high, n);
    }
  }

  lemma MulInts(a: int, b: int, n: nat)
    requires a <= b
    ensures a * n <= b * n
  {
    assert 0 <= (b - a) * n;
  }

  lemma {:induction false} SumOfInsert(xs: seq<int>, k: nat, x: int)
    requires k <= |xs|
    ensures SumInts(InsertAt(xs, k, x)) == SumInts(xs) + x
    decreases |xs|
  {
    var after := InsertAt(xs, k, x);
    if k == |xs| {
      assert after[..|after| - 1] == xs;
    } else {
      var n := |xs| - 1;
      assert after[..|after| - 1] == InsertAt(xs[..n], k, x);
      SumOfInsert(xs[..n], k, x);
    }
  }

  lemma {:induction false} SortKeepsSum(xs: seq<int>)
    ensures SumInts(Sort(xs)) == SumInts(xs)
  {
    if xs != [] {
      var init, last := xs[..|xs| - 1], xs[|xs| - 1];
      SortKeepsSum(init);
      SumOfInsert(Sort(init), PlaceInt(Sort(init), last), last);
    }
  }

  /** The rounded mean is the whole number nearest the mean, halves going up. */
  lemma MeanIsNearest(sum: int, n: nat)
    requires 0 < n
    ensures var avg := RoundedMean(sum, n); 2 * (avg * n) - n <= 2 * sum < 2 * (avg * n) + n
  {
    DivMeans(2 * sum + n, 2 * n);
    TimesTwice(RoundedMean(sum, n), n);
  }

  /** `v` is a sample that splits the samples at `percent`. */
  predicate Splits(xs: seq<int>, percent: nat, v: int) {
    && v in xs
    && percent * |xs| <= 100 * Count(xs, x => x <= v)
    && 100 * Count(xs, x => x < v) < percent * |xs|
  }

  /**
   * For every nonempty list: p50 and p95 split the samples at their percentages and
   * p50 <= p95; the average is the whole number nearest the mean, within the bounds.
   */
  lemma TimingIsSound(xs: seq<int>, low: int, high: int)
    requires xs != [] && forall i :: 0 <= i < |xs| ==> low <= xs[i] <= high
    ensures ComputeTiming(xs).Some?
    ensures var t := ComputeTiming(xs).value;
      && t.p50Ms <= t.p95Ms && Splits(xs, 50, t.p50Ms) && Splits(xs, 95, t.p95Ms)
      && low <= t.avgMs <= high
      && 2 * (t.avgMs * |xs|) - |xs| <= 2 * SumInts(xs) < 2 * (t.avgMs * |xs|) + |xs|
  {
    var sorted := Sort(xs);
    SortSorts(xs);
    forall i | 0 <= i < |sorted| ensures low <= sorted[i] <= high {
      assert sorted[i] in xs;
    }
    SumBounds(sorted, low, high);
    SortKeepsSum(xs);
    MeanBetween(SumInts(sorted), |xs|, low, high);
    MeanIsNearest(SumInts(sorted), |xs|);
    PercentileSplits(xs, 50);
    PercentileSplits(xs, 95);
    RankBounds(50, |xs|);
    RankBounds(95, |xs|);
  }
}
