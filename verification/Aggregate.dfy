/**
 * The single pass over a project's rows
 * (apps/api/src/modules/stats/stats.service.ts, `aggregate`).
 */
module Aggregate {
  import opened Options
  import opened LinkRows
  import opened RowStatus
  import opened Stats

  datatype Totals = Totals(total: nat, done: nat, problem: nat, error: nat, pending: nat)
  datatype FoundStats = FoundStats(total: nat, dofollow: nat, nofollow: nat)
  datatype HttpStats = HttpStats(ok: nat, redirect: nat, notFound: nat, serverError: nat, other: nat)
  datatype IndexStats = IndexStats(yes: nat, no: nat, unknown: nat)
  datatype CanonicalStats = CanonicalStats(matching: nat, mismatch: nat, notFound: nat, unknown: nat)

  datatype ProjectStats = ProjectStats(
    totals: Totals, found: FoundStats, http: HttpStats, indexable: IndexStats, canonical: CanonicalStats,
    timing: Option<Timing>, topProblemDonors: seq<Entry>)

  // ----- what is counted, in the words of the table -----

  predicate ShowsPending(l: Link) { ComputeRowStatus(l) == Pending || ComputeRowStatus(l) == Checking }
  predicate ShowsFailed(l: Link) { ComputeRowStatus(l) == Failed }
  predicate ShowsProblem(l: Link) { ComputeRowStatus(l) == Problem }
  predicate ShowsDone(l: Link) { ComputeRowStatus(l) == Green || ComputeRowStatus(l) == Yellow }

  predicate IsFound(l: Link) { l.linkFound == Some(true) }
  predicate IsFoundDofollow(l: Link) { IsFound(l) && HasDofollow(OccurrencesOf(l)) }
  predicate IsFoundNofollow(l: Link) {
    IsFound(l) && forall i :: 0 <= i < |OccurrencesOf(l)| ==> IsNofollow(OccurrencesOf(l)[i])
  }

  predicate HasCode(l: Link) { l.donorStatusCode.Some? }
  predicate CodeIn(l: Link, low: int, high: int) { HasCode(l) && low <= l.donorStatusCode.value < high }
  predicate HttpOk(l: Link) { CodeIn(l, 200, 300) }
  predicate HttpRedirect(l: Link) { CodeIn(l, 300, 400) }
  predicate HttpNotFound(l: Link) { CodeIn(l, 404, 405) }
  predicate HttpServerError(l: Link) { CodeIn(l, 500, 600) }
  predicate HttpOther(l: Link) {
    HasCode(l) && !HttpOk(l) && !HttpRedirect(l) && !HttpNotFound(l) && !HttpServerError(l)
  }

  predicate Indexable(l: Link) { l.donorIndexable == Some(true) }
  predicate NotIndexable(l: Link) { l.donorIndexable == Some(false) }
  predicate IndexUnknown(l: Link) { l.donorIndexable.None? }

  predicate CanonicalMatches(l: Link) { l.donorCanonical.Some? && l.canonicalMatches == Some(true) }
  predicate CanonicalDiffers(l: Link) { l.donorCanonical.Some? && l.canonicalMatches == Some(false) }
  predicate CanonicalAbsent(l: Link) { l.donorCanonical.None? && l.status == DONE }
  predicate CanonicalUnknown(l: Link) { !CanonicalMatches(l) && !CanonicalDiffers(l) && !CanonicalAbsent(l) }

  function TotalsOf(rows: seq<Link>): Totals {
    Totals(|rows|, Count(rows, ShowsDone), Count(rows, ShowsProblem), Count(rows, ShowsFailed),
           Count(rows, ShowsPending))
  }

  function FoundOf(rows: seq<Link>): FoundStats {
    FoundStats(Count(rows, IsFound), Count(rows, IsFoundDofollow), Count(rows, IsFoundNofollow))
  }

  function HttpOf(rows: seq<Link>): HttpStats {
    HttpStats(Count(rows, HttpOk), Count(rows, HttpRedirect), Count(rows, HttpNotFound),
              Count(rows, HttpServerError), Count(rows, HttpOther))
  }

  function IndexCounts(rows: seq<Link>): IndexStats {
    IndexStats(Count(rows, Indexable), Count(rows, NotIndexable), Count(rows, IndexUnknown))
  }

  function CanonicalOf(rows: seq<Link>): CanonicalStats {
    CanonicalStats(Count(rows, CanonicalMatches), Count(rows, CanonicalDiffers),
                   Count(rows, CanonicalAbsent), Count(rows, CanonicalUnknown))
  }

  /** The parseable hosts of the problem rows, in row order. */
  function ProblemHosts(rows: seq<Link>, hostOf: string -> Option<string>): seq<string> {
    if rows == [] then []
    else
      var last := rows[|rows| - 1];
      ProblemHosts(rows[..|rows| - 1], hostOf)
        + if IsProblem(last) && hostOf(last.donorUrl).Some? && hostOf(last.donorUrl).value != ""
          then [hostOf(last.donorUrl).value] else []
  }

  /** The durations of the rows that finished a check. */
  function Durations(rows: seq<Link>): seq<int> {
    if rows == [] then []
    else
      var d := rows[|rows| - 1].checkDurationMs;
      Durations(rows[..|rows| - 1]) + if d.Some? && 0 < d.value then [d.value] else []
  }

  function StatsOf(rows: seq<Link>, hostOf: string -> Option<string>): ProjectStats {
    ProjectStats(TotalsOf(rows), FoundOf(rows), HttpOf(rows), IndexCounts(rows), CanonicalOf(rows),
                 ComputeTiming(Durations(rows)), TopProblemDonors(ProblemHosts(rows, hostOf)))
  }

  // ----- what must add up -----

  /** Every row is in exactly one lifecycle class, and the two problem tests see the same rows. */
  lemma {:induction false} TotalsAddUp(rows: seq<Link>)
    ensures var t := TotalsOf(rows);
      && t.done + t.problem + t.error + t.pending == t.total == |rows|
      && t.problem + t.error == Count(rows, IsProblem)
  {
    if rows != [] {
      TotalsAddUp(rows[..|rows| - 1]);
      VerdictsAgree(rows[|rows| - 1]);
    }
  }

  /** A found row is dofollow or nofollow, not both. */
  lemma {:induction false} FollowsAddUp(rows: seq<Link>)
    ensures var f := FoundOf(rows); f.dofollow + f.nofollow == f.total
  {
    if rows != [] { FollowsAddUp(rows[..|rows| - 1]); }
  }

  lemma OneIndexClass(l: Link)
    ensures (if Indexable(l) then 1 else 0) + (if NotIndexable(l) then 1 else 0)
      + (if IndexUnknown(l) then 1 else 0) == 1
  {
    assert l.donorIndexable.Some? ==> l.donorIndexable.value || !l.donorIndexable.value;
  }

  /** The indexability and canonical classes cover every row once. */
  lemma {:induction false} FlagsAddUp(rows: seq<Link>)
    ensures var i, c := IndexCounts(rows), CanonicalOf(rows);
      && i.yes + i.no + i.unknown == |rows|
      && c.matching + c.mismatch + c.notFound + c.unknown == |rows|
  {
    if rows != [] {
      FlagsAddUp(rows[..|rows| - 1]);
      OneIndexClass(rows[|rows| - 1]);
    }
  }

  lemma {:induction false} CodesAddUp(rows: seq<Link>)
    ensures var h := HttpOf(rows);
      h.ok + h.redirect + h.notFound + h.serverError + h.other == Count(rows, HasCode)
  {
    if rows != [] { CodesAddUp(rows[..|rows| - 1]); }
  }

  /** The donor tally accounts for every problem row whose host can be read. */
  lemma TallyAccountsForProblems(rows: seq<Link>, hostOf: string -> Option<string>)
    ensures Sum(Tally(ProblemHosts(rows, hostOf))) == |ProblemHosts(rows, hostOf)| <= Count(rows, IsProblem)
    ensures (forall l :: l in rows ==> hostOf(l.donorUrl).Some? && hostOf(l.donorUrl).value != "") ==>
      |ProblemHosts(rows, hostOf)| == Count(rows, IsProblem)
  {
    TallyIsExact(ProblemHosts(rows, hostOf));
    HostsOfProblems(rows, hostOf);
  }

  lemma {:induction false} HostsOfProblems(rows: seq<Link>, hostOf: string -> Option<string>)
    ensures |ProblemHosts(rows, hostOf)| <= Count(rows, IsProblem)
    ensures (forall l :: l in rows ==> hostOf(l.donorUrl).Some? && hostOf(l.donorUrl).value != "") ==>
      |ProblemHosts(rows, hostOf)| == Count(rows, IsProblem)
  {
    if rows != [] { HostsOfProblems(rows[..|rows| - 1], hostOf); }
  }

  function One(b: bool): nat {
    if b then 1 else 0
  }

  predicate CodeFrom(l: Link, low: int, high: int) {
    l.donorStatusCode.Some? && low <= l.donorStatusCode.value <= high
  }

  /** Each row adds to the lifecycle counters what it is, once. */
  lemma OneMoreTotal(rows: seq<Link>, l: Link)
    ensures var t := TotalsOf(rows);
      TotalsOf(rows + [l]) == Totals(
        t.total + 1, t.done + One(IsSound(l)), t.problem + One(l.status == DONE && !IsSound(l)),
        t.error + One(l.status == ERROR), t.pending + One(l.status in {PENDING, QUEUED, CHECKING}))
  {
    assert (rows + [l])[..|rows|] == rows;
    LabelsInPlainTerms(l);
  }

  lemma OneMoreFound(rows: seq<Link>, l: Link)
    ensures var f, found, followed := FoundOf(rows), l.linkFound == Some(true), HasDofollow(OccurrencesOf(l));
      FoundOf(rows + [l]) == FoundStats(
        f.total + One(found), f.dofollow + One(found && followed), f.nofollow + One(found && !followed))
  {
    assert (rows + [l])[..|rows|] == rows;
  }

  lemma OneMoreCode(rows: seq<Link>, l: Link)
    ensures var h := HttpOf(rows);
      var known := CodeFrom(l, 200, 399) || CodeFrom(l, 404, 404) || CodeFrom(l, 500, 599);
      HttpOf(rows + [l]) == HttpStats(
        h.ok + One(CodeFrom(l, 200, 299)), h.redirect + One(CodeFrom(l, 300, 399)),
        h.notFound + One(CodeFrom(l, 404, 404)), h.serverError + One(CodeFrom(l, 500, 599)),
        h.other + One(l.donorStatusCode.Some? && !known))
  {
    assert (rows + [l])[..|rows|] == rows;
  }

  lemma OneMoreFlag(rows: seq<Link>, l: Link)
    ensures var x := IndexCounts(rows);
      IndexCounts(rows + [l]) == IndexStats(
        x.yes + One(l.donorIndexable == Some(true)), x.no + One(l.donorIndexable == Some(false)),
        x.unknown + One(l.donorIndexable.None?))
    ensures var c, canonical := CanonicalOf(rows), l.donorCanonical;
      CanonicalOf(rows + [l]) == CanonicalStats(
        c.matching + One(canonical.Some? && l.canonicalMatches == Some(true)),
        c.mismatch + One(canonical.Some? && l.canonicalMatches == Some(false)),
        c.notFound + One(canonical.None? && l.status == DONE),
        c.unknown + One(if canonical.Some? then l.canonicalMatches.None? else l.status != DONE))
  {
    assert (rows + [l])[..|rows|] == rows;
    OneIndexClass(l);
    assert l.canonicalMatches.Some? ==> l.canonicalMatches.value || !l.canonicalMatches.value;
  }

  /** Of no rows there is nothing to count; the statistics are those of their parts. */
  lemma StatsInPlainTerms(rows: seq<Link>, hostOf: string -> Option<string>)
    ensures StatsOf([], hostOf) == ProjectStats(
      Totals(0, 0, 0, 0, 0), FoundStats(0, 0, 0), HttpStats(0, 0, 0, 0, 0),
      IndexStats(0, 0, 0), CanonicalStats(0, 0, 0, 0), None, [])
    ensures var s := StatsOf(rows, hostOf);
      && s.totals == TotalsOf(rows) && s.found == FoundOf(rows) && s.http == HttpOf(rows)
      && s.indexable == IndexCounts(rows) && s.canonical == CanonicalOf(rows)
      && s.timing == (if Durations(rows) == [] then None else ComputeTiming(Durations(rows)))
      && s.topProblemDonors == TopProblemDonors(ProblemHosts(rows, hostOf))
  {
  }

  /**
   * The timing is over the positive durations of the rows, in row order, and the donor
   * list over the hosts of the failed rows and of the finished ones that are not sound.
   */
  lemma OneMoreSample(rows: seq<Link>, l: Link, hostOf: string -> Option<string>)
    ensures Durations([]) == [] && ProblemHosts([], hostOf) == []
    ensures var d := l.checkDurationMs;
      Durations(rows + [l]) == Durations(rows) + if d.Some? && 0 < d.value then [d.value] else []
    ensures var host, counts := hostOf(l.donorUrl), l.status == ERROR || (l.status == DONE && !IsSound(l));
      ProblemHosts(rows + [l], hostOf)
        == ProblemHosts(rows, hostOf) + if counts && host.Some? && host.value != "" then [host.value] else []
  {
    assert (rows + [l])[..|rows|] == rows;
    VerdictsAgree(l);
    LabelsInPlainTerms(l);
  }

  // ----- the pass -----

  method AddTotals(t: Totals, l: Link, ghost rows: seq<Link>) returns (t': Totals)
    requires t.(total := |rows|) == TotalsOf(rows)
    ensures t'.(total := |rows| + 1) == TotalsOf(rows + [l]) && t'.total == t.total
  {
    assert (rows + [l])[..|rows|] == rows;
    t' := t;
    if l.status == PENDING || l.status == QUEUED || l.status == CHECKING {
      t' := t'.(pending := t'.pending + 1);
    } else if l.status == ERROR {
      t' := t'.(error := t'.error + 1);
    } else {
      var isOk := l.donorStatusCode.Some? && 200 <= l.donorStatusCode.value < 300;
      if !isOk || l.linkFound != Some(true) || l.donorIndexable != Some(true) {
        t' := t'.(problem := t'.problem + 1);
      } else {
        t' := t'.(done := t'.done + 1);
      }
    }
  }

  method AddFound(f: FoundStats, l: Link, ghost rows: seq<Link>) returns (f': FoundStats)
    requires f == FoundOf(rows)
    ensures f' == FoundOf(rows + [l])
  {
    assert (rows + [l])[..|rows|] == rows;
    f' := f;
    if l.linkFound == Some(true) {
      f' := f'.(total := f'.total + 1);
      if HasDofollow(OccurrencesOf(l)) {
        f' := f'.(dofollow := f'.dofollow + 1);
      } else {
        f' := f'.(nofollow := f'.nofollow + 1);
      }
    }
  }

  method AddHttp(h: HttpStats, l: Link, ghost rows: seq<Link>) returns (h': HttpStats)
    requires h == HttpOf(rows)
    ensures h' == HttpOf(rows + [l])
  {
    assert (rows + [l])[..|rows|] == rows;
    h' := h;
    if l.donorStatusCode.Some? {
      var code := l.donorStatusCode.value;
      if 200 <= code < 300 { h' := h'.(ok := h'.ok + 1); }
      else if 300 <= code < 400 { h' := h'.(redirect := h'.redirect + 1); }
      else if code == 404 { h' := h'.(notFound := h'.notFound + 1); }
      else if 500 <= code < 600 { h' := h'.(serverError := h'.serverError + 1); }
      else { h' := h'.(other := h'.other + 1); }
    }
  }

  method AddIndexable(x: IndexStats, l: Link, ghost rows: seq<Link>) returns (x': IndexStats)
    requires x == IndexCounts(rows)
    ensures x' == IndexCounts(rows + [l])
  {
    assert (rows + [l])[..|rows|] == rows;
    if l.donorIndexable == Some(true) { x' := x.(yes := x.yes + 1); }
    else if l.donorIndexable == Some(false) { x' := x.(no := x.no + 1); }
    else {
      OneIndexClass(l);
      x' := x.(unknown := x.unknown + 1);
    }
  }

  method AddCanonical(c: CanonicalStats, l: Link, ghost rows: seq<Link>) returns (c': CanonicalStats)
    requires c == CanonicalOf(rows)
    ensures c' == CanonicalOf(rows + [l])
  {
    assert (rows + [l])[..|rows|] == rows;
    if l.donorCanonical.None? {
      if l.status == DONE { c' := c.(notFound := c.notFound + 1); }
      else { c' := c.(unknown := c.unknown + 1); }
    } else if l.canonicalMatches == Some(true) {
      c' := c.(matching := c.matching + 1);
    } else if l.canonicalMatches == Some(false) {
      c' := c.(mismatch := c.mismatch + 1);
    } else {
      c' := c.(unknown := c.unknown + 1);
    }
  }

  method AddProblemHost(tally: seq<Entry>, l: Link, hostOf: string -> Option<string>, ghost rows: seq<Link>)
    returns (tally': seq<Entry>)
    requires tally == Tally(ProblemHosts(rows, hostOf))
    ensures tally' == Tally(ProblemHosts(rows + [l], hostOf))
  {
    assert (rows + [l])[..|rows|] == rows;
    tally' := tally;
    var host := hostOf(l.donorUrl);
    if IsProblem(l) && host.Some? && host.value != "" {
      ghost var hosts := ProblemHosts(rows, hostOf);
      assert (hosts + [host.value])[..|hosts|] == hosts;
      tally' := Bump(tally, host.value);
    } else {
      assert ProblemHosts(rows, hostOf) + [] == ProblemHosts(rows, hostOf);
    }
  }

  method AddDuration(durations: seq<int>, l: Link, ghost rows: seq<Link>) returns (durations': seq<int>)
    requires durations == Durations(rows)
    ensures durations' == Durations(rows + [l])
  {
    assert (rows + [l])[..|rows|] == rows;
    durations' := durations;
    if l.checkDurationMs.Some? && 0 < l.checkDurationMs.value {
      durations' := durations' + [l.checkDurationMs.value];
    }
  }

  /** One pass; every counter ends as the count of what it names. */
  method Aggregate(links: seq<Link>, hostOf: string -> Option<string>) returns (stats: ProjectStats)
    ensures stats == StatsOf(links, hostOf)
  {
    var totals := Totals(|links|, 0, 0, 0, 0);
    var found := FoundStats(0, 0, 0);
    var http := HttpStats(0, 0, 0, 0, 0);
    var indexable := IndexStats(0, 0, 0);
    var canonical := CanonicalStats(0, 0, 0, 0);
    var durations := [];
    var problemDonorCount := [];
    var i := 0;
    while i < |links|
      invariant 0 <= i <= |links|
      invariant totals.total == |links| && totals.(total := i) == TotalsOf(links[..i])
      invariant found == FoundOf(links[..i]) && http == HttpOf(links[..i])
      invariant indexable == IndexCounts(links[..i]) && canonical == CanonicalOf(links[..i])
      invariant durations == Durations(links[..i])
      invariant problemDonorCount == Tally(ProblemHosts(links[..i], hostOf))
    {
      ghost var rows := links[..i];
      assert rows + [links[i]] == links[..i + 1];
      totals := AddTotals(totals, links[i], rows);
      found := AddFound(found, links[i], rows);
      http := AddHttp(http, links[i], rows);
      indexable := AddIndexable(indexable, links[i], rows);
      canonical := AddCanonical(canonical, links[i], rows);
      durations := AddDuration(durations, links[i], rows);
      problemDonorCount := AddProblemHost(problemDonorCount, links[i], hostOf, rows);
      i := i + 1;
    }
    assert links[..i] == links;
    var sorted := SortDescending(problemDonorCount);
    var top := if |sorted| <= TOP_PROBLEM_LIMIT then sorted else sorted[..TOP_PROBLEM_LIMIT];
    return ProjectStats(totals, found, http, indexable, canonical, ComputeTiming(durations), top);
  }
}
