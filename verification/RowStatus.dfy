/**
 * The three places that judge a row: the table (apps/web/src/lib/status.ts), the
 * statistics (apps/api/src/modules/stats/stats.service.ts) and the spreadsheet
 * (apps/worker/src/modules/sheets/sheets-task.service.ts). Each is written down as
 * its file has it; the lemmas say that they agree.
 */
module RowStatus {
  import opened Options
  import opened CrawlResults
  import opened LinkRows

  // ----- the table -----

  datatype Quality = Pending | Checking | Green | Yellow | Problem | Failed

  function ComputeRowStatus(l: Link): Quality {
    if l.status == PENDING || l.status == QUEUED then Pending
    else if l.status == CHECKING then Checking
    else if l.status == ERROR then Failed
    else
      var isOk := l.donorStatusCode.Some? && 200 <= l.donorStatusCode.value < 300;
      var isIndexable := l.donorIndexable == Some(true);
      var isFound := l.linkFound == Some(true);
      if !isOk || !isFound || !isIndexable then Problem
      else if l.canonicalMatches == Some(true) then Green
      else Yellow
  }

  function RowStatusLabel(q: Quality): string {
    match q
    case Pending => "Pending"
    case Checking => "Checking"
    case Green => "Done"
    case Yellow => "Done"
    case Problem => "Problem"
    case Failed => "Error"
  }

  const NOFOLLOW_RELS: set<string> := {"nofollow", "sponsored", "ugc"}

  function LowerChar(c: char): char {
    if 'A' <= c <= 'Z' then 'a' + (c - 'A') else c
  }

  function ToLower(s: string): string {
    seq(|s|, i requires 0 <= i < |s| => LowerChar(s[i]))
  }

  predicate IsNofollow(o: Occurrence) {
    exists i :: 0 <= i < |o.rel| && ToLower(o.rel[i]) in NOFOLLOW_RELS
  }

  predicate HasDofollow(occurrences: seq<Occurrence>) {
    exists i :: 0 <= i < |occurrences| && !IsNofollow(occurrences[i])
  }

  function OccurrencesOf(l: Link): seq<Occurrence> {
    if l.occurrences.Some? then l.occurrences.value else []
  }

  datatype FollowKind = Dofollow | Nofollow

  function ComputeFollowKind(l: Link): Option<FollowKind> {
    if OccurrencesOf(l) == [] then None
    else Some(if HasDofollow(OccurrencesOf(l)) then Dofollow else Nofollow)
  }

  // ----- the statistics -----

  datatype Bucket = PendingRow | ErrorRow | ProblemRow | DoneRow

  function BucketOf(l: Link): Bucket {
    if l.status == PENDING || l.status == QUEUED || l.status == CHECKING then PendingRow
    else if l.status == ERROR then ErrorRow
    else
      var isOk := l.donorStatusCode.Some? && 200 <= l.donorStatusCode.value < 300;
      if !isOk || l.linkFound != Some(true) || l.donorIndexable != Some(true) then ProblemRow else DoneRow
  }

  /** The separate test that picks rows for the problem-donor list. */
  predicate IsProblem(l: Link) {
    if l.status == ERROR then true
    else if l.status != DONE then false
    else
      var isOk := l.donorStatusCode.Some? && 200 <= l.donorStatusCode.value < 300;
      !isOk || l.linkFound != Some(true) || l.donorIndexable != Some(true)
  }

  /** How a found row is counted; other rows are not counted. */
  function CountedFollow(l: Link): Option<FollowKind> {
    if l.linkFound != Some(true) then None
    else Some(if HasDofollow(OccurrencesOf(l)) then Dofollow else Nofollow)
  }

  // ----- the spreadsheet -----

  function DeriveLabel(l: Link): string {
    if l.status == PENDING || l.status == QUEUED then "Pending"
    else if l.status == CHECKING then "Checking"
    else if l.status == ERROR then "Error"
    else
      var isOk := l.donorStatusCode.Some? && 200 <= l.donorStatusCode.value < 300;
      if !isOk || l.linkFound != Some(true) || l.donorIndexable != Some(true) then "Problem"
      else if l.canonicalMatches == Some(true) then "Done"
      else "Done (canonical mismatch)"
  }

  function DeriveFoundCell(l: Link): string {
    if l.linkFound != Some(true) then "no"
    else if HasDofollow(OccurrencesOf(l)) then "dofollow"
    else "nofollow"
  }

  // ----- they agree -----

  function BucketOfQuality(q: Quality): Bucket {
    match q
    case Pending => PendingRow
    case Checking => PendingRow
    case Green => DoneRow
    case Yellow => DoneRow
    case Problem => ProblemRow
    case Failed => ErrorRow
  }

  function SheetLabelOfQuality(q: Quality): string {
    if q == Yellow then "Done (canonical mismatch)" else RowStatusLabel(q)
  }

  function CellOfKind(k: Option<FollowKind>): string {
    match k
    case None => "no"
    case Some(Dofollow) => "dofollow"
    case Some(Nofollow) => "nofollow"
  }

  /** Every row, in whatever state, gets the same verdict in all three places. */
  lemma VerdictsAgree(l: Link)
    ensures BucketOf(l) == BucketOfQuality(ComputeRowStatus(l))
    ensures DeriveLabel(l) == SheetLabelOfQuality(ComputeRowStatus(l))
    ensures IsProblem(l) <==> ComputeRowStatus(l) in {Problem, Failed}
    ensures DeriveFoundCell(l) == CellOfKind(CountedFollow(l))
  {
  }

  /**
   * The follow kind shown in the table is the one counted and the one written to the
   * sheet exactly when a row is found if and only if it has occurrences; every
   * finished row is such a row.
   */
  lemma FollowKindsAgree(l: Link)
    ensures ComputeFollowKind(l) == CountedFollow(l) <==> (l.linkFound == Some(true) <==> OccurrencesOf(l) != [])
    ensures StatusIsTrue(l) && l.status == DONE ==> ComputeFollowKind(l) == CountedFollow(l)
    ensures ComputeFollowKind(l) == CountedFollow(l) ==> DeriveFoundCell(l) == CellOfKind(ComputeFollowKind(l))
  {
  }

  // ----- what the verdicts mean -----

  /** A finished check that reached a readable, indexable page with the link on it. */
  predicate IsSound(l: Link) {
    && l.status == DONE && l.donorStatusCode.Some? && 200 <= l.donorStatusCode.value <= 299
    && l.linkFound == Some(true) && l.donorIndexable == Some(true)
  }

  /** The label of every row, as the sheet has it and as the table and the export have it. */
  lemma LabelsInPlainTerms(l: Link)
    ensures RowStatusLabel(ComputeRowStatus(l))
         == if l.status == PENDING || l.status == QUEUED then "Pending"
            else if l.status == CHECKING then "Checking"
            else if l.status == ERROR then "Error"
            else if IsSound(l) then "Done" else "Problem"
    ensures DeriveLabel(l)
         == if IsSound(l) && l.canonicalMatches != Some(true) then "Done (canonical mismatch)"
            else RowStatusLabel(ComputeRowStatus(l))
    ensures ComputeRowStatus(l).Green? <==> IsSound(l) && l.canonicalMatches == Some(true)
    ensures ComputeRowStatus(l).Yellow? <==> IsSound(l) && l.canonicalMatches != Some(true)
  {
  }

  predicate NamesNofollow(rel: string) {
    IsWord(rel, "nofollow") || IsWord(rel, "sponsored") || IsWord(rel, "ugc")
  }

  /** One relation of an occurrence, whatever its case, is one of the three that keep a link from being followed. */
  lemma NofollowInPlainTerms(o: Occurrence)
    ensures IsNofollow(o) <==> exists i :: 0 <= i < |o.rel| && NamesNofollow(o.rel[i])
  {
    forall i | 0 <= i < |o.rel| ensures ToLower(o.rel[i]) in NOFOLLOW_RELS <==> NamesNofollow(o.rel[i]) {
      IsWordIff(o.rel[i], "nofollow");
      IsWordIff(o.rel[i], "sponsored");
      IsWordIff(o.rel[i], "ugc");
    }
  }

  /** The same letters as a word in small letters, each of them small or capital. */
  predicate IsWord(s: string, word: string) {
    |s| == |word| && forall k :: 0 <= k < |s| ==> s[k] == word[k] || s[k] as int + 32 == word[k] as int
  }

  lemma IsWordIff(s: string, word: string)
    requires forall k :: 0 <= k < |word| ==> 'a' <= word[k] <= 'z'
    ensures ToLower(s) == word <==> IsWord(s, word)
  {
    if IsWord(s, word) {
      forall k | 0 <= k < |s| ensures ToLower(s)[k] == word[k] {}
    } else if |s| == |word| {
      var k :| 0 <= k < |s| && !(s[k] == word[k] || s[k] as int + 32 == word[k] as int);
      assert ToLower(s)[k] != word[k];
    }
  }

  /** How a row is followed: by its occurrences in the table, and in sheet and statistics only if it was found. */
  lemma FollowInPlainTerms(l: Link)
    ensures HasDofollow(OccurrencesOf(l)) <==>
      l.occurrences.Some? && exists i :: 0 <= i < |l.occurrences.value| && !IsNofollow(l.occurrences.value[i])
    ensures ComputeFollowKind(l)
         == if l.occurrences.None? || l.occurrences.value == [] then None
            else if HasDofollow(OccurrencesOf(l)) then Some(Dofollow) else Some(Nofollow)
    ensures CountedFollow(l)
         == if l.linkFound != Some(true) then None
            else if HasDofollow(OccurrencesOf(l)) then Some(Dofollow) else Some(Nofollow)
    ensures DeriveFoundCell(l)
         == if l.linkFound != Some(true) then "no"
            else if HasDofollow(OccurrencesOf(l)) then "dofollow" else "nofollow"
  {
  }
}
