/**
 * What one crawl reports (apps/worker/src/modules/crawler/types.ts).
 */
module CrawlResults {
  import opened Options

  datatype Occurrence = Occurrence(href: string, anchor: string, rel: seq<string>)

  datatype CrawlResult = CrawlResult(
    ok: bool,
    donorStatusCode: Option<int>, donorFinalUrl: Option<string>, donorRedirectChain: Option<seq<string>>,
    donorIndexable: Option<bool>, donorMetaRobots: Option<string>, donorXRobotsTag: Option<string>,
    donorCanonical: Option<string>, canonicalMatches: Option<bool>,
    linkFound: Option<bool>, occurrences: Option<seq<Occurrence>>, occurrencesCount: nat,
    error: Option<string>, durationMs: nat)

  /** The result every crawl starts from. */
  const BASE: CrawlResult := CrawlResult(
    false, None, None, None, None, None, None, None, None, None, None, 0, None, 0)

  /** An accepted result carries its occurrences, a rejected one carries an error and none. */
  predicate Consistent(r: CrawlResult) {
    if r.ok then
      && r.error.None? && r.occurrences.Some?
      && r.occurrencesCount == |r.occurrences.value|
      && r.linkFound == Some(0 < r.occurrencesCount)
    else
      r.error.Some? && r.linkFound.None? && r.occurrences.None? && r.occurrencesCount == 0
  }
}
