# Link checker: a Dafny model of the worker's concurrency and its algorithmic cores

The link checker crawls "donor" pages and looks for links to "acceptor" sites. Its
workers share one Redis and one database. This project models the code that keeps
many workers in order, and several self-contained algorithms, and proves what they are
for.

**Coordination primitives** (`Semaphore`, `RateLimiter`, `LockManager`,
`CircuitBreaker`). Every Lua script is one atomic step, a function on the value of a
key at an explicit time. The classes run the same steps on mutable keys, command by
command, and are proved equal to the step functions; their waiting loops end. The
lemmas speak about all runs of any number of clients.

**Protocols** (`CrawlProtocol`, `ManualCheckProtocol`, `BulkRun`). The same steps put
together as `CrawlerService.crawlAndAnalyze`, `ManualCheckProcessor.handle` and the chunk
loop of a bulk run put them together. Each `await` is a step boundary; a run is any list
of steps of any crawls, jobs or links, with crashes, lost replies, failed releases, failed
cleanups, and checks that throw or die.

**Services** (`Crawler`, `SingleLink`, `ManualCheck`, `LinkRows`, `Events`, `SheetsTask`).
The same services as classes, with the values they compute. Where a method awaits, time
passes and other clients act, as its arguments say (`Polling` has the loop of the two
waiting clients); `SingleLinkProcessor.ProcessAll` lets the steps of the links of a chunk
come in any order.

**Spreadsheet runs** (`SheetRows`, `SheetResults`, `SheetsTask`, `SheetsOutcome`). Rows
of a sheet become links, the links are checked, and each result is written back
beside a row. `WrittenCell` says what every single cell holds afterwards.

**Replica** (`ProjectStream`). The browser's cached pages, folded over the event log,
against the table the events come from.

**Algorithms** (`Csv`, `Columns`, `SheetUrl`, `RowStatus`, `Stats`, `Aggregate`,
`Recheck`). Printing and reading CSV, base-26 columns, spreadsheet links, the three row
classifiers, the statistics pass, the recheck cooldown.

## Modelling choices

- One clock. Times are whole milliseconds; they may only go back where a lemma says so.
  A key whose expiry instant has been reached counts as expired.
- Tokens of the bucket are exact reals; all other numbers are unbounded integers.
- Tokens and row identifiers drawn at random are new and distinct.
- What others do is given from outside: how long each await of a call lasts, and what
  others make of the shared keys, rows and breaker in it, are arguments that may be
  anything. So is every failure of a read, a write or a clean-up: which ones fail, and how
  far the links of a chunk had got when an error struck.
- The provider, the HTML parser, the URL parser, the printing of times and the fetch
  order of the database are parameters; any reply and any order is possible.
- A script of Redis, a statement of the database and a publish are one step each; the
  reply of a script may take any time, and its caller reads the clock again afterwards.

## Where the code does less than its comments say

- "One trial call" in HALF_OPEN (packages/worker-core/src/circuit-breaker.ts:8): every
  call that enters before the first one settles is let through
  (`CircuitBreaker.HalfOpenAdmitsEveryCall`).
- A failed check sets the count to 0 but keeps the old occurrences list
  (`LinkRows.FailureKeepsOldOccurrences` gives the exact condition for them to agree).
- Whole-key expiry of the semaphore is invisible as long as every heartbeat comes less
  than a TTL after its member's last stamp. A later heartbeat that finds its member
  expired lets one client too many in, compared with pruning alone
  (`Semaphore.KeyExpiryIsInvisible`, `Semaphore.BeatIsInvisibleIff`).
- The limiter tests its deadline against the wait counted from the time the reply came,
  not from the time the script ran. It can give up although a retry before the deadline
  would be granted (`RateLimiter.RetryInTimeIff`, `RateLimiter.GivingUpCanBeWrong`).
- A refused poll is not always without effect: it renews the key's lifetime, and a bucket
  that would have expired, and been full again, is then still nearly empty
  (`RateLimiter.DeniedPollIff`, `RateLimiter.PollCanCostAGrant`). Leaving refused polls
  out of a run never loses it a grant (`RateLimiter.RefusalsLeaveNoTrace`).
- A sheets run relies on links being fetched in the order they were inserted. All rows
  of a batch share `createdAt`, so that order is the order of their ids. Rows hold their
  own results if the ids ascend, and otherwise some row shows another row's result
  (`SheetsOutcome.EachRowHoldsItsOwnResult`, `SheetsOutcome.OutOfOrderRowsShowAnother`).
- A recheck refused with "retry after n seconds" can be refused again at exactly that
  second (`Recheck.AdvertisedWait`).
- `manualChecking` stays up after a bulk run that died between raising it and taking it
  down, or whose attempt to take it down failed, until another run takes it down
  (`ManualCheckProtocol.FlagIsUpIff`).
- Two `lock_changed: true` events can meet: a run announces while the run that announced
  last is still at work without its lease, or died before its `false`, and nobody has
  published `false` since (`ManualCheckProtocol.EventsAlternateIff`).
- The CSV header is not quoted, though the comment says every field is, and its sixth
  column is `follow`, not `follow_kind` (apps/web/src/lib/csv-export.ts:8-26).
- Two writers tell nobody. `markManyStatus`: a queued row is ahead of the replica until
  its check begins (`ProjectStream.QueuedRowIsBehind`). And a sheets run fails the links
  of malformed rows without a `link_updated`
  (apps/worker/src/modules/sheets/sheets-task.service.ts:186-201): a page fetched before
  that keeps showing the old columns. An idle cached row agrees with the table if and only
  if no such save has changed a live column since the link was last told of
  (`ProjectStream.IdleRowAgreesIff`, `ProjectStream.SilentSaveIsBehind`).

## Model

| member | source | states |
|---|---|---|
| Semaphore.NeverOverLimit | packages/worker-core/src/semaphore.ts:19-55 | Over every run of acquires, releases and heartbeats with nondecreasing time the set has at most `limit` members, none from the future, and the key outlives its members. |
| Semaphore.HolderSurvives | packages/worker-core/src/semaphore.ts:26-35 | A member nobody releases is still there, in an unexpired key, at every time less than a TTL after its score, whatever the others do. |
| Semaphore.BeatingHolderNeverExpires | packages/worker-core/src/semaphore.ts:44-55 | A holder that beats within every TTL is a member through any run, its beats succeed, and its score is its last beat. |
| Semaphore.AcquireEffect | packages/worker-core/src/semaphore.ts:26-35 | Exactly what one acquire does: it is granted if and only if fewer than `limit` members are younger than the TTL, it leaves those and its own token if granted, each with its score, and renews the key only when granted. |
| Semaphore.OwnTokenOnly | packages/worker-core/src/semaphore.ts:37-55 | On a live key a release removes its own token and nothing else, a heartbeat re-stamps its own token and the key or changes nothing; each says whether it did. |
| Semaphore.ExpiredIsEmpty | packages/worker-core/src/semaphore.ts:19-55 | On an expired key every script acts as on an empty one: an acquire is the only member, a release and a heartbeat find nothing. |
| Semaphore.SilentHoldersAreReclaimed | packages/worker-core/src/semaphore.ts:26-35 | When every script of a run ran at least a TTL ago, the next acquire is granted, provided the limit is at least 1. |
| Semaphore.KeyExpiryIsInvisible | packages/worker-core/src/semaphore.ts:26-55 | In every run of acquires, releases and heartbeats in which each beat comes less than a TTL after its member's last stamp, each acquire gets the answer it would get from a set whose key never expires. |
| Semaphore.BeatIsInvisibleIff | packages/worker-core/src/semaphore.ts:44-55 | From agreeing sets, a beat at any time leaves no later run of acquires, releases and timely beats that tells them apart if and only if a member of the plain set is still found live. |
| Semaphore.HeartbeatSeesKeyExpiry | packages/worker-core/src/semaphore.ts:44-55 | The smallest run that tells them apart: a beat one TTL after the acquire, then a second client, who is let in. |
| Semaphore.RedisSemaphore.TryAcquire | packages/worker-core/src/semaphore.ts:90-104 | The commands of the acquire script, run on the mutable key, leave the value and give the answer of the acquire step. |
| Semaphore.RedisSemaphore.Release | packages/worker-core/src/semaphore.ts:126-131 | The release script removes exactly its own token, and the key with the last member. |
| Semaphore.RedisSemaphore.Heartbeat | packages/worker-core/src/semaphore.ts:132-142 | The heartbeat script extends a member that is there and changes nothing otherwise. |
| Semaphore.RedisSemaphore.Acquire | packages/worker-core/src/semaphore.ts:110-120 | Against any surroundings, given as what each await lasts and what others make of the key in it: the tries are exactly those of the polling loop, a token drawn anew for each; the lease is the last try's token, live from its script on for a TTL; a timeout comes after the deadline. |
| Semaphore.LeaseIsOneEntry | packages/worker-core/src/semaphore.ts:110-120 | A call gets a slot if and only if its last script found fewer than `limit` members younger than the TTL; that script entered the token with its time, and no other try of the call entered any. |
| Semaphore.UndisturbedAcquire | packages/worker-core/src/semaphore.ts:110-120 | A call nobody disturbs before its first script gets its slot at once if and only if fewer than `limit` members are younger than the TTL. |
| Polling.CallIsDetermined | packages/worker-core/src/semaphore.ts:110-120 | Given what the awaits last and what others do in them, the tries of a call, its end and the key at its end are determined. |
| RateLimiter.ZeroMeansGranted | packages/worker-core/src/domain-rate-limiter.ts:38-48 | The script answers 0 exactly when a whole token is on hand, and a positive wait otherwise. |
| RateLimiter.WaitIsLeast | packages/worker-core/src/domain-rate-limiter.ts:34-48 | After a refusal with wait w and nobody else calling, a retry d ms later is granted if and only if d >= w or the key has expired by then. |
| RateLimiter.RefusedUntil | packages/worker-core/src/domain-rate-limiter.ts:38-48 | After a refusal no uncontended retry is granted before the advertised wait, counted from the time the script ran, while the key lives. |
| RateLimiter.RetryInTimeIff | packages/worker-core/src/domain-rate-limiter.ts:99-111 | Whatever time the reply took, some uncontended retry between the test and the deadline would be granted if and only if the wait counted from the script, or the key's lifetime, ends by the deadline. |
| RateLimiter.GivingUpCanBeWrong | packages/worker-core/src/domain-rate-limiter.ts:99-111 | Refused at 0 with wait 500, tested at 10 against the deadline 505: the code gives up, and a retry at 500 would be granted. |
| RateLimiter.GrantsFromBucket | packages/worker-core/src/domain-rate-limiter.ts:25-48 | From a stored bucket, any calls at any times are granted at most its tokens plus what the forward clock jumps earn. |
| RateLimiter.GrantsBounded | packages/worker-core/src/domain-rate-limiter.ts:25-48 | After any earlier calls, a run is granted at most capacity plus rate times the sum of forward jumps, if no call finds its key expired or one TTL refills a bucket; the clock may go back. |
| RateLimiter.WindowBound | packages/worker-core/src/domain-rate-limiter.ts:25-48 | With nondecreasing time every window is granted at most capacity plus rate times its length, if one TTL refills a bucket or no call of the window finds its key expired. |
| RateLimiter.WindowBoundIffRefills | packages/worker-core/src/domain-rate-limiter.ts:25-48 | For a whole-number capacity the window bound holds of every run and window if and only if rate times TTL refills the capacity. |
| RateLimiter.DeniedPollIff | packages/worker-core/src/domain-rate-limiter.ts:25-48 | A refused poll leaves a later call's answer and bucket as they were, whatever way the clock goes, if and only if the key is gone by then either way, or the bucket would be full anyway, or the key lives either way and the three times go one way. |
| RateLimiter.DeniedPollChangesNothing | packages/worker-core/src/domain-rate-limiter.ts:34-48 | With a clock that moves on, the poll matters exactly if it kept a key alive that would have expired and whose bucket would not be full by itself; so never when one TTL refills a bucket or the old key still lives. |
| RateLimiter.PollCanCostAGrant | packages/worker-core/src/domain-rate-limiter.ts:44-47 | The counterexample: two tokens, one a second, a lifetime of 600; a poll refused at 100 makes a call at 650 refused that would be granted without it. |
| RateLimiter.PollsUnnoticedIff | packages/worker-core/src/domain-rate-limiter.ts:25-48 | For a whole-number capacity no refused poll of any run is ever noticed by a later call if and only if one TTL refills a bucket, or a millisecond earns a token, or the TTL is at most a millisecond. |
| RateLimiter.RefusalsLeaveNoTrace | packages/worker-core/src/domain-rate-limiter.ts:25-48 | At any rate and lifetime, with nondecreasing time: taking all refused polls out of a run leaves a run in which every call is granted, and as many as before. |
| RateLimiter.DomainRateLimiter.TryConsume | packages/worker-core/src/domain-rate-limiter.ts:82-93 | The script's statements, run on the host's hash, leave the store and give the wait that the script step says; no other host is touched. |
| RateLimiter.DomainRateLimiter.Consume | packages/worker-core/src/domain-rate-limiter.ts:99-111 | Against any surroundings, given as what each await lasts and what others make of the hashes in it: the tries are exactly those of the loop, each on the host's own bucket; granted if and only if the last one was answered 0; it gives up only if the wait counted from the test passes the deadline, and it is stated exactly when that throws a grantable retry away. |
| RateLimiter.TryInPlainTerms | packages/worker-core/src/domain-rate-limiter.ts:25-48 | One try: the refilled bucket loses one token if it holds a whole one and none otherwise, is stored with the current time and a renewed lifetime, other hosts are as they were, and the answer is 0 or the least wait that earns what is missing. |
| RateLimiter.GrantTakesOneToken | packages/worker-core/src/domain-rate-limiter.ts:99-111 | Of all tries of a call only the last can find a whole token in its host's bucket; the call is granted if and only if it does, and then takes exactly that token; every refused try takes none. |
| RateLimiter.UndisturbedCall | packages/worker-core/src/domain-rate-limiter.ts:99-111 | A call nobody disturbs before its first script is granted at once if and only if a whole token is on hand at entry, and the bucket then holds one fewer. |
| LockManager.LeaseIsExclusive | packages/worker-core/src/lock-manager.ts:21-60 | Until a lease runs out, every attempt of clients with other tokens fails and the cell is unchanged. |
| LockManager.StaleHolderIsPowerless | packages/worker-core/src/lock-manager.ts:21-35 | Once a token is not the live value of the key, its heartbeats and releases fail, change nothing visible, and it never holds the key again. |
| LockManager.BeatingHolderKeepsLock | packages/worker-core/src/lock-manager.ts:71-84 | A holder that beats before each lease runs out keeps its token in the key through any run. |
| LockManager.StepsInPlainTerms | packages/worker-core/src/lock-manager.ts:21-60 | Acquire succeeds exactly on a free or expired key, heartbeat and release exactly on a live one that holds the same token; each leaves the key as it should then be and otherwise untouched, but for an expired cell that goes. |
| LockManager.LockManager.Acquire | packages/worker-core/src/lock-manager.ts:55-61 | SET NX PX on the store: the key's new cell and the answer are those of the acquire step, other keys are as they were. |
| LockManager.LockManager.IsLocked | packages/worker-core/src/lock-manager.ts:66-69 | EXISTS: true exactly when the key holds an unexpired value. |
| LockManager.LockManager.Heartbeat | packages/worker-core/src/lock-manager.ts:75-78 | The token-checked extension on the store equals the heartbeat step. |
| LockManager.LockManager.Release | packages/worker-core/src/lock-manager.ts:79-82 | The token-checked deletion on the store equals the release step. |
| CircuitBreaker.ClosedIffFewFailures | packages/worker-core/src/circuit-breaker.ts:47-88 | Over every interleaving of overlapping calls, looks and resets the breaker is CLOSED if and only if fewer than the threshold failed since the last success or reset, and the counter is that number. |
| CircuitBreaker.AdmittedIff | packages/worker-core/src/circuit-breaker.ts:47-58 | A call is let through if and only if the failures in a row are below the threshold or a cooldown has passed since the latest of them. |
| CircuitBreaker.HalfOpenAdmitsEveryCall | packages/worker-core/src/circuit-breaker.ts:54-68 | In HALF_OPEN any number of calls entering before one settles are all let through. |
| CircuitBreaker.CallsWithinCredit | packages/worker-core/src/circuit-breaker.ts:54-81 | Failing calls one after the other cost a cooldown each; their cost never exceeds what the state and the window allow. |
| CircuitBreaker.FailingCallsAreSpaced | packages/worker-core/src/circuit-breaker.ts:54-81 | For non-overlapping calls that all fail, from any reachable state, k provider calls in a window of length T satisfy (k - threshold) * cooldown <= T. |
| CircuitBreaker.CircuitBreaker.GetState | packages/worker-core/src/circuit-breaker.ts:47-52 | Moves an OPEN breaker on once the cooldown has passed, changes nothing else, and returns the new state. |
| CircuitBreaker.CircuitBreaker.Succeeded | packages/worker-core/src/circuit-breaker.ts:70-73 | Closes the breaker and clears the counter, as the specification of a success says. |
| CircuitBreaker.CircuitBreaker.Failed | packages/worker-core/src/circuit-breaker.ts:75-81 | Counts a failure and opens on the threshold or from HALF_OPEN, with the current time. |
| CircuitBreaker.CircuitBreaker.Reset | packages/worker-core/src/circuit-breaker.ts:84-88 | Back to the initial breaker. |
| CircuitBreaker.CircuitBreaker.Exec | packages/worker-core/src/circuit-breaker.ts:54-68 | With any other calls entering and settling meanwhile, as a given list of events: the caller gets the provider's own reply if the breaker was not OPEN at entry and CircuitOpen otherwise; the breaker ends where exactly its entry, those events and, if it called, its own settlement lead. With no others: a failing call adds one to the counter and opens on the threshold or from HALF_OPEN, a succeeding one closes. |
| CrawlProtocol.InFlightBounded | apps/worker/src/modules/crawler/crawler.service.ts:65-126 | In every reachable state, crashes included, the set has at most `limit` entries and at most `limit` crawls hold a slot younger than the TTL; so if no call in flight has outlived its TTL, at most `limit` are in flight. |
| CrawlProtocol.HolderKeepsEntry | apps/worker/src/modules/crawler/crawler.service.ts:65-126 | A crawl past its acquire for less than a TTL still has its own entry in the live set. |
| CrawlProtocol.FinishedLeavesNoEntry | apps/worker/src/modules/crawler/crawler.service.ts:65-126 | A crawl that returned with its release done, and lost no granting reply, has no entry of its own left. |
| CrawlProtocol.QuietSetIsEmpty | apps/worker/src/modules/crawler/crawler.service.ts:65-126 | When no crawl holds a slot, crashed, failed to release or lost the reply that granted it a slot, the set is empty. |
| CrawlProtocol.RunKeepsSlots | apps/worker/src/modules/crawler/crawler.service.ts:58-126 | The slot invariant: capacity, tokens apart, young holders present, every entry owned; kept by every run. |
| CrawlProtocol.RunConserves | apps/worker/src/modules/crawler/crawler.service.ts:58-63 | Tokens are conserved per host: grants so far plus tokens left never exceed one bucket plus what time earned. |
| CrawlProtocol.HostCallsBounded | apps/worker/src/modules/crawler/crawler.service.ts:58-76 | Over all workers and crawls a host is called at most capacity plus rate times elapsed time. |
| CrawlProtocol.RunKeepsBreakers | apps/worker/src/modules/crawler/crawler.service.ts:74-76 | Each worker's breaker is always the one its own entries and settlements lead to. |
| CrawlProtocol.ProviderReachedIff | apps/worker/src/modules/crawler/crawler.service.ts:74-76 | A crawl holding a slot reaches the provider if and only if its worker's failures in a row are below the threshold or a cooldown has passed; otherwise it goes straight to the release. |
| CrawlProtocol.TokenPollIff | apps/worker/src/modules/crawler/crawler.service.ts:58-63 | A waiting crawl's poll moves it on to the slot if and only if its host's bucket holds a whole token, which it takes. |
| CrawlProtocol.SlotPollIff | apps/worker/src/modules/crawler/crawler.service.ts:65-72 | In every reachable state a poll for a slot is granted if and only if fewer than `limit` entries are younger than the TTL, and then enters the token. |
| CrawlProtocol.CrawlGetsItsSlot | apps/worker/src/modules/crawler/crawler.service.ts:40-72 | From the start a crawl alone takes one token and one slot and can call. |
| CrawlProtocol.CrawlGetsThrough | apps/worker/src/modules/crawler/crawler.service.ts:74-126 | And then gets through: the slot set is empty again, the breaker has counted its settlement, and the crawl is finished. |
| Crawler.ReportIsConsistent | apps/worker/src/modules/crawler/crawler.service.ts:74-121 | Every result that reports a crawl fits its verdict: accepted with list, count and linkFound in agreement and no error, or rejected with an error and none of them; accepted if and only if it was called, resolved and read; a status code if and only if it resolved. |
| Crawler.CrawlerService.AwaitTurn | apps/worker/src/modules/crawler/crawler.service.ts:58-72 | Token before slot, each wait exactly the polling loop of its client against the given others; a slot only with a token in hand, held from the time its script ran until a TTL later; the steps taken are exactly those, and the breaker has seen exactly the others' events. |
| Crawler.CrawlerService.CallProvider | apps/worker/src/modules/crawler/crawler.service.ts:74-121 | The provider is called exactly if the breaker admits the call at entry; the breaker follows exactly its entry, the others' events of the meantime and its settlement; field by field the result is that of the response and of the parser, or the error of the path taken. |
| Crawler.CrawlerService.UnderSlot | apps/worker/src/modules/crawler/crawler.service.ts:74-126 | The call, then the release on every path; the slot set is what the others made of it, without this crawl's token unless the release failed. |
| Crawler.CrawlerService.CrawlAndAnalyze | apps/worker/src/modules/crawler/crawler.service.ts:40-127 | Never throws, whatever the others do at each wait, as given: the waits and their answers, the order of visible steps, the provider called exactly if the breaker admits when the slot is there, slots and breaker afterwards; and the result of every path: malformed input, either timeout, open circuit, rejection, unreadable page, and, if read, each field from the response or the parser. |
| LinkRows.StatusStaysTrue | apps/worker/src/modules/queue/link.repository.ts:37-72 | Under any interleaving of marks and saves DONE means no error and list, count and linkFound in agreement, and ERROR means an error, no linkFound and count 0. |
| LinkRows.WrittenColumns | apps/worker/src/modules/queue/link.repository.ts:37-72 | A mark writes the status alone; a save writes each column from its own field of the result, keeps a stored list that meets a null, and never touches what the user entered. |
| LinkRows.NewInPlainTerms | apps/worker/src/modules/queue/link.repository.ts:117-165 | A new row is PENDING with nothing known; RUNNING raises a task's flag, COMPLETED and FAILED lower it and record time and summary. |
| LinkRows.SavedResultReadsBack | apps/worker/src/modules/queue/link.repository.ts:50-72 | A saved result can be read back from its row if and only if no null list met a stored one; what the user entered is never written. |
| LinkRows.FailureKeepsOldOccurrences | apps/worker/src/modules/queue/link.repository.ts:58-66 | A failed check keeps the stored list; count and list agree afterwards if and only if that list was absent or empty. |
| LinkRows.RowsAreIndependent | apps/worker/src/modules/queue/link.repository.ts:37-72 | In any interleaving of writes to many rows, each row ends as if only its own writes had run. |
| LinkRows.InterleavingIsIrrelevant | apps/worker/src/modules/queue/manual-check.processor.ts:81 | Two interleavings of the same per-link writes leave the same table. |
| LinkRows.ProcessedCount | apps/worker/src/modules/queue/link.repository.ts:97-107 | When exactly the first k of distinct rows are finished, the database count of processed rows is k. |
| LinkRows.FetchSorts | apps/worker/src/modules/queue/link.repository.ts:168-173 | Fetching rearranges the rows of a task into the order of the sort key. |
| LinkRows.FetchOrderIsInsertionOrderIff | apps/worker/src/modules/queue/link.repository.ts:140-173 | Rows come back in insertion order if and only if their sort keys were given out in that order. |
| LinkRows.LinkRepository.MarkStatus | apps/worker/src/modules/queue/link.repository.ts:37-39 | One row's status changes, nothing else; a missing row is an error. |
| LinkRows.LinkRepository.MarkManyStatus | apps/worker/src/modules/queue/link.repository.ts:41-44 | Exactly the listed rows that exist change status. |
| LinkRows.LinkRepository.SaveResult | apps/worker/src/modules/queue/link.repository.ts:50-72 | All result columns of one row are written, null lists excepted; other rows are as they were. |
| LinkRows.LinkRepository.SetProjectManualChecking | apps/worker/src/modules/queue/link.repository.ts:87-92 | One project's flag changes; a missing project is an error. |
| LinkRows.LinkRepository.GetProgressCounts | apps/worker/src/modules/queue/link.repository.ts:97-107 | The counts of finished, found and failed rows among the ids. |
| LinkRows.CountsInPlainTerms | apps/worker/src/modules/queue/link.repository.ts:97-107 | Total, processed, found and errors count the ids, those DONE or ERROR, those with linkFound true, and those in ERROR. |
| LinkRows.LinkRepository.ReplaceSheetsLinks | apps/worker/src/modules/queue/link.repository.ts:145-165 | The rows of the task's last run are gone, one pending row per input is there, every other row is as it was. |
| LinkRows.LinkRepository.FindLinksBySheetsTaskOrdered | apps/worker/src/modules/queue/link.repository.ts:168-173 | Exactly the task's rows with their current columns, in the order of the sort key. |
| LinkRows.LinkRepository.SetSheetsTaskStatus | apps/worker/src/modules/queue/link.repository.ts:117-131 | RUNNING raises the flag; COMPLETED and FAILED lower it and record time and summary. |
| LinkRows.LinkRepository.SetProjectSheetsChecking | apps/worker/src/modules/queue/link.repository.ts:133-138 | One project's sheets flag changes; a missing project is an error. |
| LinkRows.LinkRepository.GetSheetsProgressCounts | apps/worker/src/modules/queue/link.repository.ts:175-183 | The counts over the task's rows. |
| SingleLink.SingleLinkProcessor.Advance | apps/worker/src/modules/queue/single-link.processor.ts:36-70 | From one await of processOne to the next: what a step writes to the link's row, what it publishes, and where it leads; a link that is gone ends it. |
| SingleLink.StepsInPlainTerms | apps/worker/src/modules/queue/single-link.processor.ts:36-70 | Stage by stage: load, mark CHECKING, announce it with no result, save the crawl of the row's own donor and acceptor, announce the six saved columns; a link that is gone ends there. |
| SingleLink.SingleLinkProcessor.ProcessOne | apps/worker/src/modules/queue/single-link.processor.ts:36-70 | Exactly this row is marked and saved, and exactly two events tell of it, the second with the saved columns; a missing link leaves no trace. |
| SingleLink.StepKeepsStages | apps/worker/src/modules/queue/single-link.processor.ts:36-70 | Whichever link of a chunk takes the next step, the table stays what the writes so far make of it, and every link has exactly the writes and events its stage says. |
| SingleLink.EachOnceProcesses | apps/worker/src/modules/queue/manual-check.processor.ts:81 | If each link of a list is marked once and then saved once, in any order among links, each row is what its own check makes of it and every other row is as it was. |
| SingleLink.SingleLinkProcessor.ProcessAll | apps/worker/src/modules/queue/manual-check.processor.ts:81 | Promise.all with the steps of the links in any order: it ends, each link is checked exactly once with exactly its two events in order, and no other link is written. |
| BulkRun.RunKeepsInv | apps/worker/src/modules/queue/manual-check.processor.ts:79-96 | Behind the current chunk all links are through, ahead of it none has begun, and every link is where its writes and events say; kept by every interleaving, with checks that throw and other writers. |
| BulkRun.AtMostFifteenInFlight | apps/worker/src/modules/queue/manual-check.processor.ts:79-81 | In every interleaving at most fifteen links of a run have begun and are not through. |
| BulkRun.NeverTwice | apps/worker/src/modules/queue/manual-check.processor.ts:79-96 | At no time has a link been marked or saved twice, or saved before it was marked. |
| BulkRun.EachCheckedExactlyOnce | apps/worker/src/modules/queue/manual-check.processor.ts:79-96 | When the loop is done every link that exists has been marked once and saved once with the result of its own check, and exactly its two events were published; a missing link has no write and no event. |
| BulkRun.NotStuck | apps/worker/src/modules/queue/manual-check.processor.ts:79-96 | As long as no check throws, an unfinished run can always take a step. |
| BulkRun.FinishedIffSaved | apps/worker/src/modules/queue/manual-check.processor.ts:81-85 | At every moment a link that was unfinished at the start has a finished row if and only if its check has been saved. |
| BulkRun.CountIsExact | apps/worker/src/modules/queue/manual-check.processor.ts:82-92 | When a chunk is over, whatever other processors write, the database counts as processed exactly the links that are through. |
| BulkRun.FailureStopsTheRun | apps/worker/src/modules/queue/manual-check.processor.ts:79-106 | Once a check has thrown, no link after the current chunk is ever written or told of. |
| BulkRun.ChunksAreFull | apps/worker/src/modules/queue/manual-check.processor.ts:79-96 | In every reachable state the next chunk begins exactly when the current one is over without a throw and links are left, and takes the next fifteen links or all that are left. |
| ManualCheck.PercentGrows | apps/worker/src/modules/queue/manual-check.processor.ts:95 | The rounded percentage does not fall as the counter grows and is 100 at the end. |
| ManualCheck.PercentIsNearest | apps/worker/src/modules/queue/manual-check.processor.ts:95 | The percentage is the whole number nearest the exact share, halves going up. |
| ManualCheck.PercentsGrowTo100 | apps/worker/src/modules/queue/manual-check.processor.ts:79-96 | Over a whole run the percentages are nondecreasing and end at 100. |
| ManualCheck.CountedAfter | apps/worker/src/modules/queue/manual-check.processor.ts:84-92 | After k processed links the database counts exactly k. |
| ManualCheck.AnyInterleavingDoesTheChunk | apps/worker/src/modules/queue/manual-check.processor.ts:80-82 | Any order of writes that checks each link of the chunk once and writes no other takes the table from "the first i links are through" to "the first j". |
| ManualCheck.ManualCheckProcessor.ProcessChunk | apps/worker/src/modules/queue/manual-check.processor.ts:80-82 | Whatever order the steps of its links come in, exactly the links of the chunk are processed, and what is published is exactly their own two events each. |
| ManualCheck.ManualCheckProcessor.OneChunk | apps/worker/src/modules/queue/manual-check.processor.ts:79-96 | The next chunk of at most fifteen links is processed; the counts of the table after it are published unless the project's last progress event is less than half a second old. |
| ManualCheck.SentOneMore | apps/worker/src/modules/queue/progress.publisher.ts:19-33 | Of the counts taken chunk by chunk exactly those are sent that come at least half a second after the last one sent. |
| ManualCheck.AnnouncedInPlainTerms | apps/worker/src/modules/queue/manual-check.processor.ts:62-105 | A run announces `true`, then its progress, and at its end, if it gets there, found and errors of the last count; a run whose project is gone announces none of that. |
| ManualCheck.ManualCheckProcessor.Chunks | apps/worker/src/modules/queue/manual-check.processor.ts:79-96 | Every link is processed exactly once, in chunks, unless an error strikes; then the finished chunks are processed, the links of the one under way are where their checks had got to, and the rest are still queued. |
| ManualCheck.ManualCheckProcessor.Work | apps/worker/src/modules/queue/manual-check.processor.ts:62-105 | Raises the flag, announces, queues and works through all chunks, exactly if the project exists and no error strikes; the rows left on every exit and every announcement are stated. |
| ManualCheck.ManualCheckProcessor.WorkUnderLock | apps/worker/src/modules/queue/manual-check.processor.ts:62-115 | However the work ends, `false` is announced last and the flag is down, or up if clearing it failed; rows and announcements are those of the work. |
| ManualCheck.ManualCheckProcessor.Handle | apps/worker/src/modules/queue/manual-check.processor.ts:50-120 | Skips without a trace if and only if the key of its own project's lock is held; completes if and only if the project exists and no error strikes; otherwise and on success the rows left, all that was announced with `false` last, the flag and the lock key are stated, with failing clean-ups as inputs. |
| ManualCheckProtocol.OneLeasedRunPerProject | apps/worker/src/modules/queue/manual-check.processor.ts:54-119 | In every reachable state at most one run of a project is past `acquire` with a lease that has not run out. |
| ManualCheckProtocol.RunKeepsLocks | apps/worker/src/modules/queue/manual-check.processor.ts:54-119 | The lock invariant: standing leases are in the key, the key names the run that took it last, tokens apart; kept by every run, with crashes, failed cleanups and acquires whose reply is lost. |
| ManualCheckProtocol.FlagMirrorsLock | apps/worker/src/modules/queue/manual-check.processor.ts:62-119 | In any run, when no run of a project has left the flag up and its active runs hold their leases, a raised flag means the run that raised it still holds the lock; other projects do not matter. |
| ManualCheckProtocol.QuietProjectIsClean | apps/worker/src/modules/queue/manual-check.processor.ts:54-119 | In any run, when no run of a project is past `acquire`: its flag is down unless a run died holding it up or failed to clear it, its last event is not `true` unless a run died between its two events, and its lock is free unless deleting it failed, its reply was lost or its run died. |
| ManualCheckProtocol.RunKeepsFlagExact | apps/worker/src/modules/queue/manual-check.processor.ts:62-119 | In every run, with crashes, lost leases and failed cleanups: the flag is up if and only if the run that raised it last has not taken it down, dead or alive, and no other run has since. |
| ManualCheckProtocol.FlagIsUpIff | apps/worker/src/modules/queue/manual-check.processor.ts:106-119 | With no run of a project past `acquire`, its flag is up if and only if the run that raised it last died between raising and clearing or failed to clear, and no other run took it down since. |
| ManualCheckProtocol.LastEventIsTrueIff | apps/worker/src/modules/queue/manual-check.processor.ts:62-115 | In every run: the last lock event of a project is `true` if and only if the run that published the last `true` is, or died, between its two events, and no other run has published `false` since. |
| ManualCheckProtocol.StepAlternatesIff | apps/worker/src/modules/queue/manual-check.processor.ts:62-68 | A step makes two `true` events meet exactly if it announces while the last announcement stands in that sense. |
| ManualCheckProtocol.EventsAlternateIff | apps/worker/src/modules/queue/manual-check.processor.ts:62-115 | Over every run, no two `true` events come without a `false` between them if and only if no run announced while the last announcement stood. |
| ManualCheckProtocol.EventsAlternate | apps/worker/src/modules/queue/manual-check.processor.ts:62-115 | Which is so whenever the project's runs announce on kept leases and none dies between its two events; failed clears, failed unlocks, other crashes and other projects do no harm. |
| ManualCheckProtocol.DeadRunIsReachable | apps/worker/src/modules/queue/manual-check.processor.ts:54-68 | The state of a run that died at work, one TTL later, is reached from the start. |
| ManualCheckProtocol.CrashLeavesFlagUp | apps/worker/src/modules/queue/manual-check.processor.ts:106-119 | An instance of both conditions: in that state the flag is up with no lock behind it, and the next run announces `true` twice in a row. |
| ManualCheckProtocol.TryLockIff | apps/worker/src/modules/queue/manual-check.processor.ts:54-58 | A run that tries its project's lock gets it if and only if the key is free or expired; the key then holds its token for a lease, and otherwise is as it was. |
| ManualCheckProtocol.RunGetsThrough | apps/worker/src/modules/queue/manual-check.processor.ts:54-119 | A run alone gets through: it is finished, the lock is free, the flag down, and its events are `true`, `false`. |
| ProjectStream.FoldKeepsShape | apps/web/src/hooks/useProjectStream.ts:77-104 | Folding any events changes no page, no row position and no column but the six live ones. |
| ProjectStream.CheckRunsThrough | apps/worker/src/modules/queue/single-link.processor.ts:36-70 | A check can always be begun on a row nobody is checking and carried through: it leaves the saved row and exactly two events, CHECKING without a result and the saved columns; every other row is as it was. |
| ProjectStream.CheckingIsShown | apps/web/src/hooks/useProjectStream.ts:77-104 | Once a check has been announced, every cached row of its link shows CHECKING and no result, other columns and rows as before. |
| ProjectStream.RowsComeAndGo | apps/worker/src/modules/queue/link.repository.ts:145-165 | A new row is there as inserted, rows that are deleted are gone, the others stay as they are, and no event tells of either. |
| ProjectStream.RunKeepsTrack | apps/web/src/hooks/useProjectStream.ts:77-104 | Through any run with checks, bulk marks, silent saves, new and deleted links: while a link is idle the cache shows what was last told of it, and the table what was last written. |
| ProjectStream.IdleRowAgreesIff | apps/web/src/hooks/useProjectStream.ts:77-104 | From a snapshot taken at any moment, folding all later events in publish order, a cached row whose link is idle shows the table's six live columns if and only if no silent save since the link was last told of has changed one of them. |
| ProjectStream.BehindIffSilentlySaved | apps/worker/src/modules/sheets/sheets-task.service.ts:186-201 | If saves of the link are stamped later and later, its idle row is behind exactly when a silent save came after it was last told of. |
| ProjectStream.ReplicaConverges | apps/web/src/hooks/useProjectStream.ts:77-104 | If no silent save changed what was told, every cached row whose link is idle shows the table's live columns, and nothing else changed. |
| ProjectStream.SilentSaveIsBehind | apps/worker/src/modules/sheets/sheets-task.service.ts:186-201 | A sheets run failing a malformed row just created is the counterexample: the table says ERROR, the log is unchanged, the cache disagrees. |
| ProjectStream.QueuedRowIsBehind | apps/worker/src/modules/queue/link.repository.ts:41-44 | A bulk mark publishes nothing, so a queued row disagrees with the cache. |
| SheetRows.SheetIsJudgedFairly | apps/worker/src/modules/sheets/sheets-task.service.ts:381-401 | Rows come from the sheet trimmed, so normalising them changes neither field. |
| SheetRows.JudgementInPlainTerms | apps/worker/src/modules/sheets/sheets-task.service.ts:381-401 | A row is judged on its trimmed fields: what is wrong with the donor, then what is wrong with the acceptor, and the acceptor's host if it can be read. |
| SheetRows.BatchOneMore | apps/worker/src/modules/sheets/sheets-task.service.ts:141-150 | One more data row adds one entry to the batch exactly if both fields are filled. |
| SheetRows.EntryIsAFilledRow | apps/worker/src/modules/sheets/sheets-client.service.ts:155-167 | Every entry of the batch is a filled row of the sheet, at the place its number names. |
| SheetRows.BatchAscends | apps/worker/src/modules/sheets/sheets-client.service.ts:157-166 | The batch keeps the order of the sheet. |
| SheetRows.FilledRowIsTaken | apps/worker/src/modules/sheets/sheets-task.service.ts:141-150 | Every filled row of the sheet is in the batch. |
| SheetRows.KeepValidRows | apps/worker/src/modules/sheets/sheets-task.service.ts:133-150 | The loop keeps exactly the rows with both fields, each with its judgement. |
| SheetRows.SheetsClient.ReadDonorRows | apps/worker/src/modules/sheets/sheets-client.service.ts:129-168 | Stated on the grid: every row returned has as donor and acceptor the trimmed texts of the two source cells in the line of its own number, every data row with text in either cell is returned, and in order. |
| SheetRows.ReadingIsExact | apps/worker/src/modules/sheets/sheets-client.service.ts:155-167 | The rows with text among the first n data rows: each the trimmed texts of its own line, ascending, and none left out. |
| Texts.TrimInPlainTerms | apps/worker/src/modules/sheets/sheets-client.service.ts:158-159 | Trimming takes away white space at both ends, all of it, and nothing else. |
| Texts.SpacesInPlainTerms | apps/worker/src/modules/sheets/sheets-client.service.ts:158-159 | White space is exactly the twenty-five characters String.prototype.trim removes. |
| Texts.NumeralsInPlainTerms | apps/worker/src/modules/sheets/sheets-client.service.ts:158-159 | A number is written in decimal: one digit below ten, one more for every power of ten, a minus sign before a negative one. |
| SheetRows.SheetsClient.WriteFormattedBlock | apps/worker/src/modules/sheets/sheets-client.service.ts:189-224 | The cells of the block hold what was written, all others what they held. |
| SheetResults.PresentRows | apps/worker/src/modules/sheets/sheets-task.service.ts:284-287 | The row numbers of the links that have one. |
| SheetResults.SameCellsIff | apps/worker/src/modules/sheets/sheets-task.service.ts:405-444 | Two links have the same six cells if and only if the table gives them the same verdict and they agree in status code, follow kind, indexability, canonical and printed time. |
| SheetResults.Bounds | apps/worker/src/modules/sheets/sheets-task.service.ts:289-290 | The least and the greatest of a nonempty list, both members of it. |
| SheetResults.DataBlock | apps/worker/src/modules/sheets/sheets-task.service.ts:293-298 | Row by row from the least to the greatest number: the cells of the first link with that number, or blanks. |
| SheetResults.WriteResultsBack | apps/worker/src/modules/sheets/sheets-task.service.ts:276-336 | It succeeds exactly if no write it needs fails; then every cell of the sheet is as `WrittenCell` says; if the block fails nothing is written, if the header fails all but the header; in any case no cell outside the result columns changes. |
| SheetsTask.JudgedAreChecked | apps/worker/src/modules/sheets/sheets-task.service.ts:177-203 | After judging, exactly the links of malformed rows have failed with the row's errors; the others are untouched. |
| SheetsTask.SliceIsChecked | apps/worker/src/modules/sheets/sheets-task.service.ts:210-212 | Any order of writes that checks each link of a slice of the accepted ones once takes the table from "checked so far" to "checked with the slice", and leaves all other rows. |
| SheetsTask.CheckedAreSettled | apps/worker/src/modules/sheets/sheets-task.service.ts:170-225 | Links inserted for the batch and all checked are settled: each under the entry at its place in fetch order. |
| SheetsTask.InputInPlainTerms | apps/worker/src/modules/sheets/sheets-task.service.ts:141-165 | The columns and rows of a task, and the new link of an entry, field by field: donor, acceptor and host of its own row, PENDING, nothing known. |
| SheetsTask.SummaryInPlainTerms | apps/worker/src/modules/sheets/sheets-task.service.ts:235-247 | The summary counts the failed links if there are any, and otherwise the found ones out of all. |
| SheetsTask.SheetsTaskService.SyncLinks | apps/worker/src/modules/sheets/sheets-task.service.ts:156-170 | The task's links are replaced by one fresh link per entry, others are untouched, and they are fetched in key order. |
| SheetsTask.SheetsTaskService.JudgeLinks | apps/worker/src/modules/sheets/sheets-task.service.ts:174-203 | The map from link to sheet row, the list of links passed on, and the table after the malformed ones failed, each stamped while the method ran. |
| SheetsTask.SheetsTaskService.CheckAll | apps/worker/src/modules/sheets/sheets-task.service.ts:210-225 | In chunks of fifteen, the links of a chunk interleaved, every link passed on is checked once, and no other row changes. |
| SheetsTask.SheetsTaskService.Start | apps/worker/src/modules/sheets/sheets-task.service.ts:107-150 | The batch is that of the sheet as read; a failing status write, a missing project, a missing tab or a failing read, and only those, end the run there, with the task untouched or RUNNING. |
| SheetsTask.SheetsTaskService.Work | apps/worker/src/modules/sheets/sheets-task.service.ts:107-233 | It works exactly if nothing goes wrong; then it delivers: the batch of the sheet as read, its links settled, every cell as written back. Stopped before the batch it leaves links and sheet alone; during the batch, the sheet, and each link where its check had got to; at a write, the settled links and the sheet as far as written. |
| SheetsTask.SheetsTaskService.TryWork | apps/worker/src/modules/sheets/sheets-task.service.ts:107-252 | The task ends COMPLETED with the summary, or FAILED, or, if that cannot be recorded, as it was, RUNNING or COMPLETED; everything else is as the work left it. |
| SheetsTask.SheetsTaskService.Conclude | apps/worker/src/modules/sheets/sheets-task.service.ts:235-252 | The last status write and the catch block: COMPLETED is recorded after good work, FAILED after bad work or if that write or the lookup after it throws, nothing if recording fails too. |
| SheetsTask.SheetsTaskService.Run | apps/worker/src/modules/sheets/sheets-task.service.ts:89-260 | Skips without a trace if and only if the task is gone or its project's sheets lock is held; completes if and only if nothing goes wrong; on every exit the status of the task, the project's flag, the lock key, the links and the sheet are stated, with each failure an input; links of other tasks and source columns are always kept. |
| SheetsOutcome.CompletedRunCompletes | apps/worker/src/modules/sheets/sheets-task.service.ts:124-233 | Every run that reports COMPLETED meets the premises of the lemmas below. |
| SheetsOutcome.FilledRowHoldsItsOwnResult | apps/worker/src/modules/sheets/sheets-task.service.ts:172-233 | The same for the rows as the client read them. |
| SheetsOutcome.EachRowHoldsItsOwnResult | apps/worker/src/modules/sheets/sheets-task.service.ts:172-233 | Stated on the sheet: if links come back in insertion order, every row whose two source cells had text ends up showing the result cells of a finished link made from just those trimmed texts, which carries what checking just that pair reported, or says what is wrong with it. |
| SheetsOutcome.OutOfOrderRowsShowAnother | apps/worker/src/modules/sheets/sheets-task.service.ts:172-181 | Fetch order is insertion order if and only if the sort keys ascend; if they do not, some row shows the result of a link made from another row. |
| SheetsOutcome.LinksTellTheTruth | apps/worker/src/modules/sheets/sheets-task.service.ts:181-212 | Every link of a settled batch is DONE or ERROR and carries what that promises; at a malformed row the error names the fault. |
| SheetsOutcome.GapsAreBlank | apps/worker/src/modules/sheets/sheets-task.service.ts:293-298 | Result cells beside unfilled rows inside the block are blank. |
| SheetsOutcome.HeaderIsWritten | apps/worker/src/modules/sheets/sheets-task.service.ts:308-323 | The header cells hold the six titles, unless there was no row to write. |
| SheetsOutcome.SheetSaysItsRows | apps/worker/src/modules/sheets/sheets-task.service.ts:276-323 | A reader of the finished sheet finds, beside each such row and under the titles of the header row, what each title promises about the row's own link, cell by cell; the status is the table's verdict. |
| SheetsOutcome.RestIsUntouched | apps/worker/src/modules/sheets/sheets-task.service.ts:276-323 | Every other cell holds what it held before. |
| SheetsOutcome.NextRunReadsTheSameBatch | apps/worker/src/modules/sheets/sheets-task.service.ts:124-150 | With the source columns outside the result block the next run reads the same batch of links. |
| SheetsOutcome.NextRunReadsRow | apps/worker/src/modules/sheets/sheets-task.service.ts:291-306 | After a completed run, in each filled row the next run reads, from a source column inside the result block, a result cell of the row's own link, and from one outside it what this run read. |
| RowStatus.VerdictsAgree | apps/web/src/lib/status.ts:26-40 | Every row gets the same verdict from the table, the statistics and the sheet, and the separate problem test is true exactly on Problem and Error rows. |
| RowStatus.FollowKindsAgree | apps/web/src/lib/status.ts:55-63 | Table and statistics agree on the follow kind if and only if the row is found exactly when it has occurrences; all finished rows do. |
| RowStatus.LabelsInPlainTerms | apps/web/src/lib/status.ts:26-40 | A row is Done exactly if its check finished on a 2xx page that is indexable and has the link, Problem if it finished otherwise; the sheet tells a canonical mismatch apart. |
| RowStatus.NofollowInPlainTerms | apps/web/src/lib/status.ts:53-63 | An occurrence is nofollow exactly if one of its relations is nofollow, sponsored or ugc, in any mix of small and capital letters. |
| RowStatus.FollowInPlainTerms | apps/worker/src/modules/sheets/sheets-task.service.ts:403-414 | A row is dofollow exactly if one of its occurrences is not nofollow; the table shows no kind without occurrences, sheet and statistics none for a row that is not found. |
| Stats.TallyIsExact | apps/api/src/modules/stats/stats.service.ts:166-169 | The map holds exactly the hosts seen, each with its count, in first-seen order, and its counts sum to the number of rows tallied. |
| Stats.TopDonorsAreWorst | apps/api/src/modules/stats/stats.service.ts:174-177 | At most ten hosts with exact counts, ranked by count and then first seen; a host left out ranks after every host of a full list. |
| Stats.SortSorts | apps/api/src/modules/stats/stats.service.ts:207 | The sorted durations ascend and have the same members and length. |
| Stats.MeanIsNearest | apps/api/src/modules/stats/stats.service.ts:209 | The rounded mean is at most half a unit from the mean, halves going up. |
| Stats.SortKeepsCounts | apps/api/src/modules/stats/stats.service.ts:207 | Sorting is a rearrangement: every property is held by as many elements as before. |
| Stats.CountIsSize | apps/api/src/modules/stats/stats.service.ts:84-151 | Counting the rows with a property is the number of places where one stands. |
| Stats.TimesInPlainTerms | apps/api/src/modules/stats/stats.service.ts:166-169 | A host's count is its multiplicity in the list of hosts. |
| Stats.PercentileSplits | apps/api/src/modules/stats/stats.service.ts:215-220 | A percentile is a sample; at least that share of samples are no larger and less than that share are smaller. |
| Stats.TimingIsSound | apps/api/src/modules/stats/stats.service.ts:199-213 | p50 <= p95, each splits the samples at its percentage, and the average is the whole number nearest the mean, between the bounds of the samples. |
| Aggregate.TotalsAddUp | apps/api/src/modules/stats/stats.service.ts:94-111 | The four lifecycle counts partition the rows, and problem plus error equals the rows seen by the separate test. |
| Aggregate.FollowsAddUp | apps/api/src/modules/stats/stats.service.ts:113-122 | Every found row is counted as dofollow or nofollow, not both. |
| Aggregate.FlagsAddUp | apps/api/src/modules/stats/stats.service.ts:134-151 | The indexability classes and the canonical classes each cover every row once. |
| Aggregate.CodesAddUp | apps/api/src/modules/stats/stats.service.ts:124-132 | The five HTTP classes cover every row with a status code once. |
| Aggregate.TallyAccountsForProblems | apps/api/src/modules/stats/stats.service.ts:158-169 | The donor counts sum to the problem rows whose host can be read, all of them if all can. |
| Aggregate.OneMoreTotal | apps/api/src/modules/stats/stats.service.ts:94-111 | One more row adds one to the total and to exactly the lifecycle counter of what it is: sound, finished but not sound, failed, or not finished. |
| Aggregate.OneMoreFound | apps/api/src/modules/stats/stats.service.ts:113-122 | A found row adds one to the found rows and to dofollow or nofollow, by its occurrences. |
| Aggregate.OneMoreCode | apps/api/src/modules/stats/stats.service.ts:124-132 | A row with a status code adds one to the counter of its range, 404 by itself, any other code to the rest. |
| Aggregate.OneMoreFlag | apps/api/src/modules/stats/stats.service.ts:134-151 | A row adds one to its indexability counter and to its canonical counter. |
| Aggregate.OneMoreSample | apps/api/src/modules/stats/stats.service.ts:153-169 | The timing is over the positive durations of the rows; the donor tally over the readable hosts of the failed rows and of the finished ones that are not sound. |
| Aggregate.StatsInPlainTerms | apps/api/src/modules/stats/stats.service.ts:84-189 | Of no rows there is nothing to count and no timing. |
| Aggregate.Aggregate | apps/api/src/modules/stats/stats.service.ts:84-189 | The one pass over mutable counters ends with each counter equal to the number of rows the table would show that way. |
| Csv.FileRoundTrip | apps/web/src/lib/csv-export.ts:34-56 | A reader after RFC 4180 section 2, with LF between records, gets back exactly the header and the cells of any table. |
| Csv.CsvRoundTrip | apps/web/src/lib/csv-export.ts:28-56 | Read back, the exported file is the header and the eleven cell strings of every row, whatever the cells contain. |
| Csv.CsvIsInjective | apps/web/src/lib/csv-export.ts:34-56 | Equal files come from equal cells. |
| Csv.CellsDetermineRow | apps/web/src/lib/csv-export.ts:39-50 | Rows with the same cells have the same URLs, numbers, flags and follow kind, and the same verdict, which the label alone does not tell. |
| Csv.FileInPlainTerms | apps/web/src/lib/csv-export.ts:28-56 | The text of the file: the header bare with commas in between, a line feed before every row, every cell in quotes with a comma between two. |
| Csv.QuotesInPlainTerms | apps/web/src/lib/csv-export.ts:28-32 | Escaping doubles each quote and leaves every other character. |
| Csv.ExportSaysItsRows | apps/web/src/lib/csv-export.ts:14-56 | In the exported file as a reader gets it back, each record says about its row, column by column, what the header record promises. |
| Columns.IndexOfName | packages/shared/src/columns.ts:14-38 | Every index survives a trip through its letters. |
| Columns.NameOfIndex | packages/shared/src/columns.ts:14-38 | Every letter string survives a trip through its index up to case; exactly the non-columns have none. |
| Columns.LettersInPlainTerms | packages/shared/src/columns.ts:14-24 | A letter, small or capital, stands for its place in the alphabet, counting from 0; no other single character is a column. |
| Columns.OneMoreLetter | packages/shared/src/columns.ts:14-24 | One more letter at the end is one more digit in base 26, counting from 1. |
| Columns.SheetOrderIsIndexOrder | packages/shared/src/columns.ts:14-24 | Shorter first, then alphabetical, is the order of indices, in both directions. |
| Columns.OffsetsAdd | packages/shared/src/columns.ts:41-43 | Offsets add up exactly as long as no intermediate index is negative. |
| Columns.ColLetterToIndex | packages/shared/src/columns.ts:14-24 | The loop computes the specified index, or the error for anything but letters. |
| Columns.IndexToColLetter | packages/shared/src/columns.ts:26-38 | The loop computes the specified letters, or the error for a negative index. |
| SheetUrl.PrintedUrlReadsBack | packages/shared/src/sheets-url.ts:21-40 | The link the edit dialog prints for a spreadsheet and a tab is parsed as that spreadsheet and that tab. |
| SheetUrl.ParsingIsIdempotent | apps/web/src/components/SheetsTaskDialog.tsx:78 | Whatever is accepted has a proper id and a nonnegative tab, and printing and parsing it again gives the same; a bare id means the first tab. |
| SheetUrl.FindsPrintedId | packages/shared/src/sheets-url.ts:17-33 | The leftmost match of the id pattern in a printed link is the id. |
| SheetUrl.FindsLeftmostId | packages/shared/src/sheets-url.ts:17-33 | The id found in any text is the leftmost one: behind the mark, at least twenty id characters, as many as there are; none is found exactly if there is none. |
| SheetUrl.FindsLeftmostGid | packages/shared/src/sheets-url.ts:19-36 | The tab found in any text is the number of the leftmost gid parameter behind `?`, `#` or `&`; none exactly if there is none. |
| SheetUrl.ParseInPlainTerms | packages/shared/src/sheets-url.ts:21-40 | A trimmed bare id is the first tab of that spreadsheet; anything else needs an id in it, and is the tab it names or the first. |
| SheetUrl.PrintInPlainTerms | apps/web/src/components/SheetsTaskDialog.tsx:78 | The link the dialog shows, letter by letter. |
| SheetUrl.CharsInPlainTerms | packages/shared/src/sheets-url.ts:17-19 | Exactly which characters an id, a number and the lead of a gid parameter are made of. |
| Recheck.AcceptedFarApart | apps/api/src/modules/links/links.service.ts:224-234 | Accepted rechecks of a link are more than a cooldown apart in whatever order the database applied the requests. |
| Recheck.OneMoreAttempt | apps/api/src/modules/links/links.service.ts:224-234 | After any requests, one more is accepted if and only if no stamp is in force or the one in force is more than a minute older than the request; the stamp it writes is its own. |
| Recheck.ConcurrentRequests | apps/api/src/modules/links/links.service.ts:196-234 | Of any number of requests for a link without a stamp, made within a minute of each other, exactly one is accepted. |
| Recheck.WindowAdmits | apps/api/src/modules/links/links.service.ts:224-234 | A window of length W admits at most W / cooldown + 1 rechecks of a link. |
| Recheck.AdvertisedWait | apps/api/src/modules/links/links.service.ts:236-248 | Waiting the advertised seconds plus a millisecond always suffices; the exact second suffices if and only if the time left was not a whole positive number of seconds. |
| Recheck.WaitInPlainTerms | apps/api/src/modules/links/links.service.ts:244 | The advertised wait is the least whole number of seconds, one at the least, that is not less than what is left of the cooldown. |
| Recheck.LinkTable.Update | apps/api/src/modules/links/links.service.ts:224-234 | It stamps the row and reports 1 if the row exists and has no stamp, or one more than 60 000 ms before the request; any other row and every other link stays as it is, and 0 is reported. |
| Recheck.LinkTable.RecheckOne | apps/api/src/modules/links/links.service.ts:203-258 | Given what others do between its statements: somebody else's link is not found, a manual link of a locked project is refused; otherwise it is queued, with its project and source, if and only if its update found the row open, and only then stamped; a refused one is told the wait from the stamp it reads back; table and queue afterwards are stated on every path. |

## Left out

- Redis, the database, the job queue, the crawling provider, the spreadsheet service and the event stream as transports: each is a store with atomic steps, or a reply that may be anything.
- HTML parsing, URL parsing and host extraction: parameters.
- Clock skew between workers, except in the limiter's bound over forward jumps.
- Floating point: token arithmetic is exact, `0.95 * n` is the exact product, and the percentage of a bulk run is the exact quotient with halves rounded up, where doubles can fall just below a half: 57 of 200 links are 28 there and 29 here.
- JavaScript number limits: a gid with more than fifteen digits, and dates, are unbounded integers here.
- The instant of expiry: Redis may still serve a key within its last millisecond.
- Links or projects deleted, or moved to other owners, while a check of them is running, except in the replica and in a recheck.
- Heartbeat timers inside one call: the protocol has beats as steps of their own, the classes hold the lock for one run without them, and the sheets run, whose lock life is the same as the bulk check's, is not repeated as a protocol.
- Events of the sheets run (`sheets_task_updated`, `sheets_task_progress`) and the updates they make to the browser's cache; lock, progress and done events in the cache.
- Colours, weights, column widths and the title lookup of the result block; the local time format is a parameter.
- The message of a FAILED sheets run is a fixed text.
- Unicode case mapping: letters are compared and raised as ASCII.
- Browser download, dialogs, authentication, project and task editing, schedules and health checks: no deep invariant.
- ManualCheck.ManualCheckProcessor.Handle: an error strikes while a chunk is being checked; errors of the queueing statement, of the counts and of the job's own progress write are not told apart from that. The link events of a chunk cut short, the job's heartbeats, and checks that go on after a failed run has returned are left to the protocols.
- Edits of the sheet by anybody else between the reading of its rows and the writing of the results: the result block is written over the sheet as it was read.
- Rechecks of a single link of a sheets task while its run is on, which the API does not refuse (apps/api/src/modules/links/links.service.ts:216): the links of a run are checked by that run alone.
- ProjectStream.ReplicaConverges: assumes that every event is delivered in publish order and that one link is processed by one processor at a time. The refetch a browser makes after `lock_changed` or after a sheets run ends is not a step; it begins a new snapshot.
- SheetsTask.SheetsTaskService.Run: an error during the batch strikes before the links are in the table or while they are being checked; a failing lookup after a failed run changes nothing and is not reported; a task whose columns are not letters, which the API refuses, is excluded.
