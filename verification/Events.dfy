/**
 * The project event channel (apps/worker/src/modules/queue/progress.publisher.ts).
 * A published event is one more entry of a log.
 */
module Events {
  import opened Options
  import opened LinkRows

  datatype Event =
    | LinkUpdated(linkId: LinkId, projectId: ProjectId, fields: LiveFields)
    | LockChanged(projectId: ProjectId, manualChecking: bool)
    | Progress(projectId: ProjectId, counts: Counts)
    | DoneEvent(projectId: ProjectId, total: nat, found: nat, errors: nat)

  /** The six columns a link_updated event carries. */
  datatype LiveFields = LiveFields(
    status: Status, linkFound: Option<bool>, occurrencesCount: nat,
    donorStatusCode: Option<int>, error: Option<string>, lastCheckedAt: Option<int>)

  /** What is announced when a check begins. */
  const CHECKING_FIELDS: LiveFields := LiveFields(CHECKING, None, 0, None, None, None)

  function FieldsOf(row: Link): LiveFields {
    LiveFields(row.status, row.linkFound, row.occurrencesCount, row.donorStatusCode, row.error, row.lastCheckedAt)
  }

  const SSE_THROTTLE_MS: nat := 500

  class ProgressPublisher {
    var log: seq<Event>
    /** When a progress event of each project was last let through. */
    var progressThrottle: map<ProjectId, int>

    constructor ()
      ensures log == [] && progressThrottle == map[]
    {
      log, progressThrottle := [], map[];
    }

    function LastProgress(project: ProjectId): int
      reads this
    {
      if project in progressThrottle then progressThrottle[project] else 0
    }

    method PublishNow(e: Event)
      modifies this`log
      ensures log == old(log) + [e]
    {
      log := log + [e];
    }

    /** A project's progress event is dropped if it comes less than half a second after its last one. */
    method Publish(e: Event, now: int)
      modifies this
      ensures var dropped := e.Progress? && now < old(LastProgress(e.projectId)) + 500;
        && log == (if dropped then old(log) else old(log) + [e])
        && progressThrottle == if e.Progress? && !dropped then old(progressThrottle)[e.projectId := now]
                               else old(progressThrottle)
    {
      if e.Progress? {
        if now - LastProgress(e.projectId) < SSE_THROTTLE_MS { return; }
        progressThrottle := progressThrottle[e.projectId := now];
      }
      log := log + [e];
    }
  }
}
