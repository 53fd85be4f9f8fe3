/**
 * Any number of bulk-check jobs over any number of projects and workers
 * (apps/worker/src/modules/queue/manual-check.processor.ts, `handle`). A run goes
 * lock, flag, event, work, and then through `finally`: flag, event, unlock. Each
 * `await` is a step boundary; a run is a list of labels, and a label that is not
 * enabled changes nothing.
 */
module ManualCheckProtocol {
  import opened Options
  import Locks = LockManager

  type RunId = nat
  type ProjectId = nat
  type Token = Locks.Token

  /**
   * `Stuck` is a run that returned although deleting its lock failed, `Lost` one that was
   * granted the lock but never heard so; a crash remembers where it struck.
   */
  datatype Phase =
    | Waiting | Skipped
    | Acquired | Flagged | Working | InFinally | FlagCleared | Retracted
    | Finished | Stuck | Lost | Crashed(at: Phase)

  /** `raised`: it has put the flag up; `clearFailed`: its attempt to take it down failed. */
  datatype Job = Job(
    project: ProjectId, phase: Phase, token: Option<Token>, leaseUntil: int, raised: bool, clearFailed: bool)

  /**
   * A project as everyone sees it: the lock key, the manualChecking column, and the
   * lock_changed events published so far. `holder`, `setter` and `announcer` record
   * which run last took the lock, raised the flag and announced it, `clearedByOther`
   * whether another run has taken that flag down since, and `retractedByOther` whether
   * another run has published `false` since.
   */
  datatype Project = Project(
    lock: Option<Locks.Cell>, flag: bool, events: seq<bool>,
    holder: RunId, setter: RunId, announcer: RunId,
    clearedByOther: bool, retractedByOther: bool)

  const NEW_PROJECT: Project := Project(None, false, [], 0, 0, 0, false, false)

  datatype System = System(
    now: int, used: set<Token>, projects: map<ProjectId, Project>, runs: map<RunId, Job>)

  datatype Label =
    | Tick(ms: nat)
    | Begin(r: RunId, project: ProjectId)
    | TryLock(r: RunId, token: Token)
    | LockReplyLost(r: RunId, token: Token)
    | SetFlag(r: RunId)
    | Announce(r: RunId)
    | EnterFinally(r: RunId)
    | ClearFlag(r: RunId, ok: bool)
    | Retract(r: RunId)
    | Unlock(r: RunId, ok: bool)
    | Beat(r: RunId)
    | Crash(r: RunId)

  function Initial(start: int): System {
    System(start, {}, map[], map[])
  }

  /** Past `acquire` and not yet returned. */
  predicate Active(p: Phase) {
    p == Acquired || p == Flagged || p == Working || p == InFinally || p == FlagCleared || p == Retracted
  }

  predicate In(s: System, r: RunId, p: Phase) {
    r in s.runs && s.runs[r].phase == p
  }

  /** The try block is left by an error of the first write, or when the work ends or fails. */
  predicate Enabled(s: System, l: Label) {
    match l
    case Tick(_) => true
    case Begin(r, _) => r !in s.runs
    case TryLock(r, token) => In(s, r, Waiting) && token !in s.used
    case LockReplyLost(r, token) => In(s, r, Waiting) && token !in s.used
    case SetFlag(r) => In(s, r, Acquired)
    case Announce(r) => In(s, r, Flagged)
    case EnterFinally(r) => In(s, r, Acquired) || In(s, r, Working)
    case ClearFlag(r, _) => In(s, r, InFinally)
    case Retract(r) => In(s, r, FlagCleared)
    case Unlock(r, _) => In(s, r, Retracted)
    case Beat(r) => r in s.runs && Active(s.runs[r].phase)
    case Crash(r) => r in s.runs && Active(s.runs[r].phase)
  }

  function ProjectOf(s: System, p: ProjectId): Project {
    if p in s.projects then s.projects[p] else NEW_PROJECT
  }

  /** The project a step works on. */
  function Target(s: System, l: Label): ProjectId
    requires Enabled(s, l) && !l.Tick?
  {
    if l.Begin? then l.project else s.runs[l.r].project
  }

  /** Steps that run the acquire command. */
  predicate Asks(l: Label) {
    l.TryLock? || l.LockReplyLost?
  }

  function LockAnswer(s: System, ttl: nat, l: Label): (Option<Locks.Cell>, bool)
    requires Enabled(s, l) && Asks(l)
  {
    Locks.AcquireStep(ProjectOf(s, s.runs[l.r].project).lock, s.now, ttl, l.token)
  }

  function JobAfter(s: System, ttl: nat, l: Label): Job
    requires Enabled(s, l) && !l.Tick?
  {
    if l.Begin? then Job(l.project, Waiting, None, s.now, false, false)
    else
      var job := s.runs[l.r];
      match l
      case TryLock(_, token) =>
        if LockAnswer(s, ttl, l).1
        then job.(phase := Acquired, token := Some(token), leaseUntil := s.now + ttl)
        else job.(phase := Skipped)
      case LockReplyLost(_, token) =>
        if LockAnswer(s, ttl, l).1 then job.(phase := Lost, token := Some(token)) else job.(phase := Skipped)
      case SetFlag(_) => job.(phase := Flagged, raised := true)
      case Announce(_) => job.(phase := Working)
      case EnterFinally(_) => job.(phase := InFinally)
      case ClearFlag(_, ok) => job.(phase := FlagCleared, clearFailed := !ok)
      case Retract(_) => job.(phase := Retracted)
      case Unlock(_, ok) => job.(phase := if ok then Finished else Stuck)
      case Beat(_) =>
        if job.token.Some? && Locks.Holds(ProjectOf(s, job.project).lock, s.now, job.token.value)
        then job.(leaseUntil := s.now + ttl) else job
      case Crash(_) => job.(phase := Crashed(job.phase))
  }

  function ProjectAfter(s: System, ttl: nat, l: Label): Project
    requires Enabled(s, l) && !l.Tick?
  {
    var p := ProjectOf(s, Target(s, l));
    match l
    case TryLock(r, _) =>
      var (cell, ok) := LockAnswer(s, ttl, l);
      p.(lock := cell, holder := if ok then r else p.holder)
    case LockReplyLost(r, _) =>
      var (cell, ok) := LockAnswer(s, ttl, l);
      p.(lock := cell, holder := if ok then r else p.holder)
    case SetFlag(r) => p.(flag := true, setter := r, clearedByOther := false)
    case Announce(r) => p.(events := p.events + [true], announcer := r, retractedByOther := false)
    case ClearFlag(r, ok) =>
      if ok then p.(flag := false, clearedByOther := p.clearedByOther || r != p.setter) else p
    case Retract(r) =>
      p.(events := p.events + [false], retractedByOther := p.retractedByOther || r != p.announcer)
    case Unlock(r, ok) =>
      if ok && s.runs[r].token.Some?
      then p.(lock := Locks.ReleaseStep(p.lock, s.now, s.runs[r].token.value).0) else p
    case Beat(r) =>
      if s.runs[r].token.Some?
      then p.(lock := Locks.HeartbeatStep(p.lock, s.now, ttl, s.runs[r].token.value).0) else p
    case _ => p
  }

  function Apply(s: System, ttl: nat, l: Label): System
    requires Enabled(s, l)
  {
    if l.Tick? then s.(now := s.now + l.ms)
    else s.(
      used := if Asks(l) then s.used + {l.token} else s.used,
      projects := s.projects[Target(s, l) := ProjectAfter(s, ttl, l)],
      runs := s.runs[l.r := JobAfter(s, ttl, l)])
  }

  /** A step rewrites one run and one project. */
  lemma ApplyRewrites(s: System, ttl: nat, l: Label)
    requires Enabled(s, l) && !l.Tick?
    ensures var s' := Apply(s, ttl, l);
      && l.r in s'.runs && s'.runs[l.r] == JobAfter(s, ttl, l) && s'.runs[l.r].project == Target(s, l)
      && ProjectOf(s', Target(s, l)) == ProjectAfter(s, ttl, l) && s'.now == s.now
  {
  }

  function Next(s: System, ttl: nat, l: Label): System {
    if Enabled(s, l) then Apply(s, ttl, l) else s
  }

  function Run(s: System, ttl: nat, labels: seq<Label>): System
    decreases labels
  {
    if labels == [] then s else Run(Next(s, ttl, labels[0]), ttl, labels[1..])
  }

  // ----- the lock -----

  ghost predicate TokensApart(s: System) {
    && (forall r :: r in s.runs && s.runs[r].token.Some? ==> s.runs[r].token.value in s.used)
    && (forall r, q :: r in s.runs && q in s.runs && r != q && s.runs[r].token.Some? ==>
          s.runs[r].token != s.runs[q].token)
  }

  /** Until its lease runs out, an active run's own token is in the key, with that lease. */
  predicate LeaseStands(s: System, r: RunId)
    requires r in s.runs
  {
    var job := s.runs[r];
    Active(job.phase) ==>
      job.token.Some? &&
      (s.now < job.leaseUntil ==>
        ProjectOf(s, job.project).lock == Some(Locks.Cell(job.token.value, job.leaseUntil)))
  }

  /** A run that may still be named in the key. */
  predicate MayHold(p: Phase) {
    Active(p) || p == Stuck || p == Lost || p.Crashed?
  }

  /** The key names the run that took it last, and that run has not released it. */
  predicate LockOwned(s: System, p: ProjectId) {
    var project := ProjectOf(s, p);
    project.lock.Some? ==>
      project.holder in s.runs &&
      s.runs[project.holder].project == p &&
      s.runs[project.holder].token == Some(project.lock.value.token) &&
      MayHold(s.runs[project.holder].phase)
  }

  ghost predicate LeasesStand(s: System) {
    forall r :: r in s.runs ==> LeaseStands(s, r)
  }

  ghost predicate LocksOwned(s: System) {
    forall p :: p in s.projects ==> LockOwned(s, p)
  }

  ghost predicate NoTokenYet(s: System) {
    forall r :: r in s.runs && s.runs[r].phase == Waiting ==> s.runs[r].token.None?
  }

  ghost predicate LockInv(s: System) {
    TokensApart(s) && LeasesStand(s) && LocksOwned(s) && NoTokenYet(s)
  }

  /** A run keeps its token or draws one nobody had. */
  lemma TokenKeptOrNew(s: System, ttl: nat, l: Label)
    requires Enabled(s, l) && !l.Tick?
    ensures var token := JobAfter(s, ttl, l).token;
      || token.None?
      || (l.r in s.runs && token == s.runs[l.r].token)
      || (Asks(l) && token == Some(l.token) && l.token !in s.used)
  {
  }

  lemma StepKeepsTokensApart(s: System, ttl: nat, l: Label)
    requires TokensApart(s)
    ensures TokensApart(Next(s, ttl, l))
  {
    if Enabled(s, l) && !l.Tick? { TokenKeptOrNew(s, ttl, l); }
  }

  lemma StepKeepsNoTokenYet(s: System, ttl: nat, l: Label)
    requires NoTokenYet(s)
    ensures NoTokenYet(Next(s, ttl, l))
  {
  }

  /** No step of one run touches a lock under another run's standing lease. */
  lemma LockUnderLease(s: System, ttl: nat, l: Label, q: RunId)
    requires LockInv(s) && Enabled(s, l) && !l.Tick? && q in s.runs && q != l.r
    requires Active(s.runs[q].phase) && s.now < s.runs[q].leaseUntil
    requires s.runs[q].project == Target(s, l)
    ensures ProjectAfter(s, ttl, l).lock == ProjectOf(s, Target(s, l)).lock
  {
    assert LeaseStands(s, q);
    if !l.Begin? { assert LeaseStands(s, l.r); }
  }

  /** Taking the lock and beating leave the lease they record in the key. */
  lemma LockStepLeavesLease(s: System, ttl: nat, l: Label)
    requires LockInv(s) && Enabled(s, l) && (l.TryLock? || l.Beat?)
    ensures var job := JobAfter(s, ttl, l);
      Active(job.phase) ==>
        job.token.Some? &&
        (s.now < job.leaseUntil ==>
          ProjectAfter(s, ttl, l).lock == Some(Locks.Cell(job.token.value, job.leaseUntil)))
  {
    assert LeaseStands(s, l.r);
  }

  lemma OwnLeaseStands(s: System, ttl: nat, l: Label)
    requires LockInv(s) && Enabled(s, l) && !l.Tick?
    ensures LeaseStands(Apply(s, ttl, l), l.r)
  {
    ApplyRewrites(s, ttl, l);
    if l.TryLock? || l.Beat? {
      LockStepLeavesLease(s, ttl, l);
    } else if !l.Begin? {
      assert LeaseStands(s, l.r);
    }
  }

  lemma StepKeepsLeases(s: System, ttl: nat, l: Label)
    requires LockInv(s)
    ensures LeasesStand(Next(s, ttl, l))
  {
    var s' := Next(s, ttl, l);
    forall q | q in s'.runs ensures LeaseStands(s', q) {
      if q in s.runs { assert LeaseStands(s, q); }
      if Enabled(s, l) && !l.Tick? {
        if q == l.r {
          OwnLeaseStands(s, ttl, l);
        } else if Active(s.runs[q].phase) && s.now < s.runs[q].leaseUntil && s.runs[q].project == Target(s, l) {
          LockUnderLease(s, ttl, l, q);
        }
      }
    }
  }

  lemma TargetStaysOwned(s: System, ttl: nat, l: Label)
    requires LockInv(s) && Enabled(s, l) && !l.Tick?
    ensures LockOwned(Apply(s, ttl, l), Target(s, l))
  {
    ApplyRewrites(s, ttl, l);
    if Target(s, l) in s.projects { assert LockOwned(s, Target(s, l)); }
    if !l.Begin? { assert LeaseStands(s, l.r); }
  }

  lemma StepKeepsOwners(s: System, ttl: nat, l: Label)
    requires LockInv(s)
    ensures LocksOwned(Next(s, ttl, l))
  {
    var s' := Next(s, ttl, l);
    forall p | p in s'.projects ensures LockOwned(s', p) {
      if Enabled(s, l) && !l.Tick? && p == Target(s, l) {
        TargetStaysOwned(s, ttl, l);
      } else {
        assert LockOwned(s, p);
      }
    }
  }

  lemma StepKeepsLocks(s: System, ttl: nat, l: Label)
    requires LockInv(s)
    ensures LockInv(Next(s, ttl, l))
  {
    StepKeepsTokensApart(s, ttl, l);
    StepKeepsNoTokenYet(s, ttl, l);
    StepKeepsLeases(s, ttl, l);
    StepKeepsOwners(s, ttl, l);
  }

  lemma {:induction false} RunKeepsLocks(s: System, ttl: nat, labels: seq<Label>)
    requires LockInv(s)
    ensures LockInv(Run(s, ttl, labels))
    decreases labels
  {
    if labels != [] {
      StepKeepsLocks(s, ttl, labels[0]);
      RunKeepsLocks(Next(s, ttl, labels[0]), ttl, labels[1..]);
    }
  }

  /**
   * One run per project: in every reachable state, crashes and failed cleanups
   * included, two runs of a project past `acquire` cannot both hold a lease that
   * has not run out.
   */
  lemma OneLeasedRunPerProject(start: int, ttl: nat, labels: seq<Label>, r: RunId, q: RunId)
    requires var s := Run(Initial(start), ttl, labels);
      && r in s.runs && q in s.runs && s.runs[r].project == s.runs[q].project
      && Active(s.runs[r].phase) && s.now < s.runs[r].leaseUntil
      && Active(s.runs[q].phase) && s.now < s.runs[q].leaseUntil
    ensures r == q
  {
    RunKeepsLocks(Initial(start), ttl, labels);
    var s := Run(Initial(start), ttl, labels);
    assert LeaseStands(s, r) && LeaseStands(s, q);
  }

  // ----- the flag of a project, in any run -----

  predicate OnProject(s: System, r: RunId, p: ProjectId) {
    r in s.runs && s.runs[r].project == p
  }

  predicate Concerns(s: System, l: Label, p: ProjectId) {
    Enabled(s, l) && !l.Tick? && Target(s, l) == p
  }

  predicate BetweenRaiseAndClear(p: Phase) {
    p == Flagged || p == Working || p == InFinally
  }

  /** A run that raised the flag and then died before taking it down, or failed to. */
  predicate LeftFlagUp(job: Job) {
    job.raised && (job.clearFailed || (job.phase.Crashed? && BetweenRaiseAndClear(job.phase.at)))
  }

  /** Up: the last run that raised it has not taken it down, and nobody else has since. */
  predicate FlagExact(s: System, p: ProjectId) {
    var project := ProjectOf(s, p);
    project.flag <==>
      && OnProject(s, project.setter, p) && !project.clearedByOther
      && var job := s.runs[project.setter];
         LeftFlagUp(job) || (job.raised && BetweenRaiseAndClear(job.phase))
  }

  /** Where a run is, or was when it died. */
  function LastPhase(p: Phase): Phase {
    if p.Crashed? then p.at else p
  }

  /** The flag goes up once, on the way from the lock to the announcement. */
  ghost predicate RaisedInOrder(s: System) {
    forall r :: r in s.runs ==>
      && (s.runs[r].phase in {Waiting, Skipped, Lost, Acquired} ==> !s.runs[r].raised)
      && (LastPhase(s.runs[r].phase) in {Flagged, Working} ==> s.runs[r].raised)
  }

  lemma StepKeepsOrder(s: System, ttl: nat, l: Label)
    requires RaisedInOrder(s)
    ensures RaisedInOrder(Next(s, ttl, l))
  {
    if Enabled(s, l) && !l.Tick? { ApplyRewrites(s, ttl, l); }
  }

  lemma StepKeepsFlagExact(s: System, ttl: nat, l: Label, p: ProjectId)
    requires FlagExact(s, p) && RaisedInOrder(s)
    ensures FlagExact(Next(s, ttl, l), p)
  {
    if Concerns(s, l, p) { ApplyRewrites(s, ttl, l); }
  }

  lemma {:induction false} RunKeepsFlagExact(s: System, ttl: nat, labels: seq<Label>, p: ProjectId)
    requires FlagExact(s, p) && RaisedInOrder(s)
    ensures FlagExact(Run(s, ttl, labels), p)
    decreases labels
  {
    if labels != [] {
      StepKeepsFlagExact(s, ttl, labels[0], p);
      StepKeepsOrder(s, ttl, labels[0]);
      RunKeepsFlagExact(Next(s, ttl, labels[0]), ttl, labels[1..], p);
    }
  }

  ghost predicate NobodyActive(s: System, p: ProjectId) {
    forall r :: OnProject(s, r, p) ==> !Active(s.runs[r].phase)
  }

  /**
   * In every run: with nobody past `acquire`, the flag is up if and only if the last run
   * that raised it died before its cleanup or failed it, and no other run has taken it
   * down since.
   */
  lemma FlagIsUpIff(start: int, ttl: nat, labels: seq<Label>, p: ProjectId)
    requires NobodyActive(Run(Initial(start), ttl, labels), p)
    ensures var s := Run(Initial(start), ttl, labels);
      var project := ProjectOf(s, p);
      project.flag <==>
        OnProject(s, project.setter, p) && LeftFlagUp(s.runs[project.setter]) && !project.clearedByOther
  {
    RunKeepsFlagExact(Initial(start), ttl, labels, p);
    var s := Run(Initial(start), ttl, labels);
    if OnProject(s, ProjectOf(s, p).setter, p) { assert !Active(s.runs[ProjectOf(s, p).setter].phase); }
  }

  /** Every run of the project past `acquire` has beaten within its TTL. */
  ghost predicate LeasesKept(s: System, p: ProjectId) {
    forall r :: OnProject(s, r, p) && Active(s.runs[r].phase) ==> s.now < s.runs[r].leaseUntil
  }

  /** No run of the project has left the flag up for good. */
  ghost predicate NobodyLeftFlagUp(s: System, p: ProjectId) {
    forall r :: OnProject(s, r, p) ==> !LeftFlagUp(s.runs[r])
  }

  /**
   * The flag mirrors the lock: when no run of the project has left it up and its active
   * runs hold their leases, a raised manualChecking flag means that the run which raised
   * it still holds the lock. What happens on other projects does not matter.
   */
  lemma FlagMirrorsLock(start: int, ttl: nat, labels: seq<Label>, p: ProjectId)
    requires var s := Run(Initial(start), ttl, labels); LeasesKept(s, p) && NobodyLeftFlagUp(s, p)
    ensures var s := Run(Initial(start), ttl, labels);
      var project := ProjectOf(s, p);
      project.flag ==>
        && OnProject(s, project.setter, p) && Active(s.runs[project.setter].phase)
        && s.runs[project.setter].token.Some?
        && Locks.Holds(project.lock, s.now, s.runs[project.setter].token.value)
  {
    RunKeepsLocks(Initial(start), ttl, labels);
    RunKeepsFlagExact(Initial(start), ttl, labels, p);
    var s := Run(Initial(start), ttl, labels);
    if ProjectOf(s, p).flag { assert LeaseStands(s, ProjectOf(s, p).setter); }
  }

  // ----- the lock events of a project, in any run -----

  predicate Announced(p: Project) {
    p.events != [] && p.events[|p.events| - 1]
  }

  predicate Alternating(events: seq<bool>) {
    forall i :: 0 <= i < |events| - 1 ==> !(events[i] && events[i + 1])
  }

  /** A run between its `true` and its `false`, or one that died there. */
  predicate HasAnnounced(job: Job) {
    var p := LastPhase(job.phase);
    p == Working || ((p == InFinally || p == FlagCleared) && job.raised)
  }

  /** The announcement of the run that made the last one still stands. */
  predicate AnnouncementStands(s: System, p: ProjectId) {
    var project := ProjectOf(s, p);
    OnProject(s, project.announcer, p) && HasAnnounced(s.runs[project.announcer]) && !project.retractedByOther
  }

  predicate EventExact(s: System, p: ProjectId) {
    Announced(ProjectOf(s, p)) <==> AnnouncementStands(s, p)
  }

  /** Only the two events themselves begin and end it. */
  lemma AnnouncedFromTo(s: System, ttl: nat, l: Label)
    requires Enabled(s, l) && !l.Tick? && RaisedInOrder(s)
    ensures HasAnnounced(JobAfter(s, ttl, l)) ==
      if l.Announce? then true
      else if l.Retract? || l.Begin? then false
      else HasAnnounced(s.runs[l.r])
  {
  }

  /** A step leaves the other runs of its project as they were. */
  lemma OthersStay(s: System, ttl: nat, l: Label, q: RunId)
    requires Enabled(s, l) && !l.Tick? && q != l.r
    ensures var s' := Apply(s, ttl, l);
      (q in s'.runs <==> q in s.runs) && (q in s.runs ==> s'.runs[q] == s.runs[q])
  {
  }

  lemma StepKeepsEventExact(s: System, ttl: nat, l: Label, p: ProjectId)
    requires EventExact(s, p) && RaisedInOrder(s)
    ensures EventExact(Next(s, ttl, l), p)
  {
    if Concerns(s, l, p) { TargetKeepsEventExact(s, ttl, l); }
  }

  lemma TargetKeepsEventExact(s: System, ttl: nat, l: Label)
    requires Enabled(s, l) && !l.Tick? && RaisedInOrder(s) && EventExact(s, Target(s, l))
    ensures EventExact(Apply(s, ttl, l), Target(s, l))
  {
    var project := ProjectOf(s, Target(s, l));
    ApplyRewrites(s, ttl, l);
    AnnouncedFromTo(s, ttl, l);
    if project.announcer != l.r { OthersStay(s, ttl, l, project.announcer); }
    if l.Announce? || l.Retract? {
      assert Announced(ProjectAfter(s, ttl, l)) == l.Announce?;
    } else {
      assert ProjectAfter(s, ttl, l).events == project.events;
    }
  }

  lemma {:induction false} RunKeepsEventExact(s: System, ttl: nat, labels: seq<Label>, p: ProjectId)
    requires EventExact(s, p) && RaisedInOrder(s)
    ensures EventExact(Run(s, ttl, labels), p) && RaisedInOrder(Run(s, ttl, labels))
    decreases labels
  {
    if labels != [] {
      StepKeepsEventExact(s, ttl, labels[0], p);
      StepKeepsOrder(s, ttl, labels[0]);
      RunKeepsEventExact(Next(s, ttl, labels[0]), ttl, labels[1..], p);
    }
  }

  /**
   * In every run: the last lock event of a project is `true` if and only if the run that
   * published the last `true` is, or died, between its two events, and no other run has
   * published `false` since.
   */
  lemma LastEventIsTrueIff(start: int, ttl: nat, labels: seq<Label>, p: ProjectId)
    ensures var s := Run(Initial(start), ttl, labels);
      Announced(ProjectOf(s, p)) <==> AnnouncementStands(s, p)
  {
    RunKeepsEventExact(Initial(start), ttl, labels, p);
  }

  lemma EventsGrow(events: seq<bool>, e: bool)
    ensures Alternating(events + [e]) <==> Alternating(events) && !(e && events != [] && events[|events| - 1])
  {
    var more := events + [e];
    if events != [] { assert more[|events| - 1] == events[|events| - 1] && more[|events|] == e; }
    if Alternating(more) {
      forall i | 0 <= i < |events| - 1 ensures !(events[i] && events[i + 1]) {
        assert more[i] == events[i] && more[i + 1] == events[i + 1];
      }
    }
  }

  /** This step publishes a second `true`. */
  predicate AnnouncesTwice(s: System, l: Label, p: ProjectId) {
    l.Announce? && Concerns(s, l, p) && AnnouncementStands(s, p)
  }

  /** One step breaks the alternation exactly if it announces over a standing announcement. */
  lemma StepAlternatesIff(s: System, ttl: nat, l: Label, p: ProjectId)
    requires EventExact(s, p)
    ensures Alternating(ProjectOf(Next(s, ttl, l), p).events)
      <==> Alternating(ProjectOf(s, p).events) && !AnnouncesTwice(s, l, p)
  {
    if Concerns(s, l, p) {
      ApplyRewrites(s, ttl, l);
      if l.Announce? || l.Retract? { EventsGrow(ProjectOf(s, p).events, l.Announce?); }
    }
  }

  predicate NeverAnnouncesTwice(s: System, ttl: nat, labels: seq<Label>, p: ProjectId)
    decreases labels
  {
    labels == [] ||
    (!AnnouncesTwice(s, labels[0], p) && NeverAnnouncesTwice(Next(s, ttl, labels[0]), ttl, labels[1..], p))
  }

  lemma {:induction false} RunAlternatesIff(s: System, ttl: nat, labels: seq<Label>, p: ProjectId)
    requires EventExact(s, p) && RaisedInOrder(s)
    ensures Alternating(ProjectOf(Run(s, ttl, labels), p).events)
      <==> Alternating(ProjectOf(s, p).events) && NeverAnnouncesTwice(s, ttl, labels, p)
    decreases labels
  {
    if labels != [] {
      StepAlternatesIff(s, ttl, labels[0], p);
      StepKeepsEventExact(s, ttl, labels[0], p);
      StepKeepsOrder(s, ttl, labels[0]);
      RunAlternatesIff(Next(s, ttl, labels[0]), ttl, labels[1..], p);
    }
  }

  /**
   * Two `true` events come without a `false` between them if and only if some run
   * announces while the last announcement stands: its run is still at work, or died
   * before retracting, and nobody has published `false` since.
   */
  lemma EventsAlternateIff(start: int, ttl: nat, labels: seq<Label>, p: ProjectId)
    ensures Alternating(ProjectOf(Run(Initial(start), ttl, labels), p).events)
      <==> NeverAnnouncesTwice(Initial(start), ttl, labels, p)
  {
    RunAlternatesIff(Initial(start), ttl, labels, p);
  }

  /** Whenever a run of the project announces, the active runs of the project hold their leases. */
  ghost predicate AnnouncesOnLease(s: System, ttl: nat, labels: seq<Label>, p: ProjectId)
    decreases labels
  {
    labels == [] ||
    ((labels[0].Announce? && Concerns(s, labels[0], p) ==> LeasesKept(s, p)) &&
     AnnouncesOnLease(Next(s, ttl, labels[0]), ttl, labels[1..], p))
  }

  /** No run of the project died between its `true` and its `false`. */
  ghost predicate NobodyDiedAnnounced(s: System, p: ProjectId) {
    forall r :: OnProject(s, r, p) && s.runs[r].phase.Crashed? ==> !HasAnnounced(s.runs[r])
  }

  lemma {:induction false} TheDeadStayDead(s: System, ttl: nat, labels: seq<Label>, p: ProjectId)
    requires NobodyDiedAnnounced(Run(s, ttl, labels), p)
    ensures NobodyDiedAnnounced(s, p)
    decreases labels
  {
    if labels != [] {
      TheDeadStayDead(Next(s, ttl, labels[0]), ttl, labels[1..], p);
      var s' := Next(s, ttl, labels[0]);
      forall r | OnProject(s, r, p) && s.runs[r].phase.Crashed? ensures !HasAnnounced(s.runs[r]) {
        assert OnProject(s', r, p) && s'.runs[r] == s.runs[r];
      }
    }
  }

  lemma KeptLeasesAreUnique(s: System, p: ProjectId, r: RunId, q: RunId)
    requires LockInv(s) && LeasesKept(s, p) && OnProject(s, r, p) && OnProject(s, q, p)
    requires Active(s.runs[r].phase) && Active(s.runs[q].phase)
    ensures r == q
  {
    assert LeaseStands(s, r) && LeaseStands(s, q);
  }

  lemma {:induction false} OnLeaseNeverTwice(s: System, ttl: nat, labels: seq<Label>, p: ProjectId)
    requires LockInv(s) && AnnouncesOnLease(s, ttl, labels, p)
    requires NobodyDiedAnnounced(Run(s, ttl, labels), p)
    ensures NeverAnnouncesTwice(s, ttl, labels, p)
    decreases labels
  {
    if labels != [] {
      var l := labels[0];
      if AnnouncesTwice(s, l, p) {
        TheDeadStayDead(s, ttl, labels, p);
        KeptLeasesAreUnique(s, p, l.r, ProjectOf(s, p).announcer);
        assert false;
      }
      StepKeepsLocks(s, ttl, l);
      OnLeaseNeverTwice(Next(s, ttl, l), ttl, labels[1..], p);
    }
  }

  /**
   * So a project never sees two `true` events without a `false` between them, as long as
   * its runs announce on kept leases and none dies between its two events. Failed clears,
   * failed unlocks, other crashes and other projects do no harm.
   */
  lemma EventsAlternate(start: int, ttl: nat, labels: seq<Label>, p: ProjectId)
    requires AnnouncesOnLease(Initial(start), ttl, labels, p)
    requires NobodyDiedAnnounced(Run(Initial(start), ttl, labels), p)
    ensures Alternating(ProjectOf(Run(Initial(start), ttl, labels), p).events)
  {
    OnLeaseNeverTwice(Initial(start), ttl, labels, p);
    EventsAlternateIff(start, ttl, labels, p);
  }

  // ----- a project nobody works on -----

  /** No run of the project left its lock behind: deleted in vain, granted unheard, or dead. */
  ghost predicate NobodyLeftLock(s: System, p: ProjectId) {
    forall r :: OnProject(s, r, p) ==> s.runs[r].phase != Stuck && s.runs[r].phase != Lost && !s.runs[r].phase.Crashed?
  }

  /**
   * Every exit of `handle` cleans up: in any run, once no run of a project is past
   * `acquire`, the flag is down unless one left it up, the last event is not `true`
   * unless one died between its two events, and the lock is free unless one left it.
   */
  lemma QuietProjectIsClean(start: int, ttl: nat, labels: seq<Label>, p: ProjectId)
    requires NobodyActive(Run(Initial(start), ttl, labels), p)
    ensures var s := Run(Initial(start), ttl, labels);
      var project := ProjectOf(s, p);
      && (NobodyLeftFlagUp(s, p) ==> !project.flag)
      && (NobodyDiedAnnounced(s, p) ==> !Announced(project))
      && (NobodyLeftLock(s, p) ==> project.lock.None?)
  {
    RunKeepsLocks(Initial(start), ttl, labels);
    FlagIsUpIff(start, ttl, labels, p);
    LastEventIsTrueIff(start, ttl, labels, p);
    var s := Run(Initial(start), ttl, labels);
    var project := ProjectOf(s, p);
    if p in s.projects { assert LockOwned(s, p); }
    assert project.lock.Some? ==> OnProject(s, project.holder, p);
    assert AnnouncementStands(s, p) ==> s.runs[project.announcer].phase.Crashed?;
  }

  // ----- runs get through -----

  /** A run that tries takes the lock if and only if nobody holds a lease that stands; otherwise it is skipped. */
  lemma TryLockIff(s: System, ttl: nat, r: RunId, token: Token)
    requires In(s, r, Waiting) && token !in s.used
    ensures var p := s.runs[r].project;
      var s', lock := Next(s, ttl, TryLock(r, token)), ProjectOf(s, p).lock;
      var free := lock.None? || lock.value.expireAt <= s.now;
      && r in s'.runs && s'.runs[r].phase == (if free then Acquired else Skipped)
      && ProjectOf(s', p).lock == (if free then Some(Locks.Cell(token, s.now + ttl)) else lock)
      && ProjectOf(s', p).flag == ProjectOf(s, p).flag && ProjectOf(s', p).events == ProjectOf(s, p).events
  {
    ApplyRewrites(s, ttl, TryLock(r, token));
    Locks.StepsInPlainTerms(ProjectOf(s, s.runs[r].project).lock, s.now, ttl, token);
  }

  /** Run 0, alone on its project. */
  function Alone(now: int, a: Token, project: ProjectId, p: Project, job: Job): System {
    System(now, {a}, map[project := p], map[0 := job])
  }

  /** Project and run once the run is at work. */
  function AtWork(now: int, ttl: nat, a: Token, project: ProjectId): System {
    Alone(now, a, project, Project(Some(Locks.Cell(a, now + ttl)), true, [true], 0, 0, 0, false, false),
          Job(project, Working, Some(a), now + ttl, true, false))
  }

  lemma RunStarts(now: int, ttl: nat, a: Token, project: ProjectId)
    ensures Run(Initial(now), ttl, [Begin(0, project), TryLock(0, a), SetFlag(0), Announce(0)])
         == AtWork(now, ttl, a, project)
  {
    var locked := Project(Some(Locks.Cell(a, now + ttl)), false, [], 0, 0, 0, false, false);
    var job := Job(project, Acquired, Some(a), now + ttl, false, false);
    var s2 := Alone(now, a, project, locked, job);
    var s3 := Alone(now, a, project, locked.(flag := true), job.(phase := Flagged, raised := true));
    RunFour(Initial(now), ttl, Begin(0, project), TryLock(0, a), SetFlag(0), Announce(0));
    assert Next(Next(Initial(now), ttl, Begin(0, project)), ttl, TryLock(0, a)) == s2;
    assert Next(s2, ttl, SetFlag(0)) == s3;
    assert [] + [true] == [true];
    assert Next(s3, ttl, Announce(0)) == AtWork(now, ttl, a, project);
  }

  /** Project and run once the flag is down again. */
  function Cleared(now: int, ttl: nat, a: Token, project: ProjectId): System {
    Alone(now, a, project, Project(Some(Locks.Cell(a, now + ttl)), false, [true], 0, 0, 0, false, false),
          Job(project, FlagCleared, Some(a), now + ttl, true, false))
  }

  lemma FlagFalls(now: int, ttl: nat, a: Token, project: ProjectId)
    ensures Next(Next(AtWork(now, ttl, a, project), ttl, EnterFinally(0)), ttl, ClearFlag(0, true))
         == Cleared(now, ttl, a, project)
  {
    var s := Alone(now, a, project, Project(Some(Locks.Cell(a, now + ttl)), true, [true], 0, 0, 0, false, false),
                   Job(project, InFinally, Some(a), now + ttl, true, false));
    assert Next(AtWork(now, ttl, a, project), ttl, EnterFinally(0)) == s;
  }

  lemma LockIsFreed(now: int, ttl: nat, a: Token, project: ProjectId)
    requires 0 < ttl
    ensures Next(Next(Cleared(now, ttl, a, project), ttl, Retract(0)), ttl, Unlock(0, true))
         == Alone(now, a, project, Project(None, false, [true, false], 0, 0, 0, false, false),
                  Job(project, Finished, Some(a), now + ttl, true, false))
  {
    var p := Project(Some(Locks.Cell(a, now + ttl)), false, [true, false], 0, 0, 0, false, false);
    var s := Alone(now, a, project, p, Job(project, Retracted, Some(a), now + ttl, true, false));
    assert [true] + [false] == [true, false];
    assert Next(Cleared(now, ttl, a, project), ttl, Retract(0)) == s;
  }

  lemma WorkEnds(now: int, ttl: nat, a: Token, project: ProjectId)
    requires 0 < ttl
    ensures var s := Run(AtWork(now, ttl, a, project), ttl,
                         [EnterFinally(0), ClearFlag(0, true), Retract(0), Unlock(0, true)]);
      && s.projects == map[project := Project(None, false, [true, false], 0, 0, 0, false, false)]
      && s.runs == map[0 := Job(project, Finished, Some(a), now + ttl, true, false)]
  {
    RunFour(AtWork(now, ttl, a, project), ttl, EnterFinally(0), ClearFlag(0, true), Retract(0), Unlock(0, true));
    FlagFalls(now, ttl, a, project);
    LockIsFreed(now, ttl, a, project);
  }

  /** An undisturbed run takes the lock, raises and announces, and takes all three back. */
  lemma RunGetsThrough(now: int, ttl: nat, a: Token, project: ProjectId)
    requires 0 < ttl
    ensures var s := Run(Initial(now), ttl,
                         [Begin(0, project), TryLock(0, a), SetFlag(0), Announce(0)]
                         + [EnterFinally(0), ClearFlag(0, true), Retract(0), Unlock(0, true)]);
      && s.projects == map[project := Project(None, false, [true, false], 0, 0, 0, false, false)]
      && s.runs == map[0 := Job(project, Finished, Some(a), now + ttl, true, false)]
  {
    RunStarts(now, ttl, a, project);
    WorkEnds(now, ttl, a, project);
    RunConcat(Initial(now), ttl, [Begin(0, project), TryLock(0, a), SetFlag(0), Announce(0)],
              [EnterFinally(0), ClearFlag(0, true), Retract(0), Unlock(0, true)]);
  }

  // ----- a run that dies -----

  /** Job 0 of project 7 died at work, one TTL ago. */
  function DeadRun(ttl: nat, a: Token): System {
    System(ttl, {a},
      map[7 := Project(Some(Locks.Cell(a, ttl)), true, [true], 0, 0, 0, false, false)],
      map[0 := Job(7, Crashed(Working), Some(a), ttl, true, false)])
  }

  lemma DeadRunIsReachable(ttl: nat, a: Token)
    ensures Run(Initial(0), ttl, [Begin(0, 7), TryLock(0, a), SetFlag(0), Announce(0)] + [Crash(0), Tick(ttl)])
         == DeadRun(ttl, a)
  {
    var front, back := [Begin(0, 7), TryLock(0, a), SetFlag(0), Announce(0)], [Crash(0), Tick(ttl)];
    RunStarts(0, ttl, a, 7);
    RunConcat(Initial(0), ttl, front, back);
    assert back[1..] == [Tick(ttl)];
    assert Run(Next(AtWork(0, ttl, a, 7), ttl, Crash(0)), ttl, [Tick(ttl)]) == DeadRun(ttl, a);
  }

  /** Job 1 of project 7, working on top of that. */
  function NextRun(ttl: nat, a: Token, b: Token, raised: bool): System {
    System(ttl, {a, b},
      map[7 := Project(Some(Locks.Cell(b, ttl + ttl)), true, [true], 1, if raised then 1 else 0, 0, false, false)],
      map[0 := Job(7, Crashed(Working), Some(a), ttl, true, false),
          1 := Job(7, if raised then Flagged else Acquired, Some(b), ttl + ttl, raised, false)])
  }

  lemma NextRunStarts(ttl: nat, a: Token, b: Token)
    requires a != b
    ensures Next(Next(DeadRun(ttl, a), ttl, Begin(1, 7)), ttl, TryLock(1, b)) == NextRun(ttl, a, b, false)
  {
    var s := DeadRun(ttl, a);
    var s1 := s.(runs := map[0 := s.runs[0], 1 := Job(7, Waiting, None, ttl, false, false)]);
    assert Next(s, ttl, Begin(1, 7)) == s1;
  }

  lemma NextRunAnnounces(ttl: nat, a: Token, b: Token)
    ensures var s := Next(Next(NextRun(ttl, a, b, false), ttl, SetFlag(1)), ttl, Announce(1));
      ProjectOf(s, 7).events == [true, true]
  {
    assert Next(NextRun(ttl, a, b, false), ttl, SetFlag(1)) == NextRun(ttl, a, b, true);
    assert [true] + [true] == [true, true];
  }

  /**
   * An instance of FlagIsUpIff and EventsAlternateIff: a run that dies at work leaves the
   * flag up with no lock behind it, and the next run announces `true` a second time.
   */
  lemma CrashLeavesFlagUp(ttl: nat, a: Token, b: Token)
    requires a != b
    ensures var s := DeadRun(ttl, a);
      && ProjectOf(s, 7).flag && NobodyActive(s, 7) && Locks.Live(ProjectOf(s, 7).lock, s.now).None?
      && !Alternating(ProjectOf(Run(s, ttl, [Begin(1, 7), TryLock(1, b), SetFlag(1), Announce(1)]), 7).events)
  {
    RunFour(DeadRun(ttl, a), ttl, Begin(1, 7), TryLock(1, b), SetFlag(1), Announce(1));
    NextRunStarts(ttl, a, b);
    NextRunAnnounces(ttl, a, b);
    assert [true, true][0] && [true, true][1];
  }

  lemma {:induction false} RunConcat(s: System, ttl: nat, front: seq<Label>, back: seq<Label>)
    ensures Run(s, ttl, front + back) == Run(Run(s, ttl, front), ttl, back)
    decreases front
  {
    if front == [] {
      assert front + back == back;
    } else {
      assert (front + back)[1..] == front[1..] + back;
      RunConcat(Next(s, ttl, front[0]), ttl, front[1..], back);
    }
  }

  lemma RunFour(s: System, ttl: nat, a: Label, b: Label, c: Label, d: Label)
    ensures Run(s, ttl, [a, b, c, d]) == Next(Next(Next(Next(s, ttl, a), ttl, b), ttl, c), ttl, d)
  {
    var s3 := Next(Next(Next(s, ttl, a), ttl, b), ttl, c);
    assert [a, b, c, d][1..] == [b, c, d] && [b, c, d][1..] == [c, d] && [c, d][1..] == [d];
    assert Run(s3, ttl, [d]) == Next(s3, ttl, d);
    assert Run(Next(Next(s, ttl, a), ttl, b), ttl, [c, d]) == Run(s3, ttl, [d]);
    assert Run(Next(s, ttl, a), ttl, [b, c, d]) == Run(Next(Next(s, ttl, a), ttl, b), ttl, [c, d]);
  }
}
