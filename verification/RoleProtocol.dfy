/** The role life cycle of the resource manager as a state machine over atomic actions: database
    transactions, handler runs, configuration pushes and report reads, by one poller thread and any
    number of API threads, with a process crash possible between any two of them. */
module RoleProtocol {
  import opened Wrappers
  import opened AppsConfig
  import opened RoleStates
  import opened Associations

  datatype Tid = Poller | Api(id: nat)

  /** The body that runs inside a move_new_state context. */
  datatype Work = OnAuth | Push | OnDeauth | OnAuthConverged

  /** One use of move_new_state. */
  datatype Job = Job(key: Key, start: RoleState, success: RoleState, failure: RoleState, work: Work)

  datatype HostStatus = Ok | Converging | Retrying | Missing | Failed

  /** A host report as bbmaster serves it. */
  datatype Report = Report(status: HostStatus, receivedAt: int, responding: bool, apps: Apps, desiredApps: Apps)

  datatype HostDetails = HostDetails(roles: seq<string>, expected: Apps)

  /** What move_to_not_applied_state is about to do. */
  datatype DropPhase = DropHandler | DropRemove | DropHostCheck | DropError

  /** Why a thread is trying compare-and-set updates one after the other. */
  datatype Purpose =
    | AddPurpose(isNew: bool)
    | DeletePurpose
    | SweepPurpose(sweep: Sweep)

  /** A pass of _finish_role_converge or _fail_role_converge over the roles of a host. */
  datatype Sweep = Sweep(host: string, roles: seq<string>, report: Report, finish: bool)

  /** Where control continues after a job. */
  datatype Back = ToApi | ToAdvance(host: string, roles: seq<string>) | ToSweep(sweep: Sweep)

  datatype Pc =
    | Idle
    | AddBegin(key: Key, version: string)
    | DeleteBegin(key: Key)
    | Trying(key: Key, attempt: nat, purpose: Purpose)
    | AddCredentials(key: Key, isNew: bool, start: RoleState)
    | AddRollback(key: Key)
    | Working(job: Job, back: Back)
    | Closing(job: Job, ok: bool, back: Back)
    | Dropping(key: Key, phase: DropPhase, back: Back)
    | Polling
    | Advancing(host: string, roles: seq<string>)
    | Advanced(host: string)
    | Repushing(host: string)
    | Sweeping(sweep: Sweep)

  datatype Cause = ByCommand | ByJob | ByReport(report: Report, expected: Apps)

  datatype Event =
    | Moved(key: Key, from: RoleState, to: RoleState, cause: Cause)
    | Ran(key: Key, work: Work, ok: bool)
    | RanDeauthConverged(key: Key, ok: bool)
    | Pushed(host: string, at: int)
    | Crashed

  datatype Sys = Sys(
    table: Table,
    lock: Option<Tid>,
    pcs: map<Tid, Pc>,
    snapshot: map<string, HostDetails>,
    lastPush: map<string, int>,
    log: seq<Event>)

  /** How create_rabbit_credentials and associate_rabbit_credentials_to_host end: both succeed, the
      first raises so that the user name the error handler needs is unbound, or the second raises. */
  datatype CredentialsOutcome = CredentialsOk | CreateFailed | AssociateFailed

  datatype Label =
    | AddRole(id: nat, key: Key, version: string)
    | DeleteRole(id: nat, key: Key)
    | AssociateRole(id: nat)
    | LookUpRole(id: nat)
    | Try(tid: Tid)
    | Credentials(id: nat, outcome: CredentialsOutcome)
    | RollBack(id: nat)
    | RunBody(tid: Tid, ok: bool, now: int)
    | Close(tid: Tid, caught: bool)
    | Drop(ok: bool)
    | PollBegin(details: map<string, HostDetails>)
    | PollEnd
    | AdvanceHost(host: string)
    | AdvanceNext
    | ReadReport(report: Report, roles: seq<string>)
    | NoReport
    | Repush(ok: bool, now: int)
    | SweepNext
    | Unwind(tid: Tid)
    | Crash

  datatype Attempt = Attempt(from: RoleState, to: RoleState)

  /** The compare-and-set updates that an operation tries in turn: those of _move_to_apply_edit_state,
      _move_to_deauth_state, _finish_role_converge and _fail_role_converge. */
  function AttemptAt(purpose: Purpose, i: nat): Option<Attempt> {
    match purpose
    case AddPurpose(_) =>
      if i == 0 then Some(Attempt(NotApplied, StartApply))
      else if i == 1 then Some(Attempt(Applied, StartEdit))
      else if i == 2 then Some(Attempt(AuthError, StartApply))
      else None
    case DeletePurpose =>
      if i == 0 then Some(Attempt(Applied, StartDeauth))
      else if i == 1 then Some(Attempt(DeauthError, StartDeauth))
      else if i == 2 then Some(Attempt(AuthError, StartDeauth))
      else None
    case SweepPurpose(sweep) =>
      if i == 0 then Some(Attempt(AuthConverging, if sweep.finish then AuthConverged else AuthError))
      else if i == 1 then Some(Attempt(DeauthConverging, if sweep.finish then DeauthConverged else DeauthError))
      else None
  }

  // ---------- helpers on system states ----------

  function PcOf(s: Sys, t: Tid): Pc {
    if t in s.pcs then s.pcs[t] else Idle
  }

  function Goto(s: Sys, t: Tid, pc: Pc): Sys {
    s.(pcs := s.pcs[t := pc])
  }

  function Log(s: Sys, e: Event): Sys {
    s.(log := s.log + [e])
  }

  /** The thread leaves its operation and, if it holds it, the role update lock. */
  function Leave(s: Sys, t: Tid): Sys {
    Goto(s, t, Idle).(lock := if s.lock == Some(t) then None else s.lock)
  }

  /** A compare-and-set on the association table, logged when it changes a row. */
  function CompareAndSet(s: Sys, k: Key, current: RoleState, next: RoleState, cause: Cause): (Sys, bool) {
    var (table, ok) := Advance(s.table, k, current, next);
    (if ok then Log(s.(table := table), Moved(k, current, next, cause)) else s, ok)
  }

  ghost function DropAssociation(s: Sys, k: Key, cause: Cause): Sys {
    if Present(s.table, k)
    then Log(s.(table := Remove(s.table, k)), Moved(k, StateOf(s.table, k), NotApplied, cause))
    else s
  }

  // ---------- the jobs ----------

  /** move_to_preauth_state */
  function PreAuthJob(k: Key, start: RoleState): Job {
    Job(k, start, PreAuth, if start == StartApply then NotApplied else Applied, OnAuth)
  }

  /** move_to_auth_converging_state */
  function AuthConvergingJob(k: Key): Job {
    Job(k, PreAuth, AuthConverging, PreAuth, Push)
  }

  /** move_to_applied_state */
  function AppliedJob(k: Key): Job {
    Job(k, AuthConverged, Applied, AuthError, OnAuthConverged)
  }

  /** move_to_pre_deauth_state */
  function PreDeauthJob(k: Key): Job {
    Job(k, StartDeauth, PreDeauth, Applied, OnDeauth)
  }

  /** move_to_deauth_converging_state */
  function DeauthConvergingJob(k: Key): Job {
    Job(k, PreDeauth, DeauthConverging, PreDeauth, Push)
  }

  /** The dispatch of _advance_from_transient_state on the state it has read. */
  function Dispatch(k: Key, state: RoleState, roles: seq<string>): Pc
    requires |roles| > 0
  {
    var again, next := ToAdvance(k.host, roles), ToAdvance(k.host, roles[1..]);
    match state
    case StartApply => Working(PreAuthJob(k, StartApply), again)
    case StartEdit => Working(PreAuthJob(k, StartEdit), again)
    case PreAuth => Working(AuthConvergingJob(k), again)
    case AuthConverged => Working(AppliedJob(k), next)
    case StartDeauth => Working(PreDeauthJob(k), again)
    case PreDeauth => Working(DeauthConvergingJob(k), again)
    case DeauthConverged => Dropping(k, DropHandler, next)
    case _ => Advancing(k.host, roles[1..])
  }

  // ---------- the poller's verdict on a report ----------

  datatype Verdict = FailRoles | FinishRoles | PushConfig | LeaveAlone

  /** received_since_last_push */
  predicate ReceivedSinceLastPush(lastPush: map<string, int>, host: string, report: Report) {
    host in lastPush ==> report.receivedAt > lastPush[host]
  }

  /** The decision of _process_existing_hosts on a report of an authorized host. */
  function Judge(report: Report, expected: Apps, received: bool): Verdict {
    if received && report.status == Failed then
      FailRoles
    else if !report.responding then
      FinishRoles
    else if received && report.status == Ok && Satisfies(expected, report.apps) then
      FinishRoles
    else if !Satisfies(expected, if report.status == Ok then report.apps else report.desiredApps) then
      PushConfig
    else
      LeaveAlone
  }

  // ---------- the steps ----------

  /** The role names of a host in some order, each once. */
  ghost predicate ListsRolesOf(t: Table, host: string, roles: seq<string>) {
    && (forall r :: r in t && r.host == host ==> r.role in roles)
    && (forall i :: 0 <= i < |roles| ==> Present(t, Key(host, roles[i])))
    && (forall i, j :: 0 <= i < j < |roles| ==> roles[i] != roles[j])
  }

  /** Where a thread goes once a compare-and-set of the purpose has succeeded. */
  function AfterSuccess(k: Key, to: RoleState, purpose: Purpose): Pc {
    match purpose
    case AddPurpose(isNew) => AddCredentials(k, isNew, to)
    case DeletePurpose => Working(PreDeauthJob(k), ToApi)
    case SweepPurpose(sweep) =>
      if to == AuthConverged then Working(AppliedJob(k), ToSweep(sweep))
      else if to == DeauthConverged then Dropping(k, DropHandler, ToSweep(sweep))
      else Sweeping(sweep)
  }

  function CauseOf(s: Sys, purpose: Purpose): Cause {
    if purpose.SweepPurpose? && purpose.sweep.host in s.snapshot
    then ByReport(purpose.sweep.report, s.snapshot[purpose.sweep.host].expected)
    else ByCommand
  }

  function StepTry(s: Sys, t: Tid): Option<Sys> {
    match PcOf(s, t)
    case Trying(k, i, purpose) =>
      (match AttemptAt(purpose, i)
       case None =>
         // every attempt failed: the API raises a conflict, a sweep goes on to the next role
         Some(if purpose.SweepPurpose? then Goto(s, t, Sweeping(purpose.sweep)) else Leave(s, t))
       case Some(a) =>
         var (s', ok) := CompareAndSet(s, k, a.from, a.to, CauseOf(s, purpose));
         Some(Goto(s', t, if ok then AfterSuccess(k, a.to, purpose) else Trying(k, i + 1, purpose))))
    case _ => None
  }

  function StepRunBody(s: Sys, t: Tid, ok: bool, now: int): Option<Sys> {
    match PcOf(s, t)
    case Working(job, back) =>
      var s1 := Goto(s, t, Closing(job, ok, back));
      Some(
        if job.work.Push? then
          if ok then Log(s1.(lastPush := s1.lastPush[job.key.host := now]), Pushed(job.key.host, now)) else s1
        else
          Log(s1, Ran(job.key, job.work, ok)))
    case _ => None
  }

  /** The exit of a move_new_state context. After a failed body the exception propagates: it ends an
      API call or a whole poll, but a sweep catches a handler failure and goes on. */
  function StepClose(s: Sys, t: Tid, caught: bool): Option<Sys> {
    match PcOf(s, t)
    case Closing(job, ok, back) =>
      var s1 :=
        if ok then CompareAndSet(s, job.key, job.start, job.success, ByJob).0
        else if job.start != job.failure then CompareAndSet(s, job.key, job.start, job.failure, ByJob).0
        else s;
      Some(
        match back
        case ToApi => Leave(s1, t)
        case ToAdvance(host, roles) => if ok then Goto(s1, t, Advancing(host, roles)) else Leave(s1, t)
        case ToSweep(sweep) => if ok || caught then Goto(s1, t, Sweeping(sweep)) else Leave(s1, t))
    case _ => None
  }

  function Resume(s: Sys, back: Back): Sys {
    match back
    case ToApi => Leave(s, Poller)
    case ToAdvance(host, roles) => Goto(s, Poller, Advancing(host, roles))
    case ToSweep(sweep) => Goto(s, Poller, Sweeping(sweep))
  }

  /** move_to_not_applied_state, one action at a time. */
  ghost function StepDrop(s: Sys, ok: bool): Option<Sys> {
    match PcOf(s, Poller)
    case Dropping(k, phase, back) =>
      Some(
        match phase
        case DropHandler =>
          Log(Goto(s, Poller, Dropping(k, if ok then DropRemove else DropError, back)), RanDeauthConverged(k, ok))
        case DropRemove =>
          if ok then Goto(DropAssociation(s, k, ByJob), Poller, Dropping(k, DropHostCheck, back))
          else Goto(s, Poller, Dropping(k, DropError, back))
        case DropHostCheck =>
          if ok then Resume(s, back) else Goto(s, Poller, Dropping(k, DropError, back))
        case DropError =>
          Resume(CompareAndSet(s, k, DeauthConverged, DeauthError, ByJob).0, back))
    case _ => None
  }

  ghost function StepReport(s: Sys, report: Report, roles: seq<string>): Option<Sys> {
    match PcOf(s, Poller)
    case Advanced(host) =>
      if host in s.snapshot && ListsRolesOf(s.table, host, roles) then
        var verdict := Judge(report, s.snapshot[host].expected, ReceivedSinceLastPush(s.lastPush, host, report));
        Some(Goto(s, Poller,
          match verdict
          case FailRoles => Sweeping(Sweep(host, roles, report, false))
          case FinishRoles => Sweeping(Sweep(host, roles, report, true))
          case PushConfig => Repushing(host)
          case LeaveAlone => Polling))
      else None
    case _ => None
  }

  /** The program counters at which the next action is a database operation or a remote call that may
      raise and unwind the whole operation, leaving the table as it is. Before it enters a context, an API
      call looks up the details of the host; a poll has them from its snapshot. */
  predicate MayUnwind(pc: Pc) {
    match pc
    case Idle => false
    case Working(_, back) => back.ToApi?
    case Dropping(_, phase, _) => phase.DropError?
    case _ => true
  }

  /** The successor of a state under a label, None where the label is not enabled. */
  ghost function Step(s: Sys, l: Label): Option<Sys> {
    match l
    case AddRole(id, key, version) =>
      if PcOf(s, Api(id)).Idle? && s.lock.None?
      then Some(Goto(s, Api(id), AddBegin(key, version)).(lock := Some(Api(id)))) else None
    case DeleteRole(id, key) =>
      if PcOf(s, Api(id)).Idle? && s.lock.None?
      then Some(Goto(s, Api(id), DeleteBegin(key)).(lock := Some(Api(id)))) else None
    case AssociateRole(id) =>
      (match PcOf(s, Api(id))
       case AddBegin(key, version) =>
         var (table, isNew) := Associate(s.table, key, version);
         Some(Goto(s.(table := table), Api(id), Trying(key, 0, AddPurpose(isNew))))
       case _ => None)
    case LookUpRole(id) =>
      (match PcOf(s, Api(id))
       case DeleteBegin(key) =>
         Some(if Present(s.table, key) then Goto(s, Api(id), Trying(key, 0, DeletePurpose))
              else Leave(s, Api(id)))
       case _ => None)
    case Try(t) => StepTry(s, t)
    case Credentials(id, outcome) =>
      (match PcOf(s, Api(id))
       case AddCredentials(key, isNew, start) =>
         Some(if outcome.CredentialsOk? then Goto(s, Api(id), Working(PreAuthJob(key, start), ToApi))
              else if outcome.AssociateFailed? && isNew then Goto(s, Api(id), AddRollback(key))
              else Leave(s, Api(id)))
       case _ => None)
    case RollBack(id) =>
      (match PcOf(s, Api(id))
       case AddRollback(key) => Some(Leave(DropAssociation(s, key, ByCommand), Api(id)))
       case _ => None)
    case RunBody(t, ok, now) => StepRunBody(s, t, ok, now)
    case Close(t, caught) => StepClose(s, t, caught)
    case Drop(ok) => StepDrop(s, ok)
    case PollBegin(details) =>
      if PcOf(s, Poller).Idle? && forall h :: h in details ==> ListsRolesOf(s.table, h, details[h].roles)
      then Some(Goto(s.(snapshot := details), Poller, Polling)) else None
    case PollEnd =>
      if PcOf(s, Poller).Polling? then Some(Goto(s, Poller, Idle)) else None
    case AdvanceHost(host) =>
      if PcOf(s, Poller).Polling? && s.lock.None? && host in s.snapshot
      then Some(Goto(s, Poller, Advancing(host, s.snapshot[host].roles)).(lock := Some(Poller))) else None
    case AdvanceNext =>
      (match PcOf(s, Poller)
       case Advancing(host, roles) =>
         Some(if roles == [] then Goto(s, Poller, Advanced(host)).(lock := None)
              else Goto(s, Poller, Dispatch(Key(host, roles[0]), StateOf(s.table, Key(host, roles[0])), roles)))
       case _ => None)
    case ReadReport(report, roles) => StepReport(s, report, roles)
    case NoReport =>
      if PcOf(s, Poller).Advanced? then Some(Goto(s, Poller, Polling)) else None
    case Repush(ok, now) =>
      (match PcOf(s, Poller)
       case Repushing(host) =>
         var s1 := Goto(s, Poller, Polling);
         Some(if ok then Log(s1.(lastPush := s1.lastPush[host := now]), Pushed(host, now)) else s1)
       case _ => None)
    case SweepNext =>
      (match PcOf(s, Poller)
       case Sweeping(w) =>
         Some(Goto(s, Poller,
           if w.roles == [] then Polling
           else Trying(Key(w.host, w.roles[0]), 0, SweepPurpose(w.(roles := w.roles[1..])))))
       case _ => None)
    case Unwind(t) =>
      if MayUnwind(PcOf(s, t)) then Some(Leave(s, t)) else None
    case Crash =>
      Some(Log(Sys(s.table, None, map[], map[], map[], s.log), Crashed))
  }

  const INITIAL: Sys := Sys(map[], None, map[], map[], map[], [])

  /** The state after a run of labels, None where one of them is not enabled. */
  ghost function Run(s: Sys, labels: seq<Label>): Option<Sys> {
    if labels == [] then Some(s)
    else
      var before := Run(s, labels[..|labels| - 1]);
      if before.None? then None else Step(before.value, labels[|labels| - 1])
  }

  ghost predicate Reachable(s: Sys) {
    exists labels :: Run(INITIAL, labels) == Some(s)
  }
}
