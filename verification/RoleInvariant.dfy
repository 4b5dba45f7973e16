/** The invariant of the role protocol and its preservation by every step. */
module RoleInvariant {
  import opened Wrappers
  import opened AppsConfig
  import opened RoleStates
  import opened Associations
  import opened RoleProtocol

  // ---------- what the log says ----------

  /** How far a role got in its current authorization: 1 since START_APPLY or START_EDIT was entered,
      2 once on_auth has succeeded after that, 3 once a configuration was pushed after that. */
  function AuthProgress(log: seq<Event>, k: Key): (p: nat)
    ensures p <= 3
  {
    if log == [] then 0 else AuthStep(AuthProgress(log[..|log| - 1], k), log[|log| - 1], k)
  }

  function AuthStep(p: nat, e: Event, k: Key): nat {
    match e
    case Moved(q, _, to, _) => if q == k && to in {StartApply, StartEdit} then 1 else p
    case Ran(q, work, ok) => if q == k && work.OnAuth? && ok && p == 1 then 2 else p
    case Pushed(h, _) => if h == k.host && p == 2 then 3 else p
    case _ => p
  }

  /** The same for the current removal: 1 since START_DEAUTH was entered, 2 once on_deauth has
      succeeded, 3 once a configuration was pushed, 4 once on_deauth_converged has succeeded. */
  function DeauthProgress(log: seq<Event>, k: Key): (p: nat)
    ensures p <= 4
  {
    if log == [] then 0 else DeauthStep(DeauthProgress(log[..|log| - 1], k), log[|log| - 1], k)
  }

  function DeauthStep(p: nat, e: Event, k: Key): nat {
    match e
    case Moved(q, _, to, _) => if q == k && to == StartDeauth then 1 else p
    case Ran(q, work, ok) => if q == k && work.OnDeauth? && ok && p == 1 then 2 else p
    case Pushed(h, _) => if h == k.host && p == 2 then 3 else p
    case RanDeauthConverged(q, ok) => if q == k && ok && p == 3 then 4 else p
    case Crashed => p
  }

  /** The time of the latest push to a host since the process started. */
  function LatestPush(log: seq<Event>, host: string): Option<int> {
    if log == [] then None else PushStep(LatestPush(log[..|log| - 1], host), log[|log| - 1], host)
  }

  function PushStep(p: Option<int>, e: Event, host: string): Option<int> {
    match e
    case Pushed(h, at) => if h == host then Some(at) else p
    case Crashed => None
    case _ => p
  }

  /** What the log must already contain for a role to be in a state. */
  ghost predicate Earned(log: seq<Event>, k: Key, state: RoleState) {
    && (state == PreAuth ==> AuthProgress(log, k) >= 2)
    && (state == AuthConverging ==> AuthProgress(log, k) == 3)
    && (state == PreDeauth ==> DeauthProgress(log, k) >= 2)
    && (state in {DeauthConverging, DeauthConverged} ==> DeauthProgress(log, k) >= 3)
    && (state in {StartApply, StartEdit} ==> AuthProgress(log, k) >= 1)
    && (state == StartDeauth ==> DeauthProgress(log, k) >= 1)
  }

  predicate Fresh(log: seq<Event>, host: string, report: Report) {
    LatestPush(log, host).Some? ==> report.receivedAt > LatestPush(log, host).value
  }

  /** A report of a responding host that may finish the roles of the host. */
  predicate Confirms(report: Report, expected: Apps) {
    report.status == Ok && Satisfies(expected, report.apps)
  }

  predicate SweepJustified(log: seq<Event>, host: string, report: Report, expected: Apps, finish: bool) {
    if finish then report.responding ==> Fresh(log, host, report) && Confirms(report, expected)
    else Fresh(log, host, report) && report.status == Failed
  }

  /** What the log up to an event must contain to justify the event. */
  ghost predicate Justified(log: seq<Event>, e: Event) {
    match e
    case Moved(k, from, to, cause) =>
      && LegalTransition(from, to)
      && (from == DeauthConverged && to == NotApplied ==> DeauthProgress(log, k) == 4)
      && (from in {AuthConverging, DeauthConverging} ==>
            && cause.ByReport?
            && (to in {AuthConverged, DeauthConverged} || to in {AuthError, DeauthError})
            && SweepJustified(log, k.host, cause.report, cause.expected, to in {AuthConverged, DeauthConverged}))
    case _ => true
  }

  ghost predicate History(log: seq<Event>) {
    forall m :: 0 <= m < |log| ==> Justified(log[..m], log[m])
  }

  // ---------- what the program counters say ----------

  predicate AllJobs(job: Job) {
    || job == PreAuthJob(job.key, StartApply)
    || job == PreAuthJob(job.key, StartEdit)
    || job == AuthConvergingJob(job.key)
    || job == AppliedJob(job.key)
    || job == PreDeauthJob(job.key)
    || job == DeauthConvergingJob(job.key)
  }

  ghost predicate JobOk(s: Sys, t: Tid, job: Job, back: Back) {
    && AllJobs(job)
    && Present(s.table, job.key)
    && StateOf(s.table, job.key) == job.start
    && match back
       case ToApi => t.Api? && s.lock == Some(t) && job.start in {StartApply, StartEdit, StartDeauth}
       case ToAdvance(host, _) => t.Poller? && s.lock == Some(t) && host in s.snapshot
       case ToSweep(w) => t.Poller? && job.start == AuthConverged && SweepOk(s, w)
  }

  /** What a body that has ended well must have left in the log. */
  ghost predicate BodyDone(s: Sys, job: Job) {
    Earned(s.log, job.key, job.success)
  }

  predicate SweepOk(s: Sys, w: Sweep) {
    w.host in s.snapshot && SweepJustified(s.log, w.host, w.report, s.snapshot[w.host].expected, w.finish)
  }

  ghost predicate PcOk(s: Sys, t: Tid, pc: Pc) {
    match pc
    case Idle => true
    case AddBegin(_, _) => t.Api? && s.lock == Some(t)
    case DeleteBegin(_) => t.Api? && s.lock == Some(t)
    case Trying(k, i, purpose) =>
      (match purpose
       case AddPurpose(isNew) =>
         && t.Api? && s.lock == Some(t)
         && (isNew ==> i == 0 && Present(s.table, k) && StateOf(s.table, k) == NotApplied)
       case DeletePurpose => t.Api? && s.lock == Some(t)
       case SweepPurpose(w) => t.Poller? && k.host == w.host && SweepOk(s, w))
    case AddCredentials(k, isNew, start) =>
      && t.Api? && s.lock == Some(t)
      && Present(s.table, k) && StateOf(s.table, k) == start
      && start in {StartApply, StartEdit} && (isNew ==> start == StartApply)
    case AddRollback(k) =>
      t.Api? && s.lock == Some(t) && Present(s.table, k) && StateOf(s.table, k) == StartApply
    case Working(job, back) => JobOk(s, t, job, back)
    case Closing(job, ok, back) => JobOk(s, t, job, back) && (ok ==> BodyDone(s, job))
    case Dropping(k, phase, back) =>
      && t.Poller?
      && (match back
          case ToApi => false
          case ToAdvance(host, _) => s.lock == Some(Poller) && host in s.snapshot
          case ToSweep(w) => SweepOk(s, w))
      && (phase in {DropHandler, DropRemove} ==> Present(s.table, k) && StateOf(s.table, k) == DeauthConverged)
      && (phase.DropRemove? ==> DeauthProgress(s.log, k) == 4)
    case Polling => t.Poller?
    case Advancing(host, _) => t.Poller? && s.lock == Some(Poller) && host in s.snapshot
    case Advanced(host) => t.Poller? && host in s.snapshot
    case Repushing(_) => t.Poller?
    case Sweeping(w) => t.Poller? && SweepOk(s, w)
  }

  /** The part of the invariant that does not mention threads. */
  ghost predicate Core(s: Sys) {
    && UniqueByName(s.table)
    && (forall k :: Earned(s.log, k, StateOf(s.table, k)))
    && (forall h :: h in s.lastPush <==> LatestPush(s.log, h).Some?)
    && (forall h :: h in s.lastPush ==> LatestPush(s.log, h) == Some(s.lastPush[h]))
    && History(s.log)
  }

  ghost predicate PcsOk(s: Sys) {
    forall t :: PcOk(s, t, PcOf(s, t))
  }

  ghost predicate Inv(s: Sys) {
    Core(s) && PcsOk(s)
  }

  lemma PcHolds(s: Sys, t: Tid)
    requires PcsOk(s)
    ensures PcOk(s, t, PcOf(s, t))
  {
  }

  // ---------- appending to the log ----------

  lemma LogAppend(log: seq<Event>, e: Event)
    ensures forall k :: AuthProgress(log + [e], k) == AuthStep(AuthProgress(log, k), e, k)
    ensures forall k :: DeauthProgress(log + [e], k) == DeauthStep(DeauthProgress(log, k), e, k)
    ensures forall h :: LatestPush(log + [e], h) == PushStep(LatestPush(log, h), e, h)
    ensures History(log) && Justified(log, e) ==> History(log + [e])
  {
    assert (log + [e])[..|log|] == log;
    if History(log) && Justified(log, e) {
      forall m | 0 <= m < |log| + 1 ensures Justified((log + [e])[..m], (log + [e])[m]) {
        if m < |log| { assert (log + [e])[..m] == log[..m]; }
      }
    }
  }

  /** An event that is not a transition keeps what the log has earned. */
  lemma QuietEvent(s: Sys, s': Sys, e: Event)
    requires Core(s) && !e.Moved?
    requires s'.log == s.log + [e]
    requires forall k :: StateOf(s'.table, k) == StateOf(s.table, k)
    requires UniqueByName(s'.table)
    requires match e
             case Pushed(h, at) => s'.lastPush == s.lastPush[h := at]
             case Crashed => s'.lastPush == map[]
             case _ => s'.lastPush == s.lastPush
    ensures Core(s')
    ensures forall k :: AuthProgress(s'.log, k) >= AuthProgress(s.log, k)
    ensures forall k :: DeauthProgress(s'.log, k) >= DeauthProgress(s.log, k)
  {
    LogAppend(s.log, e);
    forall k ensures Earned(s'.log, k, StateOf(s'.table, k)) {
      assert Earned(s.log, k, StateOf(s.table, k));
    }
  }

  /** A logged transition of one role. */
  lemma TransitionEvent(s: Sys, s': Sys, k: Key, from: RoleState, to: RoleState, cause: Cause)
    requires Core(s) && UniqueByName(s'.table) && SameElsewhere(s.table, s'.table, k)
    requires s'.lastPush == s.lastPush
    requires StateOf(s.table, k) == from && StateOf(s'.table, k) == to
    requires s'.log == s.log + [Moved(k, from, to, cause)]
    requires Justified(s.log, Moved(k, from, to, cause))
    requires to in {PreAuth, AuthConverging, PreDeauth, DeauthConverging, DeauthConverged} ==> Earned(s.log, k, to)
    ensures Core(s')
    ensures forall q :: q != k ==>
      AuthProgress(s'.log, q) == AuthProgress(s.log, q) && DeauthProgress(s'.log, q) == DeauthProgress(s.log, q)
    ensures forall h :: LatestPush(s'.log, h) == LatestPush(s.log, h)
  {
    LogAppend(s.log, Moved(k, from, to, cause));
    forall q ensures Earned(s'.log, q, StateOf(s'.table, q)) {
      assert Earned(s.log, q, StateOf(s.table, q));
    }
  }

  // ---------- what one thread guarantees to the others ----------

  /** The role whose state a program counter relies on. */
  function Claim(pc: Pc): Option<Key> {
    match pc
    case Trying(k, _, purpose) => if purpose.AddPurpose? && purpose.isNew then Some(k) else None
    case AddCredentials(k, _, _) => Some(k)
    case AddRollback(k) => Some(k)
    case Working(job, _) => Some(job.key)
    case Closing(job, _, _) => Some(job.key)
    case Dropping(k, phase, _) => if phase in {DropHandler, DropRemove} then Some(k) else None
    case _ => None
  }

  ghost predicate Guarantee(s: Sys, s': Sys, t: Tid) {
    && (forall u :: u != t ==> PcOf(s', u) == PcOf(s, u))
    && (forall u :: u != t && s.lock == Some(u) ==> s'.lock == Some(u))
    && (t.Api? ==> s'.snapshot == s.snapshot && forall h :: LatestPush(s'.log, h) == LatestPush(s.log, h))
    && (forall u, k :: u != t && Claim(PcOf(s, u)) == Some(k) ==>
          && Present(s'.table, k)
          && StateOf(s'.table, k) == StateOf(s.table, k)
          && AuthProgress(s'.log, k) >= AuthProgress(s.log, k)
          && DeauthProgress(s'.log, k) >= DeauthProgress(s.log, k))
  }

  /** The states out of which a thread moves roles: under the lock an API thread never touches the two
      CONVERGED states, and without the lock the poller touches only the four converging ones. */
  ghost predicate MayMove(s: Sys, t: Tid, from: RoleState) {
    if t.Api? then s.lock == Some(t) && from !in {AuthConverged, DeauthConverged}
    else s.lock == Some(t) || from in {AuthConverging, AuthConverged, DeauthConverging, DeauthConverged}
  }

  lemma ClaimsExclude(s: Sys, t: Tid, u: Tid, k: Key)
    requires PcsOk(s) && u != t && Claim(PcOf(s, u)) == Some(k)
    requires t.Api? ==> s.lock == Some(t)
    ensures !MayMove(s, t, StateOf(s.table, k))
  {
    PcHolds(s, u);
  }

  lemma OthersKept(s: Sys, s': Sys, t: Tid)
    requires PcsOk(s) && Guarantee(s, s', t)
    ensures forall u :: u != t ==> PcOk(s', u, PcOf(s', u))
  {
    forall u | u != t ensures PcOk(s', u, PcOf(s', u)) {
      PcHolds(s, u);
      var claim := Claim(PcOf(s, u));
    }
  }
}
