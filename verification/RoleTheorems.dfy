/** What every run of the role protocol guarantees. */
module RoleTheorems {
  import opened Wrappers
  import opened RoleStates
  import opened Associations
  import opened RoleProtocol
  import opened RoleInvariant
  import opened RolePreservation

  // ---------- the transition graph ----------

  ghost predicate ChangeLogged(s: Sys, s': Sys, k: Key) {
    StateOf(s'.table, k) != StateOf(s.table, k) ==>
      && |s'.log| == |s.log| + 1
      && s'.log[|s.log|].Moved?
      && s'.log[|s.log|].key == k
      && s'.log[|s.log|].from == StateOf(s.table, k)
      && s'.log[|s.log|].to == StateOf(s'.table, k)
  }

  lemma CasLogs(s: Sys, k: Key, from: RoleState, to: RoleState, cause: Cause, q: Key)
    requires UniqueByName(s.table)
    ensures ChangeLogged(s, CompareAndSet(s, k, from, to, cause).0, q)
  {
    AdvanceEffect(s.table, k, from, to);
  }

  lemma TryLogs(s: Sys, t: Tid, k: Key)
    requires UniqueByName(s.table) && StepTry(s, t).Some?
    ensures ChangeLogged(s, StepTry(s, t).value, k)
  {
    var Trying(q, i, purpose) := PcOf(s, t);
    match AttemptAt(purpose, i)
    case None =>
    case Some(a) => CasLogs(s, q, a.from, a.to, CauseOf(s, purpose), k);
  }

  lemma SameTableSameLog(s: Sys, s1: Sys, s': Sys, k: Key)
    requires ChangeLogged(s, s1, k) && s'.table == s1.table && s'.log == s1.log
    ensures ChangeLogged(s, s', k)
  {
  }

  lemma CloseLogs(s: Sys, t: Tid, caught: bool, k: Key)
    requires UniqueByName(s.table) && StepClose(s, t, caught).Some?
    ensures ChangeLogged(s, StepClose(s, t, caught).value, k)
  {
    hide ChangeLogged, CompareAndSet, UniqueByName, StateOf;
    var Closing(job, ok, back) := PcOf(s, t);
    if ok || job.start != job.failure {
      var to := if ok then job.success else job.failure;
      CasLogs(s, job.key, job.start, to, ByJob, k);
      SameTableSameLog(s, CompareAndSet(s, job.key, job.start, to, ByJob).0, StepClose(s, t, caught).value, k);
    } else {
      SameTableSameLog(s, s, StepClose(s, t, caught).value, k);
    }
  }

  lemma DropLogs(s: Sys, ok: bool, k: Key)
    requires UniqueByName(s.table) && StepDrop(s, ok).Some?
    ensures ChangeLogged(s, StepDrop(s, ok).value, k)
  {
    hide CompareAndSet;
    var Dropping(q, phase, back) := PcOf(s, Poller);
    if phase.DropError? {
      CasLogs(s, q, DeauthConverged, DeauthError, ByJob, k);
      SameTableSameLog(s, CompareAndSet(s, q, DeauthConverged, DeauthError, ByJob).0, StepDrop(s, ok).value, k);
    } else if phase.DropRemove? && ok {
      RemoveEffect(s.table, q);
      SameTableSameLog(s, DropAssociation(s, q, ByJob), StepDrop(s, ok).value, k);
    } else {
      assert StepDrop(s, ok).value.table == s.table;
    }
  }

  lemma StepLogs(s: Sys, l: Label, k: Key)
    requires UniqueByName(s.table) && Step(s, l).Some?
    ensures ChangeLogged(s, Step(s, l).value, k)
  {
    hide StepTry, StepClose, StepDrop, CompareAndSet;
    match l
    case Try(t) => TryLogs(s, t, k);
    case Close(t, caught) => CloseLogs(s, t, caught, k);
    case Drop(ok) => DropLogs(s, ok, k);
    case AssociateRole(id) =>
      AssociateEffect(s.table, PcOf(s, Api(id)).key, PcOf(s, Api(id)).version);
    case RollBack(id) =>
      RemoveEffect(s.table, PcOf(s, Api(id)).key);
    case RunBody(_, _, _) =>
    case ReadReport(_, _) =>
    case AdvanceNext =>
    case _ =>
  }

  /** Under every interleaving and with crashes at any point, a step changes the state of a role only
      along an edge of the transition graph, absent read as not-applied. */
  lemma OnlyLegalTransitions(s: Sys, l: Label, k: Key)
    requires Reachable(s) && Step(s, l).Some?
    ensures var s' := Step(s, l).value;
      StateOf(s'.table, k) != StateOf(s.table, k) ==> LegalTransition(StateOf(s.table, k), StateOf(s'.table, k))
  {
    ReachableInv(s);
    StepLogs(s, l, k);
    StepKeepsInv(s, l);
    var s' := Step(s, l).value;
    if StateOf(s'.table, k) != StateOf(s.table, k) {
      assert Justified(s'.log[..|s.log|], s'.log[|s.log|]);
    }
  }

  /** The thread that takes a step, None for a crash of the process. */
  function Actor(l: Label): Option<Tid> {
    match l
    case AddRole(id, _, _) => Some(Api(id))
    case DeleteRole(id, _) => Some(Api(id))
    case AssociateRole(id) => Some(Api(id))
    case LookUpRole(id) => Some(Api(id))
    case Try(t) => Some(t)
    case Credentials(id, _) => Some(Api(id))
    case RollBack(id) => Some(Api(id))
    case RunBody(t, _, _) => Some(t)
    case Close(t, _) => Some(t)
    case Unwind(t) => Some(t)
    case Crash => None
    case _ => Some(Poller)
  }

  lemma CasKeepsPcs(s: Sys, k: Key, from: RoleState, to: RoleState, cause: Cause)
    ensures CompareAndSet(s, k, from, to, cause).0.pcs == s.pcs
  {
  }

  lemma OnlyActorTries(s: Sys, u: Tid, t: Tid)
    requires StepTry(s, u).Some? && t != u
    ensures PcOf(StepTry(s, u).value, t) == PcOf(s, t)
  {
    var Trying(q, i, purpose) := PcOf(s, u);
    match AttemptAt(purpose, i)
    case None =>
    case Some(a) => CasKeepsPcs(s, q, a.from, a.to, CauseOf(s, purpose));
  }

  lemma OnlyActorCloses(s: Sys, u: Tid, caught: bool, t: Tid)
    requires StepClose(s, u, caught).Some? && t != u
    ensures PcOf(StepClose(s, u, caught).value, t) == PcOf(s, t)
  {
    hide CompareAndSet;
    var Closing(job, ok, back) := PcOf(s, u);
    CasKeepsPcs(s, job.key, job.start, if ok then job.success else job.failure, ByJob);
  }

  lemma OnlyPollerDrops(s: Sys, ok: bool, t: Tid)
    requires StepDrop(s, ok).Some? && !t.Poller?
    ensures PcOf(StepDrop(s, ok).value, t) == PcOf(s, t)
  {
    hide CompareAndSet;
    var Dropping(q, phase, back) := PcOf(s, Poller);
    CasKeepsPcs(s, q, DeauthConverged, DeauthError, ByJob);
  }

  lemma OnlyActorMoves(s: Sys, l: Label, t: Tid)
    requires Step(s, l).Some? && !l.Crash? && Actor(l) != Some(t)
    ensures PcOf(Step(s, l).value, t) == PcOf(s, t)
  {
    hide StepTry, StepClose, StepDrop, CompareAndSet;
    match l
    case Try(u) => OnlyActorTries(s, u, t);
    case Close(u, caught) => OnlyActorCloses(s, u, caught, t);
    case Drop(ok) => OnlyPollerDrops(s, ok, t);
    case RunBody(_, _, _) =>
    case ReadReport(_, _) =>
    case AdvanceNext =>
    case _ =>
  }

  /** While a thread is inside a move_new_state context, no step of another thread changes the state
      of the role or removes its association. */
  lemma BodyRunsUndisturbed(s: Sys, l: Label, t: Tid)
    requires Reachable(s) && (PcOf(s, t).Working? || PcOf(s, t).Closing?)
    requires Step(s, l).Some? && !l.Crash? && Actor(l) != Some(t)
    ensures var (s', k) := (Step(s, l).value, PcOf(s, t).job.key);
      Present(s'.table, k) && StateOf(s'.table, k) == StateOf(s.table, k) == PcOf(s, t).job.start
  {
    ReachableInv(s);
    StepKeepsInv(s, l);
    OnlyActorMoves(s, l, t);
    PcHolds(s, t);
    PcHolds(Step(s, l).value, t);
  }

  /** So the compare-and-set that closes the context hits exactly one row, and no transition that the
      code ever asks for is refused as illegal. */
  lemma ClosingUpdateSucceeds(s: Sys, t: Tid, to: RoleState)
    requires Reachable(s) && PcOf(s, t).Closing?
    ensures var job := PcOf(s, t).job;
      && Advance(s.table, job.key, job.start, to).1
      && LegalTransition(job.start, job.success)
      && (job.start != job.failure ==> LegalTransition(job.start, job.failure))
  {
    ReachableInv(s);
    PcHolds(s, t);
    AdvanceEffect(s.table, PcOf(s, t).job.key, PcOf(s, t).job.start, to);
  }

  /** Only one thread at a time is inside the role update lock. */
  predicate Locked(pc: Pc) {
    match pc
    case AddBegin(_, _) => true
    case DeleteBegin(_) => true
    case Trying(_, _, purpose) => !purpose.SweepPurpose?
    case AddCredentials(_, _, _) => true
    case AddRollback(_) => true
    case Working(_, back) => !back.ToSweep?
    case Closing(_, _, back) => !back.ToSweep?
    case Dropping(_, _, back) => !back.ToSweep?
    case Advancing(_, _) => true
    case _ => false
  }

  lemma MutualExclusion(s: Sys, t: Tid, u: Tid)
    requires Reachable(s) && Locked(PcOf(s, t)) && Locked(PcOf(s, u))
    ensures t == u && s.lock == Some(t)
  {
    ReachableInv(s);
    PcHolds(s, t);
    PcHolds(s, u);
  }

  // ---------- what has happened before a state is reached ----------

  predicate StartsAuth(e: Event, k: Key) {
    e.Moved? && e.key == k && e.to in {StartApply, StartEdit}
  }

  predicate StartsDeauth(e: Event, k: Key) {
    e.Moved? && e.key == k && e.to == StartDeauth
  }

  predicate PushTo(e: Event, host: string) {
    e.Pushed? && e.host == host
  }

  /** Position i is where the current authorization of the role began. */
  ghost predicate AuthBegan(log: seq<Event>, k: Key, i: int) {
    0 <= i < |log| && StartsAuth(log[i], k) && forall m :: i < m < |log| ==> !StartsAuth(log[m], k)
  }

  ghost predicate DeauthBegan(log: seq<Event>, k: Key, i: int) {
    0 <= i < |log| && StartsDeauth(log[i], k) && forall m :: i < m < |log| ==> !StartsDeauth(log[m], k)
  }

  /** on_auth succeeded at j, after the current authorization began at i. */
  ghost predicate Authorized(log: seq<Event>, k: Key, i: int, j: int) {
    AuthBegan(log, k, i) && i < j < |log| && log[j] == Ran(k, OnAuth, true)
  }

  ghost predicate Deauthorized(log: seq<Event>, k: Key, i: int, j: int) {
    DeauthBegan(log, k, i) && i < j < |log| && log[j] == Ran(k, OnDeauth, true)
  }

  /** ... and a configuration was pushed to the host at p, after that. */
  ghost predicate AuthorizedAndPushed(log: seq<Event>, k: Key, i: int, j: int, p: int) {
    Authorized(log, k, i, j) && j < p < |log| && PushTo(log[p], k.host)
  }

  ghost predicate DeauthorizedAndPushed(log: seq<Event>, k: Key, i: int, j: int, p: int) {
    Deauthorized(log, k, i, j) && j < p < |log| && PushTo(log[p], k.host)
  }

  /** ... and on_deauth_converged succeeded at d, after that. */
  ghost predicate CleanedUp(log: seq<Event>, k: Key, i: int, j: int, p: int, d: int) {
    DeauthorizedAndPushed(log, k, i, j, p) && p < d < |log| && log[d] == RanDeauthConverged(k, true)
  }

  lemma {:induction false} AuthProgressMeans(log: seq<Event>, k: Key)
    ensures AuthProgress(log, k) >= 1 ==> exists i :: AuthBegan(log, k, i)
    ensures AuthProgress(log, k) >= 2 ==> exists i, j :: Authorized(log, k, i, j)
    ensures AuthProgress(log, k) == 3 ==> exists i, j, p :: AuthorizedAndPushed(log, k, i, j, p)
  {
    if log != [] {
      var before, e := log[..|log| - 1], log[|log| - 1];
      AuthProgressMeans(before, k);
      var p := AuthProgress(before, k);
      if StartsAuth(e, k) {
        assert AuthBegan(log, k, |log| - 1);
      } else {
        if p >= 1 {
          var i :| AuthBegan(before, k, i);
          assert AuthBegan(log, k, i);
          if p == 1 && e == Ran(k, OnAuth, true) { assert Authorized(log, k, i, |log| - 1); }
        }
        if p >= 2 {
          var i, j :| Authorized(before, k, i, j);
          assert Authorized(log, k, i, j);
          if p == 2 && PushTo(e, k.host) { assert AuthorizedAndPushed(log, k, i, j, |log| - 1); }
        }
        if p == 3 {
          var i, j, q :| AuthorizedAndPushed(before, k, i, j, q);
          assert AuthorizedAndPushed(log, k, i, j, q);
        }
      }
    }
  }

  lemma {:induction false} DeauthProgressMeans(log: seq<Event>, k: Key)
    ensures DeauthProgress(log, k) >= 1 ==> exists i :: DeauthBegan(log, k, i)
    ensures DeauthProgress(log, k) >= 2 ==> exists i, j :: Deauthorized(log, k, i, j)
    ensures DeauthProgress(log, k) >= 3 ==> exists i, j, p :: DeauthorizedAndPushed(log, k, i, j, p)
    ensures DeauthProgress(log, k) == 4 ==> exists i, j, p, d :: CleanedUp(log, k, i, j, p, d)
  {
    if log != [] {
      var before, e := log[..|log| - 1], log[|log| - 1];
      DeauthProgressMeans(before, k);
      var p := DeauthProgress(before, k);
      if StartsDeauth(e, k) {
        assert DeauthBegan(log, k, |log| - 1);
      } else {
        if p >= 1 {
          var i :| DeauthBegan(before, k, i);
          assert DeauthBegan(log, k, i);
          if p == 1 && e == Ran(k, OnDeauth, true) { assert Deauthorized(log, k, i, |log| - 1); }
        }
        if p >= 2 {
          var i, j :| Deauthorized(before, k, i, j);
          assert Deauthorized(log, k, i, j);
          if p == 2 && PushTo(e, k.host) { assert DeauthorizedAndPushed(log, k, i, j, |log| - 1); }
        }
        if p >= 3 {
          var i, j, q :| DeauthorizedAndPushed(before, k, i, j, q);
          assert DeauthorizedAndPushed(log, k, i, j, q);
          if p == 3 && e == RanDeauthConverged(k, true) { assert CleanedUp(log, k, i, j, q, |log| - 1); }
        }
        if p == 4 {
          var i, j, q, d :| CleanedUp(before, k, i, j, q, d);
          assert DeauthorizedAndPushed(log, k, i, j, q);
          assert CleanedUp(log, k, i, j, q, d);
        }
      }
    }
  }

  /** A role in PRE_AUTH has had a successful on_auth since it last entered START_APPLY or START_EDIT,
      and a role in AUTH_CONVERGING a successful push after that, crashes or not. */
  lemma AuthorizedBeforePush(s: Sys, k: Key)
    requires Reachable(s)
    ensures StateOf(s.table, k) == PreAuth ==> exists i, j :: Authorized(s.log, k, i, j)
    ensures StateOf(s.table, k) == AuthConverging ==>
      exists i, j, p :: AuthorizedAndPushed(s.log, k, i, j, p)
  {
    ReachableInv(s);
    EarnedNow(s, k);
    AuthProgressMeans(s.log, k);
  }

  /** The dual for removal. */
  lemma DeauthorizedBeforePush(s: Sys, k: Key)
    requires Reachable(s)
    ensures StateOf(s.table, k) == PreDeauth ==> exists i, j :: Deauthorized(s.log, k, i, j)
    ensures StateOf(s.table, k) in {DeauthConverging, DeauthConverged} ==>
      exists i, j, p :: DeauthorizedAndPushed(s.log, k, i, j, p)
  {
    ReachableInv(s);
    EarnedNow(s, k);
    DeauthProgressMeans(s.log, k);
  }

  /** Whenever an association is dropped out of DEAUTH_CONVERGED, on_deauth, a push to the host and
      on_deauth_converged have each succeeded, in this order, since the removal was started. */
  lemma DroppedOnlyAfterCleanup(s: Sys, m: nat)
    requires Reachable(s) && m < |s.log|
    requires s.log[m].Moved? && s.log[m].from == DeauthConverged && s.log[m].to == NotApplied
    ensures exists i, j, p, d :: CleanedUp(s.log[..m], s.log[m].key, i, j, p, d)
  {
    ReachableInv(s);
    assert Justified(s.log[..m], s.log[m]);
    DeauthProgressMeans(s.log[..m], s.log[m].key);
  }

  // ---------- which reports move a role ----------

  /** Position p is the latest push to the host, and the process has not restarted since. */
  ghost predicate IsLatestPush(log: seq<Event>, host: string, p: int) {
    0 <= p < |log| && PushTo(log[p], host) && forall m :: p < m < |log| ==> !PushTo(log[m], host) && !log[m].Crashed?
  }

  lemma {:induction false} LatestPushIs(log: seq<Event>, host: string, p: int)
    requires IsLatestPush(log, host, p)
    ensures LatestPush(log, host) == Some(log[p].at)
  {
    if p < |log| - 1 {
      assert IsLatestPush(log[..|log| - 1], host, p);
      LatestPushIs(log[..|log| - 1], host, p);
    }
  }

  /** A role leaves AUTH_CONVERGING or DEAUTH_CONVERGING only because of a host report, and if the host
      is responding, never because of one received before the latest push of the same process. It
      reaches a CONVERGED state on a responding host only by an ok report that satisfies the expected
      configuration of the poll, and an ERROR state only by a report of failure. */
  lemma OnlyFreshReportsMoveRoles(s: Sys, m: nat)
    requires Reachable(s) && m < |s.log|
    requires s.log[m].Moved? && s.log[m].from in {AuthConverging, DeauthConverging}
    ensures var (log, e) := (s.log[..m], s.log[m]);
      && e.cause.ByReport?
      && (e.cause.report.responding ==> forall p :: IsLatestPush(log, e.key.host, p) ==> e.cause.report.receivedAt > log[p].at)
      && (e.cause.report.responding && e.to in {AuthConverged, DeauthConverged} ==> Confirms(e.cause.report, e.cause.expected))
      && (e.to in {AuthError, DeauthError} ==> e.cause.report.status == Failed)
      && e.to in {AuthConverged, DeauthConverged, AuthError, DeauthError}
  {
    ReachableInv(s);
    var log, e := s.log[..m], s.log[m];
    assert Justified(log, e);
    forall p | IsLatestPush(log, e.key.host, p)
      ensures e.cause.report.responding ==> e.cause.report.receivedAt > log[p].at
    {
      LatestPushIs(log, e.key.host, p);
    }
  }
}
