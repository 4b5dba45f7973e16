/** What decides the outcome of a step of the role life cycle: the handler that ran for it. */
module RoleOutcomes {
  import opened Wrappers
  import opened AppsConfig
  import opened RoleStates
  import opened Associations
  import opened RoleProtocol
  import opened RoleInvariant
  import opened RolePreservation
  import opened RoleTheorems

  /** The handler that ran last for a role since the role last moved, and whether it succeeded. */
  function LastRun(log: seq<Event>, k: Key): Option<(Work, bool)> {
    if log == [] then None else RunStep(LastRun(log[..|log| - 1], k), log[|log| - 1], k)
  }

  function RunStep(last: Option<(Work, bool)>, e: Event, k: Key): Option<(Work, bool)> {
    match e
    case Ran(q, work, ok) => if q == k then Some((work, ok)) else last
    case Moved(q, _, _, _) => if q == k then None else last
    case _ => last
  }

  lemma RunAppend(log: seq<Event>, e: Event, k: Key)
    ensures LastRun(log + [e], k) == RunStep(LastRun(log, k), e, k)
  {
    assert (log + [e])[..|log|] == log;
  }

  /** The moves by commands and reports. A start is undone only where the role was new. */
  predicate OutsideJobs(from: RoleState, to: RoleState) {
    from in {NotApplied, Applied, AuthError, DeauthError, AuthConverging, DeauthConverging} ||
    (from == StartApply && to == NotApplied)
  }

  /** Where a job leads, and where its failure does, written out for the jobs that run a handler. */
  predicate Decided(log: seq<Event>, e: Event) {
    e.Moved? ==> if !e.cause.ByJob? then OutsideJobs(e.from, e.to) else
      match e.from
      case StartApply =>
        || (e.to == PreAuth && LastRun(log, e.key) == Some((OnAuth, true)))
        || (e.to == NotApplied && LastRun(log, e.key) == Some((OnAuth, false)))
      case StartEdit =>
        || (e.to == PreAuth && LastRun(log, e.key) == Some((OnAuth, true)))
        || (e.to == Applied && LastRun(log, e.key) == Some((OnAuth, false)))
      case StartDeauth =>
        || (e.to == PreDeauth && LastRun(log, e.key) == Some((OnDeauth, true)))
        || (e.to == Applied && LastRun(log, e.key) == Some((OnDeauth, false)))
      case AuthConverged =>
        || (e.to == Applied && LastRun(log, e.key) == Some((OnAuthConverged, true)))
        || (e.to == AuthError && LastRun(log, e.key) == Some((OnAuthConverged, false)))
      case _ => true
  }

  /** The thread that is about to leave a context knows how its handler ended. */
  predicate Remembered(log: seq<Event>, pc: Pc) {
    pc.Closing? && !pc.job.work.Push? ==> LastRun(log, pc.job.key) == Some((pc.job.work, pc.ok))
  }

  ghost predicate Outcomes(s: Sys) {
    && (forall t :: Remembered(s.log, PcOf(s, t)))
    && forall m :: 0 <= m < |s.log| ==> Decided(s.log[..m], s.log[m])
  }

  // ---------- what a step logs ----------

  /** The one event that a step may log, and what it says about the step. */
  ghost predicate Logs(s: Sys, l: Label, s': Sys) {
    s'.log == s.log ||
    exists e :: s'.log == s.log + [e] && Explains(s, l, s', e)
  }

  ghost predicate Explains(s: Sys, l: Label, s': Sys, e: Event) {
    match e
    case Ran(k, work, ok) =>
      && l.RunBody? && l.ok == ok
      && PcOf(s, l.tid).Working? && PcOf(s, l.tid).job.key == k && PcOf(s, l.tid).job.work == work
    case Moved(k, from, to, cause) =>
      && StateOf(s.table, k) == from && StateOf(s'.table, k) == to
      && (cause.ByJob? || OutsideJobs(from, to))
      && (cause.ByJob? && from != DeauthConverged ==>
            && l.Close?
            && PcOf(s, l.tid).Closing?
            && var Closing(job, ok, _) := PcOf(s, l.tid);
               job.key == k && job.start == from && to == if ok then job.success else job.failure)
    case _ => true
  }

  lemma CasExplains(s: Sys, k: Key, from: RoleState, to: RoleState, cause: Cause)
    requires UniqueByName(s.table)
    ensures var s1 := CompareAndSet(s, k, from, to, cause).0;
      s1.log == s.log || (s1.log == s.log + [Moved(k, from, to, cause)] && StateOf(s.table, k) == from &&
                          StateOf(s1.table, k) == to)
  {
    AdvanceEffect(s.table, k, from, to);
  }

  lemma TryExplains(s: Sys, t: Tid)
    requires UniqueByName(s.table) && StepTry(s, t).Some?
    ensures Logs(s, Try(t), StepTry(s, t).value)
  {
    hide CompareAndSet;
    var Trying(k, i, purpose) := PcOf(s, t);
    match AttemptAt(purpose, i)
    case None =>
    case Some(a) =>
      CasExplains(s, k, a.from, a.to, CauseOf(s, purpose));
      var e := Moved(k, a.from, a.to, CauseOf(s, purpose));
      if StepTry(s, t).value.log != s.log {
        assert Explains(s, Try(t), StepTry(s, t).value, e);
      }
  }

  lemma CloseExplains(s: Sys, t: Tid, caught: bool)
    requires UniqueByName(s.table) && StepClose(s, t, caught).Some?
    ensures Logs(s, Close(t, caught), StepClose(s, t, caught).value)
  {
    hide CompareAndSet, UniqueByName, StateOf;
    var Closing(job, ok, back) := PcOf(s, t);
    var to := if ok then job.success else job.failure;
    CasExplains(s, job.key, job.start, to, ByJob);
    var s' := StepClose(s, t, caught).value;
    if s'.log != s.log {
      assert Explains(s, Close(t, caught), s', Moved(job.key, job.start, to, ByJob));
    }
  }

  lemma DropExplains(s: Sys, ok: bool)
    requires Reachable(s) && StepDrop(s, ok).Some?
    ensures Logs(s, Drop(ok), StepDrop(s, ok).value)
  {
    ReachableInv(s);
    PcHolds(s, Poller);
    hide CompareAndSet, Reachable;
    var Dropping(k, phase, back) := PcOf(s, Poller);
    var s' := StepDrop(s, ok).value;
    match phase
    case DropHandler => assert Explains(s, Drop(ok), s', RanDeauthConverged(k, ok));
    case DropRemove =>
      RemoveEffect(s.table, k);
      if s'.log != s.log {
        assert Explains(s, Drop(ok), s', Moved(k, DeauthConverged, NotApplied, ByJob));
      }
    case DropHostCheck =>
    case DropError =>
      CasExplains(s, k, DeauthConverged, DeauthError, ByJob);
      if s'.log != s.log {
        assert Explains(s, Drop(ok), s', Moved(k, DeauthConverged, DeauthError, ByJob));
      }
  }

  lemma StepExplains(s: Sys, l: Label)
    requires Reachable(s) && Step(s, l).Some?
    ensures Logs(s, l, Step(s, l).value)
  {
    hide Logs, Reachable;
    match l
    case Try(t) => NoDuplicateRows(s); TryExplains(s, t);
    case Close(t, caught) => NoDuplicateRows(s); CloseExplains(s, t, caught);
    case Drop(ok) => DropExplains(s, ok);
    case RunBody(t, ok, now) => BodyExplains(s, t, ok, now);
    case RollBack(id) => RollBackExplains(s, id);
    case _ => OthersExplain(s, l);
  }

  lemma NoDuplicateRows(s: Sys)
    requires Reachable(s)
    ensures UniqueByName(s.table)
  {
    ReachableInv(s);
  }

  lemma BodyExplains(s: Sys, t: Tid, ok: bool, now: int)
    requires StepRunBody(s, t, ok, now).Some?
    ensures Logs(s, RunBody(t, ok, now), StepRunBody(s, t, ok, now).value)
  {
    var job, s' := PcOf(s, t).job, StepRunBody(s, t, ok, now).value;
    if s'.log != s.log {
      assert Explains(s, RunBody(t, ok, now), s',
        if job.work.Push? then Pushed(job.key.host, now) else Ran(job.key, job.work, ok));
    }
  }

  lemma RollBackExplains(s: Sys, id: nat)
    requires Reachable(s) && Step(s, RollBack(id)).Some?
    ensures Logs(s, RollBack(id), Step(s, RollBack(id)).value)
  {
    ReachableInv(s);
    PcHolds(s, Api(id));
    hide Reachable, StateOf;
    var k, s' := PcOf(s, Api(id)).key, Step(s, RollBack(id)).value;
    RemoveEffect(s.table, k);
    if s'.log != s.log {
      assert Explains(s, RollBack(id), s', Moved(k, StateOf(s.table, k), NotApplied, ByCommand));
    }
  }

  lemma OthersExplain(s: Sys, l: Label)
    requires Step(s, l).Some?
    requires !l.Try? && !l.Close? && !l.Drop? && !l.RunBody? && !l.RollBack?
    ensures Logs(s, l, Step(s, l).value)
  {
    hide StepTry, StepClose, StepDrop, StepReport, CompareAndSet, Dispatch, ListsRolesOf, MayUnwind, Associate;
    var s' := Step(s, l).value;
    match l
    case Repush(ok, now) =>
      if s'.log != s.log {
        assert Explains(s, l, s', Pushed(PcOf(s, Poller).host, now));
      }
    case Crash => assert Explains(s, l, s', Crashed);
    case ReadReport(report, roles) => ReportIsSilent(s, report, roles);
    case AdvanceNext =>
    case _ =>
  }

  lemma ReportIsSilent(s: Sys, report: Report, roles: seq<string>)
    requires StepReport(s, report, roles).Some?
    ensures StepReport(s, report, roles).value.log == s.log
  {
  }

  // ---------- the invariant ----------

  /** A thread comes to the end of a context only by running the body. */
  lemma ClosingAfterBody(s: Sys, l: Label, t: Tid)
    requires Step(s, l).Some? && Actor(l) == Some(t) && PcOf(Step(s, l).value, t).Closing?
    ensures l.RunBody? && l.tid == t && PcOf(s, t).Working?
    ensures PcOf(Step(s, l).value, t) == Closing(PcOf(s, t).job, l.ok, PcOf(s, t).back)
  {
    hide CompareAndSet, ListsRolesOf, Judge, Associate, Present;
    match l
    case Try(_) =>
    case Close(_, _) =>
    case Drop(_) =>
    case RunBody(_, _, _) =>
    case ReadReport(_, _) =>
    case AdvanceNext =>
    case _ =>
  }

  lemma BodyLogs(s: Sys, t: Tid, ok: bool, now: int)
    requires PcOf(s, t).Working? && !PcOf(s, t).job.work.Push?
    ensures Step(s, RunBody(t, ok, now)).value.log == s.log + [Ran(PcOf(s, t).job.key, PcOf(s, t).job.work, ok)]
  {
  }

  /** No other thread runs a handler for the role of a context, or moves it. */
  lemma UndisturbedRun(s: Sys, l: Label, t: Tid)
    requires Reachable(s) && Step(s, l).Some? && !l.Crash? && Actor(l) != Some(t) && PcOf(s, t).Closing?
    requires History(Step(s, l).value.log)
    ensures LastRun(Step(s, l).value.log, PcOf(s, t).job.key) == LastRun(s.log, PcOf(s, t).job.key)
  {
    var s', k := Step(s, l).value, PcOf(s, t).job.key;
    StepExplains(s, l);
    if s'.log != s.log {
      var e :| s'.log == s.log + [e] && Explains(s, l, s', e);
      RunAppend(s.log, e, k);
      BodyRunsUndisturbed(s, l, t);
      MovesAreMoves(s.log, e);
      if e.Ran? && e.key == k {
        OneWorker(s, l.tid, t);
      }
    }
  }

  lemma MovesAreMoves(log: seq<Event>, e: Event)
    requires History(log + [e])
    ensures e.Moved? ==> e.from != e.to
  {
    assert (log + [e])[..|log|] == log && (log + [e])[|log|] == e;
    assert Justified(log, e);
  }

  lemma OneWorker(s: Sys, u: Tid, t: Tid)
    requires Reachable(s) && PcOf(s, u).Working? && PcOf(s, t).Closing? && PcOf(s, u).job.key == PcOf(s, t).job.key
    ensures u == t
  {
    ReachableInv(s);
    PcHolds(s, u);
    if u != t {
      ClaimsExclude(s, u, t, PcOf(s, t).job.key);
    }
  }

  lemma RemembersOn(s: Sys, l: Label, t: Tid)
    requires Reachable(s) && Outcomes(s) && Step(s, l).Some? && History(Step(s, l).value.log)
    ensures Remembered(Step(s, l).value.log, PcOf(Step(s, l).value, t))
  {
    hide History, Reachable, Justified;
    var s' := Step(s, l).value;
    if PcOf(s', t).Closing? {
      if Actor(l) == Some(t) {
        ClosingAfterBody(s, l, t);
        var job := PcOf(s, t).job;
        if !job.work.Push? {
          BodyLogs(s, t, l.ok, l.now);
          RunAppend(s.log, Ran(job.key, job.work, l.ok), job.key);
        }
      } else if !l.Crash? {
        OnlyActorMoves(s, l, t);
        UndisturbedRun(s, l, t);
        assert Remembered(s.log, PcOf(s, t));
      }
    }
  }

  lemma DecidedNow(s: Sys, l: Label, e: Event)
    requires Reachable(s) && Outcomes(s) && Step(s, l).Some? && Explains(s, l, Step(s, l).value, e)
    ensures Decided(s.log, e)
  {
    if e.Moved? && e.cause.ByJob? && e.from != DeauthConverged {
      ReachableInv(s);
      PcHolds(s, l.tid);
      assert Remembered(s.log, PcOf(s, l.tid));
    }
  }

  lemma OutcomesStep(s: Sys, l: Label)
    requires Reachable(s) && Outcomes(s) && Step(s, l).Some?
    ensures Outcomes(Step(s, l).value)
  {
    hide Step, Decided, Remembered, Reachable, Inv;
    var s' := Step(s, l).value;
    ReachableInv(s);
    StepKeepsInv(s, l);
    HistoryOf(s');
    forall t ensures Remembered(s'.log, PcOf(s', t)) {
      RemembersOn(s, l, t);
    }
    StepExplains(s, l);
    if s'.log != s.log {
      var e :| s'.log == s.log + [e] && Explains(s, l, s', e);
      DecidedNow(s, l, e);
      forall m | 0 <= m < |s'.log| ensures Decided(s'.log[..m], s'.log[m]) {
        if m < |s.log| {
          assert s'.log[..m] == s.log[..m];
        } else {
          assert s'.log[..m] == s.log;
        }
      }
    }
  }

  lemma HistoryOf(s: Sys)
    requires Inv(s)
    ensures History(s.log)
  {
  }

  lemma {:induction false} RunOutcomes(labels: seq<Label>)
    requires Run(INITIAL, labels).Some?
    ensures Reachable(Run(INITIAL, labels).value) && Outcomes(Run(INITIAL, labels).value)
  {
    hide Step;
    if labels != [] {
      var n := |labels| - 1;
      RunOutcomes(labels[..n]);
      OutcomesStep(Run(INITIAL, labels[..n]).value, labels[n]);
    }
  }

  lemma {:induction false} LastRunMeans(log: seq<Event>, k: Key)
    ensures LastRun(log, k).Some? ==>
      exists j :: RanLast(log, k, j) && log[j] == Ran(k, LastRun(log, k).value.0, LastRun(log, k).value.1)
  {
    if log != [] {
      var n := |log| - 1;
      LastRunMeans(log[..n], k);
      if log[n].Ran? && log[n].key == k {
        assert RanLast(log, k, n);
      } else if LastRun(log, k).Some? {
        var j :| RanLast(log[..n], k, j) && log[..n][j] == Ran(k, LastRun(log, k).value.0, LastRun(log, k).value.1);
        assert RanLast(log, k, j);
      }
    }
  }

  /** Position j is where the last handler of the role ran, and the role has not moved since. */
  ghost predicate RanLast(log: seq<Event>, k: Key, j: int) {
    && 0 <= j < |log| && log[j].Ran? && log[j].key == k
    && forall i :: j < i < |log| ==> !(log[i].Moved? && log[i].key == k) && !(log[i].Ran? && log[i].key == k)
  }

  ghost predicate HandlerRan(log: seq<Event>, k: Key, work: Work, ok: bool) {
    exists j :: RanLast(log, k, j) && log[j] == Ran(k, work, ok)
  }

  /** Whatever the interleaving, a role that leaves one of the states in which a handler runs goes where the
      outcome of that handler says, and nowhere else: the last thing that happened to the role is the run of
      that handler. The one exception is a new role whose start is undone by the call that started it. */
  lemma HandlersDecide(s: Sys, m: nat)
    requires Reachable(s) && m < |s.log| && s.log[m].Moved?
    ensures var (log, k, from, to) := (s.log[..m], s.log[m].key, s.log[m].from, s.log[m].to);
      && (from == AuthConverged ==> to in {Applied, AuthError} && HandlerRan(log, k, OnAuthConverged, to == Applied))
      && (from == StartApply && s.log[m].cause.ByJob? ==>
            to in {PreAuth, NotApplied} && HandlerRan(log, k, OnAuth, to == PreAuth))
      && (from == StartApply && !s.log[m].cause.ByJob? ==> to == NotApplied)
      && (from == StartEdit ==> to in {PreAuth, Applied} && HandlerRan(log, k, OnAuth, to == PreAuth))
      && (from == StartDeauth ==> to in {PreDeauth, Applied} && HandlerRan(log, k, OnDeauth, to == PreDeauth))
  {
    var labels :| Run(INITIAL, labels) == Some(s);
    RunOutcomes(labels);
    LastRunMeans(s.log[..m], s.log[m].key);
    assert Decided(s.log[..m], s.log[m]);
  }

  // ---------- what a report leads to ----------

  /** What the poller does with the report of an authorized host. The roles fail exactly on a fresh report of
      failure. Otherwise a host that does not respond is taken to be done; and one that does is done exactly
      on a fresh ok report that satisfies the expected configuration, and is sent the configuration again
      exactly if what it reports to have (ok) or to be heading for (not ok) does not satisfy it. */
  lemma ReportsLeadTo(s: Sys, report: Report, roles: seq<string>)
    requires PcOf(s, Poller).Advanced? && PcOf(s, Poller).host in s.snapshot
    requires ListsRolesOf(s.table, PcOf(s, Poller).host, roles)
    ensures Step(s, ReadReport(report, roles)).Some?
    ensures var host := PcOf(s, Poller).host;
      var expected := s.snapshot[host].expected;
      var recent := host in s.lastPush ==> report.receivedAt > s.lastPush[host];
      var failed := recent && report.status == Failed;
      var wanted := Satisfies(expected, if report.status == Ok then report.apps else report.desiredApps);
      var s' := Step(s, ReadReport(report, roles)).value;
      && s' == s.(pcs := s'.pcs)
      && (PcOf(s', Poller) == Sweeping(Sweep(host, roles, report, false)) <==> failed)
      && (PcOf(s', Poller) == Sweeping(Sweep(host, roles, report, true)) <==>
            !failed && (!report.responding || (recent && report.status == Ok && wanted)))
      && (PcOf(s', Poller) == Repushing(host) <==> !failed && report.responding && !wanted)
      && (PcOf(s', Poller) == Polling <==>
            !failed && report.responding && wanted && !(recent && report.status == Ok))
  {
    hide Satisfies, ListsRolesOf;
  }
}
