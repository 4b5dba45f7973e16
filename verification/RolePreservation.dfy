/** Every step of the role protocol keeps the invariant. */
module RolePreservation {
  import opened Wrappers
  import opened RoleStates
  import opened Associations
  import opened RoleProtocol
  import opened RoleInvariant

  /** What holds of a state change by a thread, apart from the thread's own program counter. */
  ghost predicate Sound(s: Sys, s': Sys, t: Tid) {
    Core(s') && Guarantee(s, s', t)
  }

  lemma Conclude(s: Sys, s': Sys, t: Tid)
    requires Inv(s) && Sound(s, s', t)
    ensures PcOk(s', t, PcOf(s', t)) ==> Inv(s')
  {
    OthersKept(s, s', t);
  }

  ghost predicate SameControl(s: Sys, s': Sys, t: Tid) {
    && (t.Api? ==> s'.snapshot == s.snapshot)
    && (forall u :: u != t ==> PcOf(s', u) == PcOf(s, u))
    && (forall u :: u != t && s.lock == Some(u) ==> s'.lock == Some(u))
  }

  /** Nothing but one role has moved. */
  ghost predicate OnlyMoved(s: Sys, s': Sys, k: Key) {
    && SameElsewhere(s.table, s'.table, k)
    && (forall q :: q != k ==> AuthProgress(s'.log, q) == AuthProgress(s.log, q))
    && (forall q :: q != k ==> DeauthProgress(s'.log, q) == DeauthProgress(s.log, q))
    && (forall h :: LatestPush(s'.log, h) == LatestPush(s.log, h))
  }

  lemma MoveGuarantee(s: Sys, s': Sys, t: Tid, k: Key)
    requires Inv(s) && MayMove(s, t, StateOf(s.table, k))
    requires OnlyMoved(s, s', k) && SameControl(s, s', t)
    ensures Guarantee(s, s', t)
  {
    forall u, q | u != t && Claim(PcOf(s, u)) == Some(q)
      ensures q != k && Present(s'.table, q)
    {
      ClaimsExclude(s, t, u, q);
      PcHolds(s, u);
    }
  }

  lemma SilentGuarantee(s: Sys, s': Sys, t: Tid)
    requires Inv(s) && s'.table == s.table && s'.log == s.log && SameControl(s, s', t)
    ensures Guarantee(s, s', t)
  {
    forall u, q | u != t && Claim(PcOf(s, u)) == Some(q) ensures Present(s'.table, q) {
      PcHolds(s, u);
    }
  }

  /** Control moves that change neither the table nor the log. */
  lemma SilentStep(s: Sys, s': Sys, t: Tid)
    requires Inv(s)
    requires s'.table == s.table && s'.log == s.log && s'.lastPush == s.lastPush
    requires SameControl(s, s', t)
    ensures PcOk(s', t, PcOf(s', t)) ==> Inv(s')
  {
    SilentGuarantee(s, s', t);
    Conclude(s, s', t);
  }

  lemma QuietGuarantee(s: Sys, s': Sys, t: Tid)
    requires Inv(s) && SameControl(s, s', t)
    requires forall q :: StateOf(s'.table, q) == StateOf(s.table, q) && (Present(s.table, q) ==> Present(s'.table, q))
    requires t.Api? ==> forall h :: LatestPush(s'.log, h) == LatestPush(s.log, h)
    requires forall q :: AuthProgress(s'.log, q) >= AuthProgress(s.log, q)
    requires forall q :: DeauthProgress(s'.log, q) >= DeauthProgress(s.log, q)
    ensures Guarantee(s, s', t)
  {
    forall u, q | u != t && Claim(PcOf(s, u)) == Some(q) ensures Present(s'.table, q) {
      PcHolds(s, u);
    }
  }

  predicate NeedsLog(to: RoleState) {
    to in {PreAuth, AuthConverging, PreDeauth, DeauthConverging, DeauthConverged}
  }

  /** What a compare-and-set does to the table and the log. */
  lemma CasCore(s: Sys, k: Key, from: RoleState, to: RoleState, cause: Cause)
    requires Core(s)
    requires Justified(s.log, Moved(k, from, to, cause))
    requires NeedsLog(to) && StateOf(s.table, k) == from ==> Earned(s.log, k, to)
    ensures var (s1, ok) := CompareAndSet(s, k, from, to, cause);
      && Core(s1)
      && OnlyMoved(s, s1, k)
      && s1 == s.(table := s1.table, log := s1.log)
      && (ok <==> Present(s.table, k) && StateOf(s.table, k) == from)
      && (ok ==> Present(s1.table, k) && StateOf(s1.table, k) == to)
      && (!ok ==> s1 == s)
  {
    AdvanceEffect(s.table, k, from, to);
    var (s1, ok) := CompareAndSet(s, k, from, to, cause);
    if ok {
      TransitionEvent(s, s1, k, from, to, cause);
    }
  }

  /** A compare-and-set by a thread that may move the role, followed by a control move. */
  lemma CasStep(s: Sys, s': Sys, t: Tid, k: Key, from: RoleState, to: RoleState, cause: Cause)
    requires Inv(s) && MayMove(s, t, from)
    requires s' == CompareAndSet(s, k, from, to, cause).0.(pcs := s'.pcs, lock := s'.lock)
    requires SameControl(s, s', t)
    requires Justified(s.log, Moved(k, from, to, cause))
    requires NeedsLog(to) && StateOf(s.table, k) == from ==> Earned(s.log, k, to)
    ensures Sound(s, s', t) && OnlyMoved(s, s', k)
    ensures var ok := CompareAndSet(s, k, from, to, cause).1;
      && (ok <==> Present(s.table, k) && StateOf(s.table, k) == from)
      && (ok ==> Present(s'.table, k) && StateOf(s'.table, k) == to)
      && (!ok ==> s'.table == s.table && s'.log == s.log)
  {
    CasCore(s, k, from, to, cause);
    if CompareAndSet(s, k, from, to, cause).1 {
      MoveGuarantee(s, s', t, k);
    } else {
      SilentGuarantee(s, s', t);
    }
  }

  /** Removing an association by a thread that may move the role. */
  lemma DropStep(s: Sys, s': Sys, t: Tid, k: Key, cause: Cause)
    requires Inv(s) && Present(s.table, k) && MayMove(s, t, StateOf(s.table, k))
    requires s' == DropAssociation(s, k, cause).(pcs := s'.pcs, lock := s'.lock)
    requires SameControl(s, s', t)
    requires Justified(s.log, Moved(k, StateOf(s.table, k), NotApplied, cause))
    ensures Sound(s, s', t) && OnlyMoved(s, s', k) && !Present(s'.table, k)
  {
    RemoveEffect(s.table, k);
    TransitionEvent(s, s', k, StateOf(s.table, k), NotApplied, cause);
    MoveGuarantee(s, s', t, k);
  }

  // ---------- the steps ----------

  /** The thread may move the role of an attempt, and the move is justified. */
  lemma AttemptFacts(s: Sys, t: Tid, k: Key, i: nat, purpose: Purpose)
    requires Core(s) && PcOk(s, t, Trying(k, i, purpose)) && AttemptAt(purpose, i).Some?
    ensures var Attempt(from, to) := AttemptAt(purpose, i).value;
      && MayMove(s, t, from)
      && Justified(s.log, Moved(k, from, to, CauseOf(s, purpose)))
      && (StateOf(s.table, k) == from && NeedsLog(to) ==> Earned(s.log, k, to))
  {
    assert Earned(s.log, k, StateOf(s.table, k));
  }

  lemma TryLands(s': Sys, t: Tid, k: Key, to: RoleState, purpose: Purpose)
    requires Present(s'.table, k) && StateOf(s'.table, k) == to
    requires match purpose
             case AddPurpose(isNew) =>
               t.Api? && s'.lock == Some(t) && to in {StartApply, StartEdit} && (isNew ==> to == StartApply)
             case DeletePurpose => t.Api? && s'.lock == Some(t) && to == StartDeauth
             case SweepPurpose(w) => t.Poller? && SweepOk(s', w)
    ensures PcOk(s', t, AfterSuccess(k, to, purpose))
  {
  }

  lemma TryKeepsInv(s: Sys, t: Tid)
    requires Inv(s) && StepTry(s, t).Some?
    ensures Inv(StepTry(s, t).value)
  {
    hide Core, Sound;
    var s' := StepTry(s, t).value;
    var Trying(k, i, purpose) := PcOf(s, t);
    PcHolds(s, t);
    if AttemptAt(purpose, i).None? {
      SilentStep(s, s', t);
    } else {
      var Attempt(from, to) := AttemptAt(purpose, i).value;
      AttemptFacts(s, t, k, i, purpose);
      CasStep(s, s', t, k, from, to, CauseOf(s, purpose));
      if CompareAndSet(s, k, from, to, CauseOf(s, purpose)).1 {
        TryLands(s', t, k, to, purpose);
      }
      Conclude(s, s', t);
    }
  }

  /** A handler run or a push: the table stays, one event that is not a transition is logged. */
  lemma QuietStep(s: Sys, s': Sys, t: Tid, e: Event)
    requires Inv(s) && !e.Moved? && !e.Crashed?
    requires s'.table == s.table && s'.log == s.log + [e]
    requires s'.lastPush == (if e.Pushed? then s.lastPush[e.host := e.at] else s.lastPush)
    requires e.Pushed? ==> t.Poller?
    requires SameControl(s, s', t)
    ensures PcOk(s', t, PcOf(s', t)) ==> Inv(s')
    ensures forall k :: AuthProgress(s'.log, k) == AuthStep(AuthProgress(s.log, k), e, k)
    ensures forall k :: DeauthProgress(s'.log, k) == DeauthStep(DeauthProgress(s.log, k), e, k)
    ensures forall h :: LatestPush(s'.log, h) == PushStep(LatestPush(s.log, h), e, h)
  {
    LogAppend(s.log, e);
    QuietEvent(s, s', e);
    QuietGuarantee(s, s', t);
    Conclude(s, s', t);
  }

  lemma EarnedNow(s: Sys, k: Key)
    requires Core(s)
    ensures Earned(s.log, k, StateOf(s.table, k))
  {
  }

  /** The body of a job leaves in the log what the target state needs. */
  lemma RunLands(s: Sys, s': Sys, t: Tid, job: Job, ok: bool, back: Back, e: Event)
    requires JobOk(s, t, job, back) && Earned(s.log, job.key, job.start)
    requires if job.work.Push? then e.Pushed? && e.host == job.key.host else e == Ran(job.key, job.work, ok)
    requires job.work.Push? ==> ok && back.ToAdvance?
    requires s'.table == s.table && s'.lock == s.lock && s'.snapshot == s.snapshot
    requires AuthProgress(s'.log, job.key) == AuthStep(AuthProgress(s.log, job.key), e, job.key)
    requires DeauthProgress(s'.log, job.key) == DeauthStep(DeauthProgress(s.log, job.key), e, job.key)
    requires forall h :: LatestPush(s'.log, h) == PushStep(LatestPush(s.log, h), e, h)
    ensures PcOk(s', t, Closing(job, ok, back))
  {
  }

  lemma PushIsForPoller(s: Sys, t: Tid, job: Job, back: Back)
    requires JobOk(s, t, job, back) && job.work.Push?
    ensures t.Poller? && back.ToAdvance?
  {
  }

  lemma RunBodyKeepsInv(s: Sys, t: Tid, ok: bool, now: int)
    requires Inv(s) && StepRunBody(s, t, ok, now).Some?
    ensures Inv(StepRunBody(s, t, ok, now).value)
  {
    var s' := StepRunBody(s, t, ok, now).value;
    var Working(job, back) := PcOf(s, t);
    PcHolds(s, t);
    if job.work.Push? {
      PushIsForPoller(s, t, job, back);
    }
    if job.work.Push? && !ok {
      SilentStep(s, s', t);
    } else {
      var e := if job.work.Push? then Pushed(job.key.host, now) else Ran(job.key, job.work, ok);
      EarnedNow(s, job.key);
      QuietStep(s, s', t, e);
      RunLands(s, s', t, job, ok, back, e);
    }
  }

  /** The two transitions of a job are legal, allowed to its thread, and earned. */
  lemma JobFacts(s: Sys, t: Tid, job: Job, ok: bool, back: Back)
    requires JobOk(s, t, job, back) && (ok ==> BodyDone(s, job))
    requires ok || job.start != job.failure
    ensures var to := if ok then job.success else job.failure;
      && MayMove(s, t, job.start)
      && Justified(s.log, Moved(job.key, job.start, to, ByJob))
      && (NeedsLog(to) ==> Earned(s.log, job.key, to))
  {
  }

  lemma CloseLands(s: Sys, s': Sys, t: Tid, job: Job, ok: bool, back: Back)
    requires JobOk(s, t, job, back)
    requires s'.snapshot == s.snapshot && (back.ToAdvance? ==> s'.lock == s.lock)
    requires forall h :: LatestPush(s'.log, h) == LatestPush(s.log, h)
    ensures PcOk(s', t, Idle)
    ensures back.ToAdvance? ==> PcOk(s', t, Advancing(back.host, back.roles))
    ensures back.ToSweep? ==> PcOk(s', t, Sweeping(back.sweep))
  {
  }

  lemma CloseMoves(s: Sys, s': Sys, t: Tid, job: Job, ok: bool, back: Back)
    requires Inv(s) && PcOf(s, t) == Closing(job, ok, back) && (ok || job.start != job.failure)
    requires s' == CompareAndSet(s, job.key, job.start, if ok then job.success else job.failure, ByJob).0.(pcs := s'.pcs, lock := s'.lock)
    requires SameControl(s, s', t) && (back.ToAdvance? && ok ==> s'.lock == s.lock)
    ensures s'.snapshot == s.snapshot && forall h :: LatestPush(s'.log, h) == LatestPush(s.log, h)
    ensures PcOk(s', t, PcOf(s', t)) ==> Inv(s')
  {
    PcHolds(s, t);
    JobFacts(s, t, job, ok, back);
    CasStep(s, s', t, job.key, job.start, if ok then job.success else job.failure, ByJob);
    Conclude(s, s', t);
  }

  /** Where control is after a context, and that nothing else moved. */
  lemma CloseShape(s: Sys, t: Tid, caught: bool)
    requires StepClose(s, t, caught).Some?
    ensures var (s', Closing(job, ok, back)) := (StepClose(s, t, caught).value, PcOf(s, t));
      && (if !ok && job.start == job.failure then s' == s.(pcs := s'.pcs, lock := s'.lock)
          else s' == CompareAndSet(s, job.key, job.start, if ok then job.success else job.failure, ByJob).0.(pcs := s'.pcs, lock := s'.lock))
      && SameControl(s, s', t)
      && (back.ToAdvance? && ok ==> s'.lock == s.lock)
      && PcOf(s', t) == match back
                        case ToApi => Idle
                        case ToAdvance(host, roles) => if ok then Advancing(host, roles) else Idle
                        case ToSweep(sweep) => if ok || caught then Sweeping(sweep) else Idle
  {
  }

  lemma CloseKeepsInv(s: Sys, t: Tid, caught: bool)
    requires Inv(s) && StepClose(s, t, caught).Some?
    ensures Inv(StepClose(s, t, caught).value)
  {
    hide Core, Sound, SweepOk, CompareAndSet;
    CloseShape(s, t, caught);
    var s' := StepClose(s, t, caught).value;
    var Closing(job, ok, back) := PcOf(s, t);
    PcHolds(s, t);
    if !ok && job.start == job.failure {
      SilentStep(s, s', t);
    } else {
      CloseMoves(s, s', t, job, ok, back);
    }
    if back.ToAdvance? && !ok {
      assert PcOk(s', t, Idle);
    } else {
      CloseLands(s, s', t, job, ok, back);
    }
  }

  lemma ResumeLands(s: Sys, s': Sys, k: Key, phase: DropPhase, back: Back)
    requires PcOk(s, Poller, Dropping(k, phase, back))
    requires s'.snapshot == s.snapshot && s'.lock == s.lock
    requires forall h :: LatestPush(s'.log, h) == LatestPush(s.log, h)
    ensures back.ToAdvance? ==> PcOk(s', Poller, Advancing(back.host, back.roles))
    ensures back.ToSweep? ==> PcOk(s', Poller, Sweeping(back.sweep))
    ensures !back.ToApi?
    ensures forall p :: p in {DropHostCheck, DropError} ==> PcOk(s', Poller, Dropping(k, p, back))
  {
  }

  lemma DropFacts(s: Sys, k: Key, phase: DropPhase, back: Back)
    requires PcOk(s, Poller, Dropping(k, phase, back))
    ensures MayMove(s, Poller, DeauthConverged)
    ensures Justified(s.log, Moved(k, DeauthConverged, DeauthError, ByJob))
    ensures phase.DropRemove? ==> Justified(s.log, Moved(k, DeauthConverged, NotApplied, ByJob))
    ensures phase in {DropHandler, DropRemove} ==> Present(s.table, k) && StateOf(s.table, k) == DeauthConverged
  {
  }

  lemma DropHandlerKeepsInv(s: Sys, ok: bool, k: Key, back: Back)
    requires Inv(s) && PcOf(s, Poller) == Dropping(k, DropHandler, back)
    ensures Inv(StepDrop(s, ok).value)
  {
    var s' := StepDrop(s, ok).value;
    PcHolds(s, Poller);
    EarnedNow(s, k);
    QuietStep(s, s', Poller, RanDeauthConverged(k, ok));
    ResumeLands(s, s', k, DropHandler, back);
  }

  lemma DropKeepsInv(s: Sys, ok: bool)
    requires Inv(s) && StepDrop(s, ok).Some?
    ensures Inv(StepDrop(s, ok).value)
  {
    hide Core, Sound;
    var s' := StepDrop(s, ok).value;
    var Dropping(k, phase, back) := PcOf(s, Poller);
    PcHolds(s, Poller);
    if phase.DropHandler? {
      DropHandlerKeepsInv(s, ok, k, back);
    } else if phase.DropRemove? && ok {
      DropFacts(s, k, phase, back);
      DropStep(s, s', Poller, k, ByJob);
      ResumeLands(s, s', k, phase, back);
      Conclude(s, s', Poller);
    } else if phase.DropError? {
      DropFacts(s, k, phase, back);
      ResumeLands(s, s, k, phase, back);
      CasStep(s, s', Poller, k, DeauthConverged, DeauthError, ByJob);
      ResumeLands(s, s', k, phase, back);
      Conclude(s, s', Poller);
    } else {
      ResumeLands(s, s', k, phase, back);
      SilentStep(s, s', Poller);
    }
  }

  lemma ApiKeepsInv(s: Sys, l: Label)
    requires Inv(s) && Step(s, l).Some?
    requires l.AddRole? || l.DeleteRole? || l.AssociateRole? || l.LookUpRole? || l.Credentials? || l.RollBack?
    ensures Inv(Step(s, l).value)
  {
    var s' := Step(s, l).value;
    var t := Api(l.id);
    var pc := PcOf(s, t);
    PcHolds(s, t);
    if l.AssociateRole? {
      AssociateEffect(s.table, pc.key, pc.version);
      QuietGuarantee(s, s', t);
      forall k ensures StateOf(s'.table, k) == StateOf(s.table, k) {}
      Conclude(s, s', t);
    } else if l.RollBack? {
      DropStep(s, s', t, pc.key, ByCommand);
      Conclude(s, s', t);
    } else {
      SilentStep(s, s', t);
    }
  }

  lemma AdvanceNextKeepsInv(s: Sys)
    requires Inv(s) && PcOf(s, Poller).Advancing?
    ensures Inv(Step(s, AdvanceNext).value)
  {
    hide Core;
    var Advancing(host, roles) := PcOf(s, Poller);
    PcHolds(s, Poller);
    SilentStep(s, Step(s, AdvanceNext).value, Poller);
  }

  lemma ReadReportKeepsInv(s: Sys, report: Report, roles: seq<string>)
    requires Inv(s) && StepReport(s, report, roles).Some?
    ensures Inv(StepReport(s, report, roles).value)
  {
    PcHolds(s, Poller);
    SilentStep(s, StepReport(s, report, roles).value, Poller);
  }

  lemma RepushKeepsInv(s: Sys, ok: bool, now: int)
    requires Inv(s) && PcOf(s, Poller).Repushing?
    ensures Inv(Step(s, Repush(ok, now)).value)
  {
    var s' := Step(s, Repush(ok, now)).value;
    if ok {
      QuietStep(s, s', Poller, Pushed(PcOf(s, Poller).host, now));
    } else {
      SilentStep(s, s', Poller);
    }
  }

  lemma PollerKeepsInv(s: Sys, l: Label)
    requires Inv(s) && Step(s, l).Some?
    requires l.PollBegin? || l.PollEnd? || l.AdvanceHost? || l.NoReport? || l.SweepNext?
    ensures Inv(Step(s, l).value)
  {
    hide Core;
    PcHolds(s, Poller);
    SilentStep(s, Step(s, l).value, Poller);
  }

  lemma CrashKeepsInv(s: Sys)
    requires Inv(s)
    ensures Inv(Step(s, Crash).value)
  {
    var s' := Step(s, Crash).value;
    LogAppend(s.log, Crashed);
    QuietEvent(s, s', Crashed);
  }

  lemma StepKeepsInv(s: Sys, l: Label)
    requires Inv(s) && Step(s, l).Some?
    ensures Inv(Step(s, l).value)
  {
    match l
    case Try(t) => TryKeepsInv(s, t);
    case RunBody(t, ok, now) => RunBodyKeepsInv(s, t, ok, now);
    case Close(t, caught) => CloseKeepsInv(s, t, caught);
    case Drop(ok) => DropKeepsInv(s, ok);
    case Unwind(t) => SilentStep(s, Step(s, l).value, t);
    case Crash => CrashKeepsInv(s);
    case AdvanceNext => AdvanceNextKeepsInv(s);
    case ReadReport(report, roles) => ReadReportKeepsInv(s, report, roles);
    case Repush(ok, now) => RepushKeepsInv(s, ok, now);
    case _ =>
      if l.AddRole? || l.DeleteRole? || l.AssociateRole? || l.LookUpRole? || l.Credentials? || l.RollBack? {
        ApiKeepsInv(s, l);
      } else {
        PollerKeepsInv(s, l);
      }
  }

  lemma {:induction false} RunKeepsInv(s: Sys, labels: seq<Label>)
    requires Inv(s) && Run(s, labels).Some?
    ensures Inv(Run(s, labels).value)
  {
    if labels != [] {
      RunKeepsInv(s, labels[..|labels| - 1]);
      StepKeepsInv(Run(s, labels[..|labels| - 1]).value, labels[|labels| - 1]);
    }
  }

  lemma ReachableInv(s: Sys)
    requires Reachable(s)
    ensures Inv(s)
  {
    assert Inv(INITIAL) by {
      assert forall k :: StateOf(INITIAL.table, k) == NotApplied by {
        forall k ensures StateOf(INITIAL.table, k) == NotApplied { assert RowsOf(INITIAL.table, k) == {}; }
      }
    }
    var labels :| Run(INITIAL, labels) == Some(s);
    RunKeepsInv(INITIAL, labels);
  }
}
