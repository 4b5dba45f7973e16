/** The operations of the resource manager in imperative form. Each method is proved to take only
    steps of the role protocol, so everything proved of the protocol's runs holds of it. */
module ResourceManager {
  import opened Wrappers
  import opened RoleStates
  import opened Associations
  import opened RoleProtocol
  import opened RoleInvariant
  import opened RolePreservation

  datatype Update = Updated | NotUpdated | InvalidState

  /** The association table behind dbutils.py. */
  class ResMgrDb {
    var rows: Table

    constructor ()
      ensures rows == map[]
    {
      rows := map[];
    }

    /** advance_role_state */
    method AdvanceRoleState(k: Key, current: RoleState, next: RoleState) returns (r: Update)
      modifies this
      ensures r.InvalidState? <==> !LegalTransition(current, next)
      ensures r.InvalidState? ==> rows == old(rows)
      ensures !r.InvalidState? ==> (rows, r.Updated?) == Advance(old(rows), k, current, next)
    {
      if !LegalTransition(current, next) {
        return InvalidState;
      }
      var hit := Matching(rows, k, current);
      if |hit| == 0 {
        return NotUpdated;
      } else if |hit| > 1 {
        return NotUpdated;
      } else {
        rows := SetRows(rows, hit, next);
        return Updated;
      }
    }

    /** associate_role_to_host */
    method AssociateRoleToHost(k: Key, version: string) returns (isNew: bool)
      requires UniqueByName(rows)
      modifies this
      ensures (rows, isNew) == Associate(old(rows), k, version)
    {
      var found := RowsOf(rows, k);
      if found != {} {
        var prior :| prior in found;
        StateOfRow(rows, prior, k);
        rows := (rows - {prior})[Row(k.host, k.role, version) := rows[prior]];
        return false;
      } else {
        rows := rows[Row(k.host, k.role, version) := NotApplied];
        return true;
      }
    }

    /** remove_role_from_host */
    method RemoveRoleFromHost(k: Key) returns (removed: bool)
      modifies this
      ensures rows == Remove(old(rows), k)
      ensures UniqueByName(old(rows)) ==> (removed <==> Present(old(rows), k))
    {
      var found := RowsOf(rows, k);
      if UniqueByName(rows) && found != {} {
        ghost var r :| r in found;
        StateOfRow(rows, r, k);
      }
      removed := |found| == 1;
      rows := rows - found;
    }

    /** get_current_role_association: the state of the association, if there is one */
    method GetCurrentRoleAssociation(k: Key) returns (state: Option<RoleState>)
      requires UniqueByName(rows)
      ensures state.Some? <==> Present(rows, k)
      ensures state.Some? ==> state.value == StateOf(rows, k)
    {
      var found := RowsOf(rows, k);
      if found == {} {
        return None;
      }
      var r :| r in found;
      StateOfRow(rows, r, k);
      return Some(rows[r]);
    }
  }

  /** How many more jobs _advance_from_transient_state may run from a state. */
  function Rank(s: RoleState): nat {
    match s
    case StartApply => 3
    case StartEdit => 3
    case StartDeauth => 3
    case PreAuth => 2
    case PreDeauth => 2
    case AuthConverged => 1
    case DeauthConverged => 1
    case _ => 0
  }

  lemma BodyEffect(s: Sys, t: Tid, job: Job, back: Back, ok: bool, now: int)
    requires PcOf(s, t) == Working(job, back)
    ensures var s' := Step(s, RunBody(t, ok, now));
      && s'.Some?
      && s'.value == s.(pcs := s'.value.pcs, log := s'.value.log, lastPush := s'.value.lastPush)
      && PcOf(s'.value, t) == Closing(job, ok, back)
      && s.log <= s'.value.log
      && s'.value.lastPush == (if job.work.Push? && ok then s.lastPush[job.key.host := now] else s.lastPush)
      && (!job.work.Push? ==> s'.value.log == s.log + [Ran(job.key, job.work, ok)])
      && (job.work.Push? && ok ==> s'.value.log == s.log + [Pushed(job.key.host, now)])
  {
  }

  /** The log has gained this event, and lost none. */
  ghost predicate Gained(before: seq<Event>, after: seq<Event>, e: Event) {
    before <= after && e in after[|before|..]
  }

  lemma GainedMore(before: seq<Event>, between: seq<Event>, after: seq<Event>, e: Event)
    requires before <= between <= after && e in between[|before|..]
    ensures Gained(before, after, e)
  {
    var j :| 0 <= j < |between| - |before| && between[|before|..][j] == e;
    assert after[|before|..][j] == e;
  }

  /** Where control is after a job that did not end the operation. */
  function Landing(back: Back): Pc {
    match back
    case ToApi => Idle
    case ToAdvance(host, roles) => Advancing(host, roles)
    case ToSweep(sweep) => Sweeping(sweep)
  }

  predicate CloseUpdates(job: Job, ok: bool) {
    ok || job.start != job.failure
  }

  function CloseTarget(job: Job, ok: bool): RoleState {
    if ok then job.success else job.failure
  }

  lemma CloseControl(s: Sys, t: Tid, job: Job, ok: bool, back: Back)
    requires PcOf(s, t) == Closing(job, ok, back)
    ensures var s' := Step(s, Close(t, true));
      && s'.Some?
      && s'.value.snapshot == s.snapshot && s'.value.lastPush == s.lastPush && s.log <= s'.value.log
      && s'.value.table == (if CloseUpdates(job, ok) then Advance(s.table, job.key, job.start, CloseTarget(job, ok)).0 else s.table)
      && (back.ToApi? || (back.ToAdvance? && !ok) ==>
            PcOf(s'.value, t).Idle? && s'.value.lock == if s.lock == Some(t) then None else s.lock)
      && (back.ToAdvance? && ok ==> PcOf(s'.value, t) == Advancing(back.host, back.roles) && s'.value.lock == s.lock)
      && (back.ToSweep? ==> PcOf(s'.value, t) == Sweeping(back.sweep) && s'.value.lock == s.lock)
  {
    hide CompareAndSet, Advance;
    CasShape(s, job.key, job.start, CloseTarget(job, ok), ByJob);
  }

  lemma CasShape(s: Sys, k: Key, from: RoleState, to: RoleState, cause: Cause)
    ensures var s1 := CompareAndSet(s, k, from, to, cause).0;
      s1 == s.(table := Advance(s.table, k, from, to).0, log := s1.log) && s.log <= s1.log
  {
  }

  lemma WorkedHolds(s: Sys, t: Tid, job: Job, ok: bool, back: Back)
    requires Reachable(s) && PcOf(s, t) == Closing(job, ok, back)
    ensures UniqueByName(s.table) && Present(s.table, job.key) && StateOf(s.table, job.key) == job.start
    ensures LegalTransition(job.start, job.success)
    ensures job.start != job.failure ==> LegalTransition(job.start, job.failure)
  {
    ReachableInv(s);
    PcHolds(s, t);
  }

  lemma CloseMovesRole(s: Sys, t: Tid, job: Job, ok: bool, back: Back)
    requires Reachable(s) && PcOf(s, t) == Closing(job, ok, back)
    ensures LegalTransition(job.start, job.success)
    ensures job.start != job.failure ==> LegalTransition(job.start, job.failure)
    ensures var table := (if CloseUpdates(job, ok) then Advance(s.table, job.key, job.start, CloseTarget(job, ok)).0 else s.table);
      && StateOf(table, job.key) == CloseTarget(job, ok) && Present(table, job.key)
      && table.Keys == s.table.Keys && SameElsewhere(s.table, table, job.key)
  {
    WorkedHolds(s, t, job, ok, back);
    hide Reachable, Advance, StateOf, Present, LegalTransition;
    AdvanceEffect(s.table, job.key, job.start, CloseTarget(job, ok));
  }

  lemma WorkingHolds(s: Sys, t: Tid, job: Job, back: Back)
    requires Reachable(s) && PcOf(s, t) == Working(job, back)
    ensures JobOk(s, t, job, back)
  {
    ReachableInv(s);
    PcHolds(s, t);
  }

  lemma DroppingHolds(s: Sys, k: Key, phase: DropPhase, back: Back)
    requires Reachable(s) && PcOf(s, Poller) == Dropping(k, phase, back)
    ensures UniqueByName(s.table) && !back.ToApi?
    ensures phase in {DropHandler, DropRemove} ==> Present(s.table, k) && StateOf(s.table, k) == DeauthConverged
  {
    ReachableInv(s);
    PcHolds(s, Poller);
  }

  lemma DropControl(s: Sys, k: Key, phase: DropPhase, back: Back, ok: bool)
    requires PcOf(s, Poller) == Dropping(k, phase, back) && !back.ToApi?
    ensures var s' := Step(s, Drop(ok));
      && s'.Some?
      && s'.value == s.(table := s'.value.table, pcs := s'.value.pcs, log := s'.value.log)
      && s.log <= s'.value.log
      && (phase.DropHandler? ==> s'.value.log == s.log + [RanDeauthConverged(k, ok)])
      && (phase.DropHandler? ==>
            s'.value.table == s.table && PcOf(s'.value, Poller) == Dropping(k, if ok then DropRemove else DropError, back))
      && (phase.DropRemove? ==> PcOf(s'.value, Poller) == Dropping(k, if ok then DropHostCheck else DropError, back))
      && (phase.DropRemove? ==> s'.value.table == if ok then Remove(s.table, k) else s.table)
      && (phase.DropHostCheck? ==> s'.value.table == s.table)
      && (phase.DropHostCheck? && !ok ==> PcOf(s'.value, Poller) == Dropping(k, DropError, back))
      && (phase.DropError? ==> s'.value.table == Advance(s.table, k, DeauthConverged, DeauthError).0)
      && ((phase.DropHostCheck? && ok) || phase.DropError? ==>
            PcOf(s'.value, Poller) == Landing(back))
  {
    if phase.DropRemove? && !Present(s.table, k) {
      assert Remove(s.table, k) == s.table;
    }
  }

  lemma AdvanceControl(s: Sys, host: string, roles: seq<string>)
    requires PcOf(s, Poller) == Advancing(host, roles)
    ensures var s' := Step(s, AdvanceNext);
      && s'.Some?
      && s'.value == s.(pcs := s'.value.pcs, lock := s'.value.lock)
      && (roles == [] ==> PcOf(s'.value, Poller) == Advanced(host) && s'.value.lock.None?)
      && (roles != [] ==>
            s'.value.lock == s.lock && PcOf(s'.value, Poller) == Dispatch(Key(host, roles[0]), StateOf(s.table, Key(host, roles[0])), roles))
  {
  }

  lemma NoDuplicates(s: Sys)
    requires Reachable(s)
    ensures UniqueByName(s.table)
  {
    ReachableInv(s);
  }

  lemma TryControl(s: Sys, t: Tid, k: Key, i: nat, purpose: Purpose)
    requires Reachable(s) && PcOf(s, t) == Trying(k, i, purpose)
    ensures var s' := Step(s, Try(t));
      && s'.Some?
      && s'.value.snapshot == s.snapshot && s'.value.lastPush == s.lastPush && s.log <= s'.value.log
      && match AttemptAt(purpose, i)
         case None =>
           && s'.value.table == s.table
           && (purpose.SweepPurpose? ==> PcOf(s'.value, t) == Sweeping(purpose.sweep) && s'.value.lock == s.lock)
           && (!purpose.SweepPurpose? ==> PcOf(s'.value, t) == Idle && s'.value.lock.None?)
         case Some(a) =>
           var (table, ok) := Advance(s.table, k, a.from, a.to);
           && s'.value.table == table && s'.value.lock == s.lock
           && PcOf(s'.value, t) == if ok then AfterSuccess(k, a.to, purpose) else Trying(k, i + 1, purpose)
  {
    TryingHolds(s, t, k, i, purpose);
    hide Reachable, CompareAndSet, Advance, AfterSuccess, CauseOf;
    match AttemptAt(purpose, i)
    case None =>
    case Some(a) => CasOutcome(s, k, a.from, a.to, CauseOf(s, purpose));
  }

  lemma TryingHolds(s: Sys, t: Tid, k: Key, i: nat, purpose: Purpose)
    requires Reachable(s) && PcOf(s, t) == Trying(k, i, purpose)
    ensures !purpose.SweepPurpose? ==> s.lock == Some(t)
  {
    ReachableInv(s);
    PcHolds(s, t);
  }

  lemma CasOutcome(s: Sys, k: Key, from: RoleState, to: RoleState, cause: Cause)
    ensures var (s1, ok) := CompareAndSet(s, k, from, to, cause);
      && s1 == s.(table := Advance(s.table, k, from, to).0, log := s1.log) && s.log <= s1.log
      && ok == Advance(s.table, k, from, to).1
  {
  }

  lemma RollBackControl(s: Sys, id: nat, k: Key)
    requires Reachable(s) && PcOf(s, Api(id)) == AddRollback(k)
    ensures var s' := Step(s, RollBack(id));
      && s'.Some?
      && s'.value.table == Remove(s.table, k) && s'.value.lastPush == s.lastPush
      && PcOf(s'.value, Api(id)) == Idle && s'.value.lock.None?
  {
    ReachableInv(s);
    PcHolds(s, Api(id));
  }

  lemma AbsentMeansNotApplied(t: Table, k: Key)
    ensures !Present(t, k) ==> StateOf(t, k) == NotApplied
  {
  }

  lemma RowsByKeys(t: Table, t': Table, k: Key)
    requires t.Keys == t'.Keys
    ensures RowsOf(t, k) == RowsOf(t', k)
  {
  }

  lemma GainedSince(before: seq<Event>, between: seq<Event>, after: seq<Event>, e: Event)
    requires before <= between && Gained(between, after, e)
    ensures Gained(before, after, e)
  {
    var j :| 0 <= j < |after| - |between| && after[|between|..][j] == e;
    assert after[|before|..][j + |between| - |before|] == e;
  }

  /** What one pass of _finish_role_converge or _fail_role_converge does to a role: ok tells whether, after
      a success, the last handler and the removal of a role to be dropped succeeded. */
  predicate SweptTo(before: RoleState, after: RoleState, finish: bool, ok: bool) {
    match before
    case AuthConverging => after == if finish && ok then Applied else AuthError
    case DeauthConverging => after == if finish && ok then NotApplied else DeauthError
    case _ => after == before
  }

  /** The first i roles of a sweep are done, the rest and all other roles are as before. */
  ghost predicate SweptUpTo(before: Table, now: Table, w: Sweep, oks: seq<bool>) {
    var i := |oks|;
    && (forall j :: 0 <= j < i && j < |w.roles| ==>
          SweptTo(StateOf(before, Key(w.host, w.roles[j])), StateOf(now, Key(w.host, w.roles[j])), w.finish, oks[j]))
    && (forall q: Key :: q.host != w.host || q.role !in w.roles || (exists j :: i <= j < |w.roles| && w.roles[j] == q.role) ==>
          StateOf(now, q) == StateOf(before, q))
  }

  predicate Distinct(roles: seq<string>) {
    forall i, j :: 0 <= i < j < |roles| ==> roles[i] != roles[j]
  }

  lemma SweptOneMore(before: Table, now: Table, after: Table, w: Sweep, oks: seq<bool>, ok: bool)
    requires SweptUpTo(before, now, w, oks) && |oks| < |w.roles| && Distinct(w.roles)
    requires SameElsewhere(now, after, Key(w.host, w.roles[|oks|]))
    requires SweptTo(StateOf(now, Key(w.host, w.roles[|oks|])), StateOf(after, Key(w.host, w.roles[|oks|])), w.finish, ok)
    ensures SweptUpTo(before, after, w, oks + [ok])
  {
  }

  /** The outcome of a pass is that of the handler or the push that the state calls for; a role that is
      dropped needs a successful removal as well. */
  ghost predicate Explained(k: Key, state: RoleState, ok: bool, before: seq<Event>, after: seq<Event>) {
    match state
    case StartApply => Gained(before, after, Ran(k, OnAuth, ok))
    case StartEdit => Gained(before, after, Ran(k, OnAuth, ok))
    case PreAuth => ok ==> exists at :: Gained(before, after, Pushed(k.host, at))
    case AuthConverged => Gained(before, after, Ran(k, OnAuthConverged, ok))
    case StartDeauth => Gained(before, after, Ran(k, OnDeauth, ok))
    case PreDeauth => ok ==> exists at :: Gained(before, after, Pushed(k.host, at))
    case DeauthConverged => exists handled :: Gained(before, after, RanDeauthConverged(k, handled)) && (ok ==> handled)
    case _ => ok
  }

  lemma FinishExplained(k: Key, handled: bool, ok: bool, before: seq<Event>, between: seq<Event>, after: seq<Event>)
    requires before <= between
    ensures Gained(between, after, Ran(k, OnAuthConverged, ok)) ==> Explained(k, AuthConverged, ok, before, after)
    ensures Gained(between, after, RanDeauthConverged(k, handled)) && (ok ==> handled) ==>
      Explained(k, DeauthConverged, ok, before, after)
  {
    hide Gained;
    if Gained(between, after, Ran(k, OnAuthConverged, ok)) {
      GainedSince(before, between, after, Ran(k, OnAuthConverged, ok));
    }
    if Gained(between, after, RanDeauthConverged(k, handled)) {
      GainedSince(before, between, after, RanDeauthConverged(k, handled));
    }
  }

  lemma RemovalExplained(k: Key, ok: bool, before: seq<Event>, between: seq<Event>, after: seq<Event>)
    requires before <= between
    ensures Explained(k, DeauthConverged, ok, between, after) ==> Explained(k, DeauthConverged, ok, before, after)
  {
    hide Gained;
    if Explained(k, DeauthConverged, ok, between, after) {
      var handled :| Gained(between, after, RanDeauthConverged(k, handled)) && (ok ==> handled);
      GainedSince(before, between, after, RanDeauthConverged(k, handled));
    }
  }

  /** Where a role is after _advance_from_transient_state has returned, from the state it was in. */
  predicate AdvancedTo(before: RoleState, after: RoleState) {
    match before
    case StartApply => after == AuthConverging
    case StartEdit => after == AuthConverging
    case PreAuth => after == AuthConverging
    case AuthConverged => after == Applied
    case StartDeauth => after == DeauthConverging
    case PreDeauth => after == DeauthConverging
    case DeauthConverged => after in {NotApplied, DeauthError}
    case _ => after == before
  }

  /** Where a role is if the handler or the push that was to move it on has failed. */
  predicate FailedTo(before: RoleState, after: RoleState) {
    match before
    case StartApply => after in {NotApplied, PreAuth}
    case StartEdit => after in {Applied, PreAuth}
    case PreAuth => after == PreAuth
    case AuthConverged => after == AuthError
    case StartDeauth => after in {Applied, PreDeauth}
    case PreDeauth => after == PreDeauth
    case _ => false
  }

  /** The roles before the i-th have been moved on, the i-th has failed, and the rest is as before. */
  ghost predicate BrokenOffAt(before: Table, now: Table, host: string, roles: seq<string>, i: nat)
    requires i < |roles|
  {
    && FailedTo(StateOf(before, Key(host, roles[i])), StateOf(now, Key(host, roles[i])))
    && (forall j :: 0 <= j < i ==> AdvancedTo(StateOf(before, Key(host, roles[j])), StateOf(now, Key(host, roles[j]))))
    && (forall q: Key :: q.host != host || q.role !in roles[..i + 1] ==> StateOf(now, q) == StateOf(before, q))
  }

  /** A role that has further to go ends where it would have ended before. */
  predicate OnTheWay(before: RoleState, now: RoleState) {
    before == now ||
    match before
    case StartApply => now in {PreAuth, AuthConverging}
    case StartEdit => now in {PreAuth, AuthConverging}
    case PreAuth => now == AuthConverging
    case StartDeauth => now in {PreDeauth, DeauthConverging}
    case PreDeauth => now == DeauthConverging
    case _ => false
  }

  /** A role that fails has not been moved on before. */
  lemma NotBefore(before: Table, now: Table, after: Table, host: string, roles: seq<string>, i: nat)
    requires i < |roles| && SameElsewhere(now, after, Key(host, roles[i]))
    requires FailedTo(StateOf(now, Key(host, roles[i])), StateOf(after, Key(host, roles[i])))
    requires forall j :: 0 <= j < i ==> AdvancedTo(StateOf(before, Key(host, roles[j])), StateOf(now, Key(host, roles[j])))
    requires forall q: Key :: q.host != host || q.role !in roles[..i] ==> StateOf(now, q) == StateOf(before, q)
    ensures BrokenOffAt(before, after, host, roles, i)
  {
    hide StateOf;
    assert roles[..i + 1] == roles[..i] + [roles[i]];
    assert forall j :: 0 <= j < i ==> roles[j] != roles[i];
  }

  datatype ApiResult = Accepted | HandlerFailed | LookupFailed | NotCreated | NotStored | Conflict | NotAssigned

  class RoleManager {
    const db: ResMgrDb
    var lastPush: map<string, int>
    ghost var sys: Sys

    ghost predicate Valid()
      reads this, db
    {
      Reachable(sys) && sys.table == db.rows && sys.lastPush == lastPush
    }

    constructor (db: ResMgrDb)
      requires db.rows == map[]
      ensures Valid() && this.db == db && sys == INITIAL
    {
      this.db := db;
      lastPush := map[];
      sys := INITIAL;
      new;
      assert Run(INITIAL, []) == Some(INITIAL);
    }

    /** One step of the protocol. */
    ghost method Take(l: Label)
      requires Reachable(sys) && Step(sys, l).Some?
      modifies this`sys
      ensures Reachable(sys) && sys == Step(old(sys), l).value
    {
      var labels :| Run(INITIAL, labels) == Some(sys);
      assert (labels + [l])[..|labels|] == labels;
      sys := Step(sys, l).value;
      assert Run(INITIAL, labels + [l]) == Some(sys);
    }

    /** A role event handler: any outcome is possible. */
    method RunEvent() returns (ok: bool)
    {
      ok := *;
    }

    /** push_configuration: on success the time is recorded. */
    method PushConfiguration(host: string) returns (ok: bool, now: int)
      modifies this`lastPush
      ensures lastPush == if ok then old(lastPush)[host := now] else old(lastPush)
    {
      ok, now := *, *;
      if ok {
        lastPush := lastPush[host := now];
      }
    }

    /** The body and the exit of a move_new_state context. */
    method MoveNewState(t: Tid, job: Job, back: Back) returns (ok: bool)
      requires Valid() && PcOf(sys, t) == Working(job, back)
      modifies this, db
      ensures Valid()
      ensures StateOf(db.rows, job.key) == if ok then job.success else job.failure
      ensures old(sys.log) <= sys.log
      ensures !job.work.Push? ==> Gained(old(sys.log), sys.log, Ran(job.key, job.work, ok))
      ensures job.work.Push? && ok ==> exists at :: Gained(old(sys.log), sys.log, Pushed(job.key.host, at))
      ensures Present(db.rows, job.key) && SameElsewhere(old(db.rows), db.rows, job.key)
      ensures db.rows.Keys == old(db.rows).Keys
      ensures sys.snapshot == old(sys.snapshot)
      ensures back.ToApi? || (back.ToAdvance? && !ok) ==> PcOf(sys, t).Idle? && sys.lock.None?
      ensures back.ToAdvance? && ok ==> PcOf(sys, t) == Advancing(back.host, back.roles)
      ensures back.ToSweep? ==> PcOf(sys, t) == Sweeping(back.sweep)
    {
      hide Step;
      WorkingHolds(sys, t, job, back);
      var now := 0;
      if job.work.Push? {
        ok, now := PushConfiguration(job.key.host);
      } else {
        ok := RunEvent();
      }
      BodyEffect(sys, t, job, back, ok, now);
      Take(RunBody(t, ok, now));
      CloseMovesRole(sys, t, job, ok, back);
      CloseControl(sys, t, job, ok, back);
      ghost var between := sys.log;
      if ok {
        var _ := db.AdvanceRoleState(job.key, job.start, job.success);
      } else if job.start != job.failure {
        var _ := db.AdvanceRoleState(job.key, job.start, job.failure);
      }
      Take(Close(t, true));
      if !job.work.Push? {
        GainedMore(old(sys.log), between, sys.log, Ran(job.key, job.work, ok));
      } else if ok {
        GainedMore(old(sys.log), between, sys.log, Pushed(job.key.host, now));
      }
    }

    /** move_to_not_applied_state: any failure on the way ends in DEAUTH_ERROR, unless the association
        is already gone. */
    method MoveToNotAppliedState(k: Key, back: Back) returns (handled: bool, removed: bool)
      requires Valid() && PcOf(sys, Poller) == Dropping(k, DropHandler, back)
      modifies this, db
      ensures Valid()
      ensures StateOf(db.rows, k) == if handled && removed then NotApplied else DeauthError
      ensures SameElsewhere(old(db.rows), db.rows, k)
      ensures Gained(old(sys.log), sys.log, RanDeauthConverged(k, handled))
      ensures sys.snapshot == old(sys.snapshot) && sys.lock == old(sys.lock)
      ensures PcOf(sys, Poller) == Landing(back)
    {
      hide Step, StateOf, Reachable, Present;
      DroppingHolds(sys, k, DropHandler, back);
      handled := RunEvent();
      removed := false;
      DropControl(sys, k, DropHandler, back, handled);
      Take(Drop(handled));
      ghost var between := sys.log;
      var ok := handled;
      if handled {
        ok, removed := RemoveAndCheckHost(k, back);
      }
      if !ok {
        FailDrop(k, back);
      }
      GainedMore(old(sys.log), between, sys.log, RanDeauthConverged(k, handled));
    }

    /** The error handler: the association, if it is still there, moves to DEAUTH_ERROR. */
    method FailDrop(k: Key, back: Back)
      requires Valid() && PcOf(sys, Poller) == Dropping(k, DropError, back)
      requires StateOf(db.rows, k) in {NotApplied, DeauthConverged}
      modifies this, db
      ensures Valid()
      ensures StateOf(db.rows, k) == if StateOf(old(db.rows), k) == DeauthConverged then DeauthError else NotApplied
      ensures SameElsewhere(old(db.rows), db.rows, k) && old(sys.log) <= sys.log
      ensures sys.snapshot == old(sys.snapshot) && sys.lock == old(sys.lock)
      ensures PcOf(sys, Poller) == Landing(back)
    {
      hide Step;
      DroppingHolds(sys, k, DropError, back);
      DropControl(sys, k, DropError, back, false);
      AdvanceEffect(db.rows, k, DeauthConverged, DeauthError);
      var _ := db.AdvanceRoleState(k, DeauthConverged, DeauthError);
      Take(Drop(false));
    }

    /** The removal of the association, and what follows it for the host; either may fail. */
    method RemoveAndCheckHost(k: Key, back: Back) returns (ok: bool, removed: bool)
      requires Valid() && PcOf(sys, Poller) == Dropping(k, DropRemove, back)
      modifies this, db
      ensures Valid()
      ensures StateOf(db.rows, k) == (if removed then NotApplied else DeauthConverged)
      ensures SameElsewhere(old(db.rows), db.rows, k) && old(sys.log) <= sys.log
      ensures ok ==> removed
      ensures sys.snapshot == old(sys.snapshot) && sys.lock == old(sys.lock)
      ensures PcOf(sys, Poller) == if ok then Landing(back) else Dropping(k, DropError, back)
    {
      hide Step;
      DroppingHolds(sys, k, DropRemove, back);
      removed := *; // whether the removal commits
      ok := removed;
      DropControl(sys, k, DropRemove, back, removed);
      RemoveEffect(db.rows, k);
      if removed {
        var _ := db.RemoveRoleFromHost(k);
      }
      Take(Drop(removed));
      if removed {
        ok := *; // whether the rest of the host is cleaned up
        DropControl(sys, k, DropHostCheck, back, ok);
        Take(Drop(ok));
      }
    }

    /** _advance_from_transient_state, under the role update lock, for the roles of the poll's snapshot.
        It terminates; if no handler or push raised, every role it was given is settled; if one did, the
        lock is released and the poll abandoned. */
    method AdvanceFromTransientState(host: string, roles: seq<string>) returns (returned: bool)
      requires Valid() && PcOf(sys, Poller) == Advancing(host, roles)
      modifies this, db
      ensures Valid() && sys.lock.None?
      ensures returned ==> forall r :: r in roles ==>
        AdvancedTo(StateOf(old(db.rows), Key(host, r)), StateOf(db.rows, Key(host, r)))
      ensures returned ==> PcOf(sys, Poller) == Advanced(host)
      ensures !returned ==> PcOf(sys, Poller).Idle?
      ensures !returned ==> exists i :: 0 <= i < |roles| && BrokenOffAt(old(db.rows), db.rows, host, roles, i)
      ensures forall q: Key :: q.host != host || q.role !in roles ==> StateOf(db.rows, q) == StateOf(old(db.rows), q)
    {
      hide StateOf, Reachable, Step;
      var i := 0;
      while i < |roles|
        invariant 0 <= i <= |roles|
        invariant Valid() && PcOf(sys, Poller) == Advancing(host, roles[i..])
        invariant forall j :: 0 <= j < i ==>
          AdvancedTo(StateOf(old(db.rows), Key(host, roles[j])), StateOf(db.rows, Key(host, roles[j])))
        invariant forall q: Key :: q.host != host || q.role !in roles[..i] ==>
          StateOf(db.rows, q) == StateOf(old(db.rows), q)
      {
        assert roles[..i + 1] == roles[..i] + [roles[i]];
        ghost var now := db.rows;
        returned := AdvanceRole(Key(host, roles[i]), roles[i..]);
        if !returned {
          NotBefore(old(db.rows), now, db.rows, host, roles, i);
          return;
        }
        i := i + 1;
      }
      AdvanceControl(sys, host, []);
      Take(AdvanceNext);
      return true;
    }

    /** The inner loop: move one role forward until it is settled. */
    method AdvanceRole(k: Key, roles: seq<string>) returns (returned: bool)
      requires Valid() && roles != [] && k.role == roles[0] && PcOf(sys, Poller) == Advancing(k.host, roles)
      modifies this, db
      ensures Valid() && SameElsewhere(old(db.rows), db.rows, k)
      ensures returned ==> AdvancedTo(StateOf(old(db.rows), k), StateOf(db.rows, k))
      ensures returned ==> PcOf(sys, Poller) == Advancing(k.host, roles[1..])
      ensures !returned ==> PcOf(sys, Poller).Idle? && sys.lock.None?
      ensures !returned ==> FailedTo(StateOf(old(db.rows), k), StateOf(db.rows, k))
    {
      var moreTransitions := true;
      while moreTransitions
        invariant Valid() && SameElsewhere(old(db.rows), db.rows, k)
        invariant PcOf(sys, Poller) == Advancing(k.host, if moreTransitions then roles else roles[1..])
        invariant if moreTransitions then OnTheWay(StateOf(old(db.rows), k), StateOf(db.rows, k))
          else AdvancedTo(StateOf(old(db.rows), k), StateOf(db.rows, k))
        decreases moreTransitions, Rank(StateOf(db.rows, k))
      {
        ghost var ok;
        moreTransitions, returned, ok := AdvanceOnce(k, roles);
        if !returned {
          return;
        }
      }
      return true;
    }

    /** One pass of the inner loop: read the state of the role and run what it calls for. */
    method AdvanceOnce(k: Key, roles: seq<string>) returns (more: bool, returned: bool, ghost ok: bool)
      requires Valid() && roles != [] && k.role == roles[0] && PcOf(sys, Poller) == Advancing(k.host, roles)
      modifies this, db
      ensures Valid() && SameElsewhere(old(db.rows), db.rows, k)
      ensures var state := StateOf(old(db.rows), k);
        StateOf(db.rows, k) ==
          if state.StartApply? then (if ok then PreAuth else NotApplied)
          else if state.StartEdit? then (if ok then PreAuth else Applied)
          else if state.PreAuth? then (if ok then AuthConverging else PreAuth)
          else if state.AuthConverged? then (if ok then Applied else AuthError)
          else if state.StartDeauth? then (if ok then PreDeauth else Applied)
          else if state.PreDeauth? then (if ok then DeauthConverging else PreDeauth)
          else if state.DeauthConverged? then (if ok then NotApplied else DeauthError)
          else state
      ensures Explained(k, StateOf(old(db.rows), k), ok, old(sys.log), sys.log)
      ensures more <==> StateOf(old(db.rows), k) in {StartApply, StartEdit, PreAuth, StartDeauth, PreDeauth}
      ensures returned <==> ok || StateOf(old(db.rows), k) == DeauthConverged
      ensures !returned ==> PcOf(sys, Poller).Idle? && sys.lock.None?
      ensures returned ==> PcOf(sys, Poller) == Advancing(k.host, if more then roles else roles[1..])
    {
      hide Step;
      NoDuplicates(sys);
      AdvanceControl(sys, k.host, roles);
      var assoc := db.GetCurrentRoleAssociation(k);
      Take(AdvanceNext);
      if assoc.None? {
        AbsentMeansNotApplied(db.rows, k);
        return false, true, true;
      }
      more := assoc.value in {StartApply, StartEdit, PreAuth, StartDeauth, PreDeauth};
      match assoc.value {
        case StartApply => returned := MoveNewState(Poller, PreAuthJob(k, StartApply), ToAdvance(k.host, roles));
        case StartEdit => returned := MoveNewState(Poller, PreAuthJob(k, StartEdit), ToAdvance(k.host, roles));
        case PreAuth => returned := MoveNewState(Poller, AuthConvergingJob(k), ToAdvance(k.host, roles));
        case AuthConverged => returned := MoveNewState(Poller, AppliedJob(k), ToAdvance(k.host, roles[1..]));
        case StartDeauth => returned := MoveNewState(Poller, PreDeauthJob(k), ToAdvance(k.host, roles));
        case PreDeauth => returned := MoveNewState(Poller, DeauthConvergingJob(k), ToAdvance(k.host, roles));
        case DeauthConverged =>
          var handled, removed := MoveToNotAppliedState(k, ToAdvance(k.host, roles[1..]));
          return more, true, handled && removed;
        case _ => returned := true;
      }
      ok := returned;
    }

    /** One compare-and-set of an operation that tries several. */
    method TryOnce(t: Tid, k: Key, i: nat, purpose: Purpose) returns (ok: bool)
      requires Valid() && PcOf(sys, t) == Trying(k, i, purpose) && AttemptAt(purpose, i).Some?
      modifies this, db
      ensures Valid() && sys.lock == old(sys.lock) && sys.snapshot == old(sys.snapshot) && old(sys.log) <= sys.log
      ensures var a := AttemptAt(purpose, i).value;
        && (ok <==> Present(old(db.rows), k) && StateOf(old(db.rows), k) == a.from)
        && (ok ==> StateOf(db.rows, k) == a.to && PcOf(sys, t) == AfterSuccess(k, a.to, purpose))
        && (!ok ==> db.rows == old(db.rows) && PcOf(sys, t) == Trying(k, i + 1, purpose))
      ensures UniqueByName(db.rows) && db.rows.Keys == old(db.rows).Keys && Present(db.rows, k) == Present(old(db.rows), k)
      ensures SameElsewhere(old(db.rows), db.rows, k)
    {
      hide Step;
      var a := AttemptAt(purpose, i).value;
      NoDuplicates(sys);
      TryControl(sys, t, k, i, purpose);
      AdvanceEffect(db.rows, k, a.from, a.to);
      AttemptsAreLegal(purpose, i);
      var r := db.AdvanceRoleState(k, a.from, a.to);
      ok := r.Updated?;
      Take(Try(t));
    }

    /** No attempt matched: an API call ends with a conflict, a sweep goes on. */
    ghost method GiveUp(t: Tid, k: Key, i: nat, purpose: Purpose)
      requires Valid() && PcOf(sys, t) == Trying(k, i, purpose) && AttemptAt(purpose, i).None?
      modifies this`sys
      ensures Valid() && sys.snapshot == old(sys.snapshot)
      ensures purpose.SweepPurpose? ==> PcOf(sys, t) == Sweeping(purpose.sweep)
      ensures !purpose.SweepPurpose? ==> PcOf(sys, t) == Idle && sys.lock.None?
    {
      TryControl(sys, t, k, i, purpose);
      Take(Try(t));
    }

    lemma AttemptsAreLegal(purpose: Purpose, i: nat)
      requires AttemptAt(purpose, i).Some?
      ensures LegalTransition(AttemptAt(purpose, i).value.from, AttemptAt(purpose, i).value.to)
    {
    }

    /** query_host_and_app_details: if it raises, the call ends there and the role stays where the call has
        moved it. */
    method LookUpHost(id: nat, job: Job) returns (ok: bool)
      requires Valid() && PcOf(sys, Api(id)) == Working(job, ToApi)
      modifies this
      ensures Valid() && db.rows == old(db.rows)
      ensures ok ==> sys == old(sys)
      ensures !ok ==> PcOf(sys, Api(id)).Idle? && sys.lock.None?
    {
      ok := *;
      if !ok {
        WorkingHolds(sys, Api(id), job, ToApi);
        Take(Unwind(Api(id)));
      }
    }

    /** _move_to_deauth_state: the conflict is reported unless the role is applied or failed. */
    method MoveToDeauthState(t: Tid, k: Key) returns (moved: bool)
      requires Valid() && PcOf(sys, t) == Trying(k, 0, DeletePurpose)
      modifies this, db
      ensures Valid() && SameElsewhere(old(db.rows), db.rows, k)
      ensures moved <==> Present(old(db.rows), k) && StateOf(old(db.rows), k) in {Applied, AuthError, DeauthError}
      ensures moved ==> StateOf(db.rows, k) == StartDeauth && PcOf(sys, t) == Working(PreDeauthJob(k), ToApi)
      ensures !moved ==> db.rows == old(db.rows) && PcOf(sys, t) == Idle && sys.lock.None?
    {
      moved := TryOnce(t, k, 0, DeletePurpose);
      if !moved {
        moved := TryOnce(t, k, 1, DeletePurpose);
        if !moved {
          moved := TryOnce(t, k, 2, DeletePurpose);
          if !moved {
            GiveUp(t, k, 3, DeletePurpose);
          }
        }
      }
    }

    /** The role update lock is taken and the role looked up among those of the host. */
    ghost method BeginDelete(id: nat, k: Key)
      requires Valid() && PcOf(sys, Api(id)).Idle? && sys.lock.None?
      modifies this`sys
      ensures Valid()
      ensures Present(db.rows, k) ==> PcOf(sys, Api(id)) == Trying(k, 0, DeletePurpose)
      ensures !Present(db.rows, k) ==> PcOf(sys, Api(id)) == Idle && sys.lock.None?
    {
      Take(Label.DeleteRole(id, k));
      Take(LookUpRole(id));
    }

    /** delete_role */
    method DeleteRole(id: nat, k: Key) returns (result: ApiResult)
      requires Valid() && PcOf(sys, Api(id)).Idle? && sys.lock.None?
      modifies this, db
      ensures Valid() && PcOf(sys, Api(id)).Idle? && sys.lock.None?
      ensures SameElsewhere(old(db.rows), db.rows, k)
      ensures result.NotAssigned? <==> !Present(old(db.rows), k)
      ensures result.Conflict? <==> Present(old(db.rows), k) && StateOf(old(db.rows), k) !in {Applied, AuthError, DeauthError}
      ensures result in {NotAssigned, Conflict} ==> db.rows == old(db.rows)
      ensures result.Accepted? ==> StateOf(db.rows, k) == PreDeauth
      ensures result.HandlerFailed? ==> StateOf(db.rows, k) == Applied
      ensures result.LookupFailed? ==> StateOf(db.rows, k) == StartDeauth
      ensures !result.NotCreated? && !result.NotStored?
    {
      var associated := RowsOf(db.rows, k) != {};
      BeginDelete(id, k);
      if !associated {
        return NotAssigned;
      }
      var moved := MoveToDeauthState(Api(id), k);
      if !moved {
        return Conflict;
      }
      var ok := LookUpHost(id, PreDeauthJob(k));
      if !ok {
        return LookupFailed;
      }
      ok := MoveNewState(Api(id), PreDeauthJob(k), ToApi);
      return if ok then Accepted else HandlerFailed;
    }

    /** _move_to_apply_edit_state: the state the role was moved to, None for a conflict. */
    method MoveToApplyEditState(t: Tid, k: Key, isNew: bool) returns (moved: Option<RoleState>)
      requires Valid() && PcOf(sys, t) == Trying(k, 0, AddPurpose(isNew)) && Present(db.rows, k)
      modifies this, db
      ensures Valid() && SameElsewhere(old(db.rows), db.rows, k) && Present(db.rows, k)
      ensures db.rows.Keys == old(db.rows).Keys
      ensures moved == match StateOf(old(db.rows), k)
                       case NotApplied => Some(StartApply)
                       case AuthError => Some(StartApply)
                       case Applied => Some(StartEdit)
                       case _ => None
      ensures moved.Some? ==>
        StateOf(db.rows, k) == moved.value && PcOf(sys, t) == AddCredentials(k, isNew, moved.value) && sys.lock == old(sys.lock)
      ensures moved.None? ==> db.rows == old(db.rows) && PcOf(sys, t) == Idle && sys.lock.None?
    {
      var ok := TryOnce(t, k, 0, AddPurpose(isNew));
      if ok {
        return Some(StartApply);
      }
      ok := TryOnce(t, k, 1, AddPurpose(isNew));
      if ok {
        return Some(StartEdit);
      }
      ok := TryOnce(t, k, 2, AddPurpose(isNew));
      if ok {
        return Some(StartApply);
      }
      GiveUp(t, k, 3, AddPurpose(isNew));
      return None;
    }

    ghost method BeginAdd(id: nat, k: Key, version: string)
      requires Valid() && PcOf(sys, Api(id)).Idle? && sys.lock.None?
      modifies this`sys
      ensures Valid() && PcOf(sys, Api(id)) == AddBegin(k, version) && sys.lock == Some(Api(id))
    {
      Take(Label.AddRole(id, k, version));
    }

    method AssociateStep(id: nat, k: Key, version: string) returns (isNew: bool)
      requires Valid() && PcOf(sys, Api(id)) == AddBegin(k, version)
      modifies this, db
      ensures Valid() && (db.rows, isNew) == Associate(old(db.rows), k, version)
      ensures UniqueByName(old(db.rows)) && PcOf(sys, Api(id)) == Trying(k, 0, AddPurpose(isNew)) && sys.lock == old(sys.lock)
    {
      NoDuplicates(sys);
      isNew := db.AssociateRoleToHost(k, version);
      Take(AssociateRole(id));
    }

    /** The rabbit credentials of the role. If they cannot be stored, a new association is removed
        again; if they cannot be created, it stays, because the error handler itself fails. */
    method CredentialsStep(id: nat, k: Key, isNew: bool, start: RoleState) returns (outcome: CredentialsOutcome)
      requires Valid() && PcOf(sys, Api(id)) == AddCredentials(k, isNew, start) && sys.lock == Some(Api(id))
      modifies this, db
      ensures Valid() && SameElsewhere(old(db.rows), db.rows, k)
      ensures outcome.CredentialsOk? ==> PcOf(sys, Api(id)) == Working(PreAuthJob(k, start), ToApi)
      ensures !outcome.CredentialsOk? ==> PcOf(sys, Api(id)) == Idle && sys.lock.None?
      ensures db.rows == if outcome.AssociateFailed? && isNew then Remove(old(db.rows), k) else old(db.rows)
    {
      NoDuplicates(sys);
      var created: bool, stored: bool := *, *;
      if !created {
        Take(Credentials(id, CreateFailed));
        return CreateFailed;
      }
      if stored {
        Take(Credentials(id, CredentialsOk));
        return CredentialsOk;
      }
      Take(Credentials(id, AssociateFailed));
      if isNew {
        RollBackControl(sys, id, k);
        RemoveEffect(db.rows, k);
        var _ := db.RemoveRoleFromHost(k);
        Take(RollBack(id));
      }
      return AssociateFailed;
    }

    /** add_role, from the point where it takes the role update lock. */
    method AddRole(id: nat, k: Key, version: string) returns (result: ApiResult)
      requires Valid() && PcOf(sys, Api(id)).Idle? && sys.lock.None?
      modifies this, db
      ensures Valid() && PcOf(sys, Api(id)).Idle? && sys.lock.None?
      ensures SameElsewhere(old(db.rows), db.rows, k)
      ensures result.Conflict? <==> StateOf(old(db.rows), k) !in {NotApplied, Applied, AuthError}
      ensures result.Conflict? ==> StateOf(db.rows, k) == StateOf(old(db.rows), k)
      ensures result.Accepted? ==> StateOf(db.rows, k) == PreAuth
      ensures result.HandlerFailed? ==>
        StateOf(db.rows, k) == if StateOf(old(db.rows), k) == Applied then Applied else NotApplied
      ensures result.LookupFailed? ==>
        StateOf(db.rows, k) == if StateOf(old(db.rows), k) == Applied then StartEdit else StartApply
      ensures result.NotCreated? ==>
        StateOf(db.rows, k) == if StateOf(old(db.rows), k) == Applied then StartEdit else StartApply
      ensures result.NotStored? && Present(old(db.rows), k) ==>
        StateOf(db.rows, k) == if StateOf(old(db.rows), k) == Applied then StartEdit else StartApply
      ensures result.NotStored? && !Present(old(db.rows), k) ==> !Present(db.rows, k)
      ensures !result.NotAssigned?
      ensures (result.NotStored? ==> Present(old(db.rows), k)) ==> RowsOf(db.rows, k) == {Row(k.host, k.role, version)}
    {
      BeginAdd(id, k, version);
      var isNew := AssociateStep(id, k, version);
      AssociateEffect(old(db.rows), k, version);
      ghost var associated := db.rows;
      var moved := MoveToApplyEditState(Api(id), k, isNew);
      RowsByKeys(associated, db.rows, k);
      if moved.None? {
        return Conflict;
      }
      var outcome := CredentialsStep(id, k, isNew, moved.value);
      if outcome.CreateFailed? {
        return NotCreated;
      } else if outcome.AssociateFailed? {
        RemoveEffect(associated, k);
        return NotStored;
      }
      var ok := LookUpHost(id, PreAuthJob(k, moved.value));
      if !ok {
        return LookupFailed;
      }
      ok := MoveNewState(Api(id), PreAuthJob(k, moved.value), ToApi);
      RowsByKeys(associated, db.rows, k);
      return if ok then Accepted else HandlerFailed;
    }

    ghost method BeginSweep(w: Sweep)
      requires Valid() && PcOf(sys, Poller) == Sweeping(w)
      modifies this`sys
      ensures Valid()
      ensures w.roles == [] ==> PcOf(sys, Poller) == Polling
      ensures w.roles != [] ==>
        PcOf(sys, Poller) == Trying(Key(w.host, w.roles[0]), 0, SweepPurpose(w.(roles := w.roles[1..])))
    {
      Take(SweepNext);
    }

    /** One role of _finish_role_converge, from its first compare-and-set on. */
    method FinishRole(k: Key, rest: Sweep) returns (ghost ok: bool)
      requires Valid() && PcOf(sys, Poller) == Trying(k, 0, SweepPurpose(rest)) && rest.finish
      modifies this, db
      ensures Valid() && PcOf(sys, Poller) == Sweeping(rest)
      ensures SameElsewhere(old(db.rows), db.rows, k)
      ensures var state := StateOf(old(db.rows), k);
        StateOf(db.rows, k) ==
          if state.AuthConverging? then (if ok then Applied else AuthError)
          else if state.DeauthConverging? then (if ok then NotApplied else DeauthError)
          else state
      ensures StateOf(old(db.rows), k) == AuthConverging ==> Explained(k, AuthConverged, ok, old(sys.log), sys.log)
      ensures StateOf(old(db.rows), k) == DeauthConverging ==> Explained(k, DeauthConverged, ok, old(sys.log), sys.log)
    {
      hide Step, StateOf, Explained, Gained;
      ok := true;
      var moved := TryOnce(Poller, k, 0, SweepPurpose(rest));
      ghost var moving := sys.log;
      if moved {
        ok := MoveNewState(Poller, AppliedJob(k), ToSweep(rest));
        FinishExplained(k, ok, ok, old(sys.log), moving, sys.log);
      } else {
        AbsentMeansNotApplied(db.rows, k);
        ok := FinishRemoval(k, rest);
        RemovalExplained(k, ok, old(sys.log), moving, sys.log);
      }
    }

    /** The second branch of _finish_role_converge. */
    method FinishRemoval(k: Key, rest: Sweep) returns (ghost ok: bool)
      requires Valid() && PcOf(sys, Poller) == Trying(k, 1, SweepPurpose(rest)) && rest.finish
      requires StateOf(db.rows, k) != AuthConverging
      modifies this, db
      ensures Valid() && PcOf(sys, Poller) == Sweeping(rest)
      ensures SameElsewhere(old(db.rows), db.rows, k)
      ensures var state := StateOf(old(db.rows), k);
        StateOf(db.rows, k) == if state.DeauthConverging? then (if ok then NotApplied else DeauthError) else state
      ensures StateOf(old(db.rows), k) == DeauthConverging ==> Explained(k, DeauthConverged, ok, old(sys.log), sys.log)
    {
      hide Step, StateOf, Explained, Gained;
      ok := true;
      var moved := TryOnce(Poller, k, 1, SweepPurpose(rest));
      ghost var moving := sys.log;
      if moved {
        var handled, removed := MoveToNotAppliedState(k, ToSweep(rest));
        ok := handled && removed;
        FinishExplained(k, handled, ok, old(sys.log), moving, sys.log);
      } else {
        AbsentMeansNotApplied(db.rows, k);
        GiveUp(Poller, k, 2, SweepPurpose(rest));
      }
    }

    /** One role of _fail_role_converge. */
    method FailRole(k: Key, rest: Sweep)
      requires Valid() && PcOf(sys, Poller) == Trying(k, 0, SweepPurpose(rest)) && !rest.finish
      modifies this, db
      ensures Valid() && PcOf(sys, Poller) == Sweeping(rest)
      ensures SameElsewhere(old(db.rows), db.rows, k)
      ensures var state := StateOf(old(db.rows), k);
        StateOf(db.rows, k) ==
          if state.AuthConverging? then AuthError else if state.DeauthConverging? then DeauthError else state
    {
      hide Step, StateOf;
      var moved := TryOnce(Poller, k, 0, SweepPurpose(rest));
      if !moved {
        moved := TryOnce(Poller, k, 1, SweepPurpose(rest));
        if !moved {
          AbsentMeansNotApplied(db.rows, k);
          GiveUp(Poller, k, 2, SweepPurpose(rest));
        }
      }
    }

    method SweepRole(k: Key, rest: Sweep) returns (ghost ok: bool)
      requires Valid() && PcOf(sys, Poller) == Trying(k, 0, SweepPurpose(rest))
      modifies this, db
      ensures Valid() && PcOf(sys, Poller) == Sweeping(rest)
      ensures SameElsewhere(old(db.rows), db.rows, k)
      ensures SweptTo(StateOf(old(db.rows), k), StateOf(db.rows, k), rest.finish, ok)
    {
      hide Step, StateOf;
      ok := true;
      if rest.finish {
        ok := FinishRole(k, rest);
      } else {
        FailRole(k, rest);
      }
    }

    /** _finish_role_converge (finish) and _fail_role_converge (not finish) over the roles of a host,
        with no other thread interfering. */
    method SweepRoles(w: Sweep) returns (ghost oks: seq<bool>)
      requires Valid() && PcOf(sys, Poller) == Sweeping(w)
      requires Distinct(w.roles)
      modifies this, db
      ensures Valid() && PcOf(sys, Poller).Polling?
      ensures |oks| == |w.roles| && SweptUpTo(old(db.rows), db.rows, w, oks)
    {
      hide Step, StateOf;
      oks := [];
      var i := 0;
      while i < |w.roles|
        invariant 0 <= i <= |w.roles| && i == |oks|
        invariant Valid() && PcOf(sys, Poller) == Sweeping(w.(roles := w.roles[i..]))
        invariant SweptUpTo(old(db.rows), db.rows, w, oks)
      {
        ghost var now := db.rows;
        BeginSweep(w.(roles := w.roles[i..]));
        assert w.roles[i..][1..] == w.roles[i + 1..];
        ghost var ok := SweepRole(Key(w.host, w.roles[i]), w.(roles := w.roles[i + 1..]));
        SweptOneMore(old(db.rows), now, db.rows, w, oks, ok);
        oks := oks + [ok];
        i := i + 1;
      }
      BeginSweep(w.(roles := []));
    }
  }
}
