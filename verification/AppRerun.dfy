/** A run that was aborted at any point can be completed by another one. */
module AppRerun {
  import opened Wrappers
  import Json
  import opened AppsConfig
  import opened AppPlan
  import opened AppConvergence

  /** The specified applications that are installed at their version: no run takes them away. */
  function Staying(t: Table, desired: Apps): set<string> {
    set n | n in desired && Stays(desired[n], ViewOf(t, n))
  }

  /** An action of a plan: it installs what the package has, keeps its hands off the applications that stay,
      and gives them no other services than the specified ones. */
  predicate Proper(env: Packages, desired: Apps, staying: set<string>, op: Op) {
    match op
    case StopServices(n) => n !in staying
    case RemovePackage(n) => n !in staying
    case InstallPackage(n, version, multi) =>
      n !in staying && n in desired && version == env.version(n, desired[n]) && multi == env.multi(n)
    case SetServices(n, services) => n in staying ==> n in desired && Services(n, desired[n]) == Some(services)
    case _ => true
  }

  ghost predicate AllProper(env: Packages, desired: Apps, staying: set<string>, ops: seq<Op>) {
    forall i :: 0 <= i < |ops| ==> Proper(env, desired, staying, ops[i])
  }

  lemma ProperAppend(env: Packages, desired: Apps, staying: set<string>, a: seq<Op>, b: seq<Op>)
    requires AllProper(env, desired, staying, a) && AllProper(env, desired, staying, b)
    ensures AllProper(env, desired, staying, a + b)
  {
    hide Proper;
  }

  lemma {:induction false} DeletionsProper(env: Packages, desired: Apps, staying: set<string>, names: seq<string>)
    requires forall n :: n in names ==> n !in staying
    ensures AllProper(env, desired, staying, AllDeleteOps(names))
  {
    if names != [] {
      DeletionsProper(env, desired, staying, names[1..]);
      ProperAppend(env, desired, staying, DeleteOps(names[0]), AllDeleteOps(names[1..]));
    }
  }

  lemma KeptProper(env: Packages, t: Table, n: string, desired: Apps)
    requires n in desired && n in t
    ensures AllProper(env, desired, Staying(t, desired), KeptOps(env, n, desired[n], ReportOf(t[n])))
  {
  }

  lemma {:induction false} AllKeptProper(env: Packages, t: Table, names: seq<string>, desired: Apps, current: Apps)
    requires forall n :: n in names ==>
      n in desired && n in t && n in current && current[n] == ReportOf(t[n]) && Reported(current[n])
    ensures AllProper(env, desired, Staying(t, desired), AllKeptOps(env, names, desired, current))
  {
    hide KeptOps;
    if names != [] {
      var n := names[0];
      KeptProper(env, t, n, desired);
      AllKeptProper(env, t, names[1..], desired, current);
      ProperAppend(env, desired, Staying(t, desired), KeptOps(env, n, desired[n], current[n]),
                   AllKeptOps(env, names[1..], desired, current));
    }
  }

  lemma {:induction false} AddedProper(env: Packages, desired: Apps, staying: set<string>, names: seq<string>)
    requires forall n :: n in names ==> n in desired && n !in staying
    ensures AllProper(env, desired, staying, AllAddOps(env, names, desired))
  {
    if names != [] {
      AddedProper(env, desired, staying, names[1..]);
      ProperAppend(env, desired, staying, AddOps(env, names[0], desired[names[0]]), AllAddOps(env, names[1..], desired));
    }
  }

  lemma PlanProper(env: Packages, t: Table, desired: Apps, nonDestructive: bool, o: Order)
    requires AllReported(CurrentConfig(t)) && OrderOf(o, CurrentConfig(t), desired)
    ensures AllProper(env, desired, Staying(t, desired), Plan(env, CurrentConfig(t), desired, nonDestructive, o))
  {
    hide AllDeleteOps, AllKeptOps, AllAddOps, Proper, AllProper;
    var current, staying := CurrentConfig(t), Staying(t, desired);
    var d := if nonDestructive then [] else AllDeleteOps(o.deleted);
    var k, a := AllKeptOps(env, o.kept, desired, current), AllAddOps(env, o.added, desired);
    NothingProper(env, desired, staying);
    DeletionsProper(env, desired, staying, o.deleted);
    AllKeptProper(env, t, o.kept, desired, current);
    AddedProper(env, desired, staying, o.added);
    ProperAppend(env, desired, staying, d, k);
    ProperAppend(env, desired, staying, d + k, a);
  }

  lemma NothingProper(env: Packages, desired: Apps, staying: set<string>)
    ensures AllProper(env, desired, staying, [])
  {
  }

  /** How far a partial run can have moved one specified application. */
  predicate Tracked(env: Packages, name: string, spec: Spec, before: Option<AppView>, now: Option<AppView>) {
    if Stays(spec, before) then
      && now.Some? && now.value.version == before.value.version && now.value.multi == before.value.multi
      && (Adjustable(name, spec, before.value) ==> Adjustable(name, spec, now.value))
    else
      now.Some? ==>
        || (before.Some? && now.value.version == before.value.version)
        || (now.value.version == env.version(name, spec) && now.value.multi == env.multi(name))
  }

  ghost predicate AllTracked(env: Packages, t: Table, now: Table, desired: Apps) {
    forall n :: n in desired ==> Tracked(env, n, desired[n], ViewOf(t, n), ViewOf(now, n))
  }

  lemma TrackedStep(env: Packages, t: Table, now: Table, op: Op, desired: Apps, n: string)
    requires n in desired && Tracked(env, n, desired[n], ViewOf(t, n), ViewOf(now, n))
    requires Proper(env, desired, Staying(t, desired), op) && Apply(now, op).Some?
    ensures Tracked(env, n, desired[n], ViewOf(t, n), ViewOf(Apply(now, op).value, n))
  {
    if op.SetServices? && op.name == n && Stays(desired[n], ViewOf(t, n)) {
      Json.PyEqReflexive(op.services);
      if !now[n].multi {
        assert op.services == Json.Dict(map[n := op.services.fields[n]]);
      }
    }
  }

  lemma {:induction false} PartialRunTracked(env: Packages, t: Table, now: Table, ops: seq<Op>, desired: Apps)
    requires AllTracked(env, t, now, desired) && AllProper(env, desired, Staying(t, desired), ops)
    requires AppPlan.Run(now, ops).Some?
    ensures AllTracked(env, t, AppPlan.Run(now, ops).value, desired)
    decreases |ops|
  {
    hide Tracked, Proper, Apply;
    if ops != [] {
      var next := Apply(now, ops[0]).value;
      forall n | n in desired ensures Tracked(env, n, desired[n], ViewOf(t, n), ViewOf(next, n)) {
        TrackedStep(env, t, now, ops[0], desired, n);
      }
      PartialRunTracked(env, t, next, ops[1..], desired);
    }
  }

  lemma TrackedMeans(env: Packages, name: string, spec: Spec, before: Option<AppView>, now: Option<AppView>)
    requires Tracked(env, name, spec, before, now)
    ensures Ready(env, name, spec, before) ==> Ready(env, name, spec, now)
    ensures VersionRight(env, name, spec, now) <==> VersionRight(env, name, spec, before)
  {
  }

  /** Whatever part of a run has been carried out, nothing in the configuration makes another run raise if
      nothing made the first one, and the versions that come out right are the same. */
  lemma PartialRunKeepsReady(env: Packages, t: Table, desired: Apps, nonDestructive: bool, o: Order, done: seq<Op>)
    requires AllReported(CurrentConfig(t)) && OrderOf(o, CurrentConfig(t), desired)
    requires done <= Plan(env, CurrentConfig(t), desired, nonDestructive, o) && AppPlan.Run(t, done).Some?
    ensures var t' := AppPlan.Run(t, done).value;
      && (AllReady(env, t, desired) ==> AllReady(env, t', desired))
      && forall n :: n in desired ==>
           (VersionRight(env, n, desired[n], ViewOf(t', n)) <==> VersionRight(env, n, desired[n], ViewOf(t, n)))
  {
    hide Plan, AppPlan.Run, Proper, Tracked, Ready, VersionRight, CurrentConfig;
    PlanProper(env, t, desired, nonDestructive, o);
    forall n | n in desired ensures Tracked(env, n, desired[n], ViewOf(t, n), ViewOf(t, n)) {
      TrackedAtFirst(env, n, desired[n], ViewOf(t, n));
    }
    PartialRunTracked(env, t, t, done, desired);
    var t' := AppPlan.Run(t, done).value;
    forall n | n in desired
      ensures Ready(env, n, desired[n], ViewOf(t, n)) ==> Ready(env, n, desired[n], ViewOf(t', n))
      ensures VersionRight(env, n, desired[n], ViewOf(t', n)) <==> VersionRight(env, n, desired[n], ViewOf(t, n))
    {
      TrackedMeans(env, n, desired[n], ViewOf(t, n), ViewOf(t', n));
    }
  }

  /** Wherever a run is cut off, an application that is installed at its version is still there, and the same
      package. */
  lemma StayingNeverTakenAway(env: Packages, t: Table, desired: Apps, nonDestructive: bool, o: Order, done: seq<Op>,
      n: string)
    requires AllReported(CurrentConfig(t)) && OrderOf(o, CurrentConfig(t), desired)
    requires done <= Plan(env, CurrentConfig(t), desired, nonDestructive, o) && AppPlan.Run(t, done).Some?
    requires n in desired && Stays(desired[n], ViewOf(t, n))
    ensures var t' := AppPlan.Run(t, done).value;
      n in t' && t'[n].version == t[n].version && t'[n].multi == t[n].multi
  {
    hide Plan, AppPlan.Run, Proper, CurrentConfig;
    PlanProper(env, t, desired, nonDestructive, o);
    forall m | m in desired ensures Tracked(env, m, desired[m], ViewOf(t, m), ViewOf(t, m)) {
      TrackedAtFirst(env, m, desired[m], ViewOf(t, m));
    }
    PartialRunTracked(env, t, t, done, desired);
    assert Tracked(env, n, desired[n], ViewOf(t, n), ViewOf(AppPlan.Run(t, done).value, n));
  }

  lemma TrackedAtFirst(env: Packages, name: string, spec: Spec, before: Option<AppView>)
    ensures Tracked(env, name, spec, before, before)
  {
  }

  /** Wherever a run was aborted, a rerun that raises nothing leaves every specified application with its
      services and its configuration, and with its version exactly as an undisturbed run would have; a
      destructive rerun leaves no others. And with a package manager that does not fail, the rerun raises
      nothing if nothing in the configuration made the first run raise. */
  lemma RerunAfterAbort(env: Packages, t: Table, desired: Apps, nonDestructive: bool, o: Order, done: seq<Op>,
      again: bool, o': Order)
    requires AllReported(CurrentConfig(t)) && OrderOf(o, CurrentConfig(t), desired)
    requires done <= Plan(env, CurrentConfig(t), desired, nonDestructive, o) && AppPlan.Run(t, done).Some?
    requires var t' := AppPlan.Run(t, done).value;
      AllReported(CurrentConfig(t')) && OrderOf(o', CurrentConfig(t'), desired)
    ensures var t' := AppPlan.Run(t, done).value;
      var r := AppPlan.Run(t', Plan(env, CurrentConfig(t'), desired, again, o'));
      && (AllReady(env, t, desired) ==> r.Some?)
      && (r.Some? ==>
            && r.value.Keys == (if again then t'.Keys + desired.Keys else desired.Keys)
            && forall n :: n in desired ==>
                 && Served(n, desired[n], r.value[n]) && Configured(desired[n], r.value[n])
                 && (Versioned(desired[n], r.value[n]) <==> VersionRight(env, n, desired[n], ViewOf(t, n))))
  {
    hide Plan, AppPlan.Run, Ready, VersionRight, CurrentConfig, Served, Configured, Versioned, Leaves;
    PartialRunKeepsReady(env, t, desired, nonDestructive, o, done);
    var t' := AppPlan.Run(t, done).value;
    RunSucceedsIffReady(env, t', desired, again, o');
    var r := AppPlan.Run(t', Plan(env, CurrentConfig(t'), desired, again, o'));
    if r.Some? {
      RunReachesDesired(env, t', r.value, desired, again, o');
    }
  }
}
