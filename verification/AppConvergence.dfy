/** What a run of process_apps achieves. */
module AppConvergence {
  import opened Wrappers
  import opened Json
  import opened AppsConfig
  import opened AppPlan

  /** A specification that a run can carry out on an application that it installs. */
  predicate Installable(env: Packages, name: string, spec: Spec) {
    && HasCore(spec)
    && Services(name, spec).Some?
    && env.located(spec)
    && Fits(env.multi(name), name, Services(name, spec).value)
  }

  /** One that it can carry out on an application that stays: the services are there already, or they fit
      the way it manages services. Its package need not be located. */
  predicate Adjustable(name: string, spec: Spec, v: AppView) {
    && HasCore(spec)
    && Services(name, spec).Some?
    && (PyEq(ServicesOf(name, v), Services(name, spec).value) || Fits(v.multi, name, Services(name, spec).value))
  }

  function ViewOf(t: Table, name: string): Option<AppView> {
    if name in t then Some(t[name]) else None
  }

  /** The application is installed at the specified version, so that a run keeps it. */
  predicate Stays(spec: Spec, before: Option<AppView>) {
    before.Some? && "version" in spec && PyEq(before.value.version, spec["version"])
  }

  predicate Ready(env: Packages, name: string, spec: Spec, before: Option<AppView>) {
    if Stays(spec, before) then Adjustable(name, spec, before.value) else Installable(env, name, spec)
  }

  /** Nothing in the configuration makes a run from this table raise. */
  predicate AllReady(env: Packages, t: Table, desired: Apps) {
    forall n :: n in desired ==> Ready(env, n, desired[n], ViewOf(t, n))
  }

  function ServicesOf(name: string, v: AppView): Json {
    if v.multi then v.services else Dict(map[name := v.services])
  }

  function Stated(multi: bool, name: string, services: Json): Json
    requires Fits(multi, name, services)
  {
    if multi then services else services.fields[name]
  }

  /** What a run makes of an application. */
  function Outcome(env: Packages, name: string, spec: Spec, before: Option<AppView>): AppView
    requires Ready(env, name, spec, before)
  {
    var services := Services(name, spec).value;
    if Stays(spec, before) then
      var v := before.value;
      v.(config := if IsDictSubset(spec["config"], v.config) then v.config else spec["config"],
         services := if PyEq(ServicesOf(name, v), services) then v.services else Stated(v.multi, name, services))
    else
      AppView(env.version(name, spec), spec["config"], env.multi(name), Stated(env.multi(name), name, services))
  }

  /** The version is the specified one already, or the package has it. */
  predicate VersionRight(env: Packages, name: string, spec: Spec, before: Option<AppView>) {
    "version" in spec && (Stays(spec, before) || PyEq(env.version(name, spec), spec["version"]))
  }

  predicate Versioned(spec: Spec, v: AppView) {
    "version" in spec && PyEq(v.version, spec["version"])
  }

  /** The application has the specified services. */
  predicate Served(name: string, spec: Spec, v: AppView) {
    HasCore(spec) && Services(name, spec).Some? && PyEq(ServicesOf(name, v), Services(name, spec).value)
  }

  /** ... and its configuration is the specified one or includes it. */
  predicate Configured(spec: Spec, v: AppView) {
    "config" in spec && (v.config == spec["config"] || IsDictSubset(spec["config"], v.config))
  }

  // ---------- running lists of actions ----------

  lemma {:induction false} RunAppend(t: Table, a: seq<Op>, b: seq<Op>)
    ensures Run(t, a + b) == if Run(t, a).None? then None else Run(Run(t, a).value, b)
    decreases |a|
  {
    if a == [] {
      assert a + b == b;
    } else {
      assert (a + b)[0] == a[0] && (a + b)[1..] == a[1..] + b;
      if Apply(t, a[0]).Some? {
        RunAppend(Apply(t, a[0]).value, a[1..], b);
      }
    }
  }

  lemma Run1(t: Table, op: Op)
    ensures Run(t, [op]) == Apply(t, op)
  {
    assert [op][1..] == [];
  }

  lemma Run2(t: Table, a: Op, b: Op)
    ensures Run(t, [a, b]) == if Apply(t, a).None? then None else Apply(Apply(t, a).value, b)
  {
    assert [a, b] == [a] + [b];
    RunAppend(t, [a], [b]);
    Run1(t, a);
    if Apply(t, a).Some? { Run1(Apply(t, a).value, b); }
  }

  lemma {:induction false} DeletionsRun(t: Table, names: seq<string>)
    requires forall n :: n in names ==> n in t
    requires forall i, j :: 0 <= i < j < |names| ==> names[i] != names[j]
    ensures Run(t, AllDeleteOps(names)) == Some(map n | n in t && n !in names :: t[n])
  {
    if names == [] {
      assert (map n | n in t && n !in names :: t[n]) == t;
    } else {
      var n := names[0];
      RunAppend(t, DeleteOps(n), AllDeleteOps(names[1..]));
      Run2(t, StopServices(n), RemovePackage(n));
      var t' := Run(t, DeleteOps(n)).value;
      assert t' == t - {n};
      DeletionsRun(t', names[1..]);
      assert (map m | m in t' && m !in names[1..] :: t'[m]) == (map m | m in t && m !in names :: t[m]);
    }
  }

  /** Configuration and services of a package that has just been installed: it works exactly if the
      services are given and fit. */
  lemma SetUpRuns(t: Table, name: string, spec: Spec)
    requires name in t && HasCore(spec)
    ensures var r := Run(t, SetUpOps(name, spec));
      && (r.Some? <==> Services(name, spec).Some? && Fits(t[name].multi, name, Services(name, spec).value))
      && (r.Some? ==> r.value == t[name := t[name].(config := spec["config"],
            services := Stated(t[name].multi, name, Services(name, spec).value))])
  {
    var ops := SetUpOps(name, spec);
    Run2(t, ops[0], ops[1]);
  }

  /** An upgrade works exactly if the specification is installable. */
  lemma UpgradeRuns(env: Packages, t: Table, name: string, spec: Spec)
    requires name in t && HasCore(spec) && !Stays(spec, Some(t[name]))
    ensures var r := Run(t, UpgradeOps(env, name, spec));
      && (r.Some? <==> Installable(env, name, spec))
      && (r.Some? ==> r.value == t[name := Outcome(env, name, spec, Some(t[name]))])
  {
    hide Fits;
    var install := InstallPackage(name, env.version(name, spec), env.multi(name));
    var head := [if env.located(spec) then Download(name) else Fail, StopServices(name)];
    var tail := [RemovePackage(name), install];
    assert UpgradeOps(env, name, spec) == head + tail + SetUpOps(name, spec);
    RunAppend(t, head + tail, SetUpOps(name, spec));
    RunAppend(t, head, tail);
    Run2(t, head[0], StopServices(name));
    if env.located(spec) {
      Run2(Run(t, head).value, RemovePackage(name), install);
      SetUpRuns(Run(t, head + tail).value, name, spec);
    }
  }

  /** So does an installation. */
  lemma AddRuns(env: Packages, t: Table, name: string, spec: Spec)
    requires name !in t
    ensures var r := Run(t, AddOps(env, name, spec));
      && (r.Some? <==> Installable(env, name, spec))
      && (r.Some? ==> r.value == t[name := Outcome(env, name, spec, None)])
  {
    hide Fits;
    if !HasCore(spec) {
      Run1(t, Fail);
    } else {
      var install := InstallPackage(name, env.version(name, spec), env.multi(name));
      var head := [if env.located(spec) then Download(name) else Fail, install];
      assert AddOps(env, name, spec) == head + SetUpOps(name, spec);
      RunAppend(t, head, SetUpOps(name, spec));
      Run2(t, head[0], install);
      if env.located(spec) {
        SetUpRuns(Run(t, head).value, name, spec);
      }
    }
  }

  /** An adjustment works exactly if the services are given and are there already or fit. */
  lemma AdjustRuns(env: Packages, t: Table, name: string, spec: Spec)
    requires name in t && HasCore(spec) && Stays(spec, Some(t[name]))
    ensures var r := Run(t, AdjustOps(name, spec, ReportOf(t[name])));
      && (r.Some? <==> Adjustable(name, spec, t[name]))
      && (r.Some? ==> r.value == t[name := Outcome(env, name, spec, Some(t[name]))])
  {
    hide Fits;
    var current := ReportOf(t[name]);
    assert CurrentServices(name, current) == Some(ServicesOf(name, t[name]));
    var configure := if IsDictSubset(spec["config"], current["config"]) then [] else [SetConfig(name, spec["config"])];
    var restate := if Services(name, spec).None? then [Fail]
      else if PyEq(CurrentServices(name, current).value, Services(name, spec).value) then []
      else [SetServices(name, Services(name, spec).value)];
    assert AdjustOps(name, spec, current) == configure + restate;
    RunAppend(t, configure, restate);
    Run1(t, SetConfig(name, spec["config"]));
    NothingRun(t);
    var t' := Run(t, configure).value;
    assert t' == t[name := t'[name]];
    NothingRun(t');
    if restate != [] {
      Run1(t', restate[0]);
    }
  }

  lemma KeptRuns(env: Packages, t: Table, name: string, spec: Spec)
    requires name in t
    ensures var r := Run(t, KeptOps(env, name, spec, ReportOf(t[name])));
      && (r.Some? <==> Ready(env, name, spec, Some(t[name])))
      && (r.Some? ==> r.value == t[name := Outcome(env, name, spec, Some(t[name]))])
  {
    if !HasCore(spec) {
      Run1(t, Fail);
    } else if PyEq(t[name].version, spec["version"]) {
      AdjustRuns(env, t, name, spec);
    } else {
      UpgradeRuns(env, t, name, spec);
    }
  }

  /** The named applications are as a run makes them, all others as they were. */
  ghost predicate Reaches(env: Packages, t: Table, t': Table, names: seq<string>, desired: Apps) {
    && t'.Keys == t.Keys + (set n | n in names)
    && (forall n :: n in names ==> n in desired && Ready(env, n, desired[n], ViewOf(t, n)))
    && (forall n :: n in names ==> t'[n] == Outcome(env, n, desired[n], ViewOf(t, n)))
    && (forall n :: n in t && n !in names ==> t'[n] == t[n])
  }

  ghost predicate ReadyNames(env: Packages, t: Table, names: seq<string>, desired: Apps) {
    forall n :: n in names ==> n in desired && Ready(env, n, desired[n], ViewOf(t, n))
  }

  lemma ReachesMore(env: Packages, t: Table, t1: Table, t': Table, names: seq<string>, desired: Apps)
    requires names != [] && names[0] !in names[1..] && names[0] in desired
    requires Ready(env, names[0], desired[names[0]], ViewOf(t, names[0]))
    requires t1 == t[names[0] := Outcome(env, names[0], desired[names[0]], ViewOf(t, names[0]))]
    ensures ReadyNames(env, t1, names[1..], desired) <==> ReadyNames(env, t, names, desired)
    ensures Reaches(env, t1, t', names[1..], desired) ==> Reaches(env, t, t', names, desired)
  {
    hide Ready, Outcome;
    assert forall n :: n in names <==> n == names[0] || n in names[1..];
    assert forall n :: n in names[1..] ==> ViewOf(t1, n) == ViewOf(t, n);
  }

  lemma {:induction false} AllKeptRun(env: Packages, t: Table, names: seq<string>, desired: Apps, current: Apps)
    requires forall n :: n in names ==>
      n in desired && n in t && n in current && current[n] == ReportOf(t[n]) && Reported(current[n])
    requires forall i, j :: 0 <= i < j < |names| ==> names[i] != names[j]
    ensures var r := Run(t, AllKeptOps(env, names, desired, current));
      && (r.Some? <==> ReadyNames(env, t, names, desired))
      && (r.Some? ==> Reaches(env, t, r.value, names, desired))
    decreases |names|
  {
    hide KeptOps, Ready, Outcome;
    if names == [] {
      NothingRun(t);
    } else {
      var n := names[0];
      var ops := KeptOps(env, n, desired[n], current[n]);
      RunAppend(t, ops, AllKeptOps(env, names[1..], desired, current));
      KeptRuns(env, t, n, desired[n]);
      if Run(t, ops).Some? {
        var t1 := Run(t, ops).value;
        AllKeptRun(env, t1, names[1..], desired, current);
        var r := Run(t1, AllKeptOps(env, names[1..], desired, current));
        ReachesMore(env, t, t1, if r.Some? then r.value else t1, names, desired);
      }
    }
  }

  lemma {:induction false} AllAddRun(env: Packages, t: Table, names: seq<string>, desired: Apps)
    requires forall n :: n in names ==> n in desired && n !in t
    requires forall i, j :: 0 <= i < j < |names| ==> names[i] != names[j]
    ensures var r := Run(t, AllAddOps(env, names, desired));
      && (r.Some? <==> ReadyNames(env, t, names, desired))
      && (r.Some? ==> Reaches(env, t, r.value, names, desired))
    decreases |names|
  {
    hide AddOps, Installable, Outcome;
    if names == [] {
      NothingRun(t);
    } else {
      var n := names[0];
      var ops := AddOps(env, n, desired[n]);
      RunAppend(t, ops, AllAddOps(env, names[1..], desired));
      AddRuns(env, t, n, desired[n]);
      if Run(t, ops).Some? {
        var t1 := Run(t, ops).value;
        AllAddRun(env, t1, names[1..], desired);
        var r := Run(t1, AllAddOps(env, names[1..], desired));
        ReachesMore(env, t, t1, if r.Some? then r.value else t1, names, desired);
      }
    }
  }

  lemma NothingRun(t: Table)
    ensures Run(t, []) == Some(t)
  {
  }

  /** The table that a run leaves, whatever the order in which it handles the applications. */
  ghost predicate Leaves(env: Packages, t: Table, t': Table, desired: Apps, nonDestructive: bool) {
    && AllReady(env, t, desired)
    && t'.Keys == (if nonDestructive then t.Keys + desired.Keys else desired.Keys)
    && (forall n :: n in desired ==> t'[n] == Outcome(env, n, desired[n], ViewOf(t, n)))
    && (forall n :: n in t' && n !in desired ==> t'[n] == t[n])
  }

  lemma StageNames(t: Table, t1: Table, desired: Apps, nonDestructive: bool, o: Order)
    requires OrderOf(o, CurrentConfig(t), desired)
    requires t1 == if nonDestructive then t else map n | n in t && n !in o.deleted :: t[n]
    ensures (set n | n in o.kept) == t.Keys * desired.Keys && (set n | n in o.added) == desired.Keys - t.Keys
    ensures t1.Keys == if nonDestructive then t.Keys else t.Keys * desired.Keys
    ensures forall n :: n in o.kept <==> n in t && n in desired
    ensures forall n :: n in o.added <==> n !in t && n in desired
    ensures forall n :: n in t1 ==> n in t && t1[n] == t[n]
    ensures forall n :: n in desired ==> ViewOf(t1, n) == ViewOf(t, n)
  {
  }

  lemma Combined(env: Packages, t: Table, t1: Table, t2: Table, t3: Table, desired: Apps, nonDestructive: bool, o: Order)
    requires AllReported(CurrentConfig(t)) && OrderOf(o, CurrentConfig(t), desired)
    requires t1 == if nonDestructive then t else map n | n in t && n !in o.deleted :: t[n]
    requires Reaches(env, t1, t2, o.kept, desired) && Reaches(env, t2, t3, o.added, desired)
    ensures AllReady(env, t, desired) && Leaves(env, t, t3, desired, nonDestructive)
  {
    hide Ready, Outcome, Enumerates, AllReported;
    StageNames(t, t1, desired, nonDestructive, o);
    forall n | n in desired
      ensures Ready(env, n, desired[n], ViewOf(t, n)) && n in t3 && t3[n] == Outcome(env, n, desired[n], ViewOf(t, n))
    {
      if n in t {
        assert n in o.kept && n !in o.added;
      } else {
        assert n in o.added && n !in o.kept && n !in t2;
        assert ViewOf(t2, n) == ViewOf(t, n);
      }
    }
  }

  lemma ReadyStages(env: Packages, t: Table, t1: Table, t2: Table, desired: Apps, nonDestructive: bool, o: Order)
    requires AllReported(CurrentConfig(t)) && OrderOf(o, CurrentConfig(t), desired) && AllReady(env, t, desired)
    requires t1 == if nonDestructive then t else map n | n in t && n !in o.deleted :: t[n]
    ensures ReadyNames(env, t1, o.kept, desired)
    ensures Reaches(env, t1, t2, o.kept, desired) ==> ReadyNames(env, t2, o.added, desired)
  {
    hide Ready, Outcome;
    forall n | n in o.kept ensures n in t && n in t1 && ViewOf(t1, n) == ViewOf(t, n) {
    }
    if Reaches(env, t1, t2, o.kept, desired) {
      forall n | n in o.added ensures ViewOf(t2, n) == ViewOf(t, n) {
        assert n !in t && n !in o.kept;
      }
    }
  }

  /** A run from a fresh snapshot, with a package manager that does not fail, raises exactly if some
      specification is not ready for the state of its application; if it does not raise, the table it
      leaves does not depend on the order. */
  lemma RunSucceedsIffReady(env: Packages, t: Table, desired: Apps, nonDestructive: bool, o: Order)
    requires AllReported(CurrentConfig(t)) && OrderOf(o, CurrentConfig(t), desired)
    ensures var r := Run(t, Plan(env, CurrentConfig(t), desired, nonDestructive, o));
      && (r.Some? <==> AllReady(env, t, desired))
      && (r.Some? ==> Leaves(env, t, r.value, desired, nonDestructive))
  {
    hide KeptOps, AddOps, AllDeleteOps, AllKeptOps, AllAddOps, AppPlan.Run, Ready, Outcome, Reaches, ReadyNames;
    hide Leaves, AllReady;
    var current := CurrentConfig(t);
    var deletions := if nonDestructive then [] else AllDeleteOps(o.deleted);
    var kept, added := AllKeptOps(env, o.kept, desired, current), AllAddOps(env, o.added, desired);
    RunAppend(t, deletions + kept, added);
    RunAppend(t, deletions, kept);
    DeletionsRun(t, o.deleted);
    NothingRun(t);
    var t1 := Run(t, deletions).value;
    AllKeptRun(env, t1, o.kept, desired, current);
    if AllReady(env, t, desired) {
      ReadyStages(env, t, t1, t1, desired, nonDestructive, o);
    }
    if Run(t1, kept).Some? {
      var t2 := Run(t1, kept).value;
      AddedAbsent(env, t, t1, t2, desired, nonDestructive, o);
      AllAddRun(env, t2, o.added, desired);
      if AllReady(env, t, desired) {
        ReadyStages(env, t, t1, t2, desired, nonDestructive, o);
      }
      if Run(t2, added).Some? {
        Combined(env, t, t1, t2, Run(t2, added).value, desired, nonDestructive, o);
      }
    }
  }

  lemma AddedAbsent(env: Packages, t: Table, t1: Table, t2: Table, desired: Apps, nonDestructive: bool, o: Order)
    requires AllReported(CurrentConfig(t)) && OrderOf(o, CurrentConfig(t), desired)
    requires t1 == if nonDestructive then t else map n | n in t && n !in o.deleted :: t[n]
    requires Reaches(env, t1, t2, o.kept, desired)
    ensures forall n :: n in o.added ==> n in desired && n !in t2
  {
    hide Ready, Outcome;
  }

  /** An application that a run has handled has its services and its configuration, and its version
      exactly if it had it before or its package has it. */
  lemma OutcomeAsSpecified(env: Packages, name: string, spec: Spec, before: Option<AppView>)
    requires Ready(env, name, spec, before)
    ensures var v := Outcome(env, name, spec, before);
      && Served(name, spec, v) && Configured(spec, v)
      && (Versioned(spec, v) <==> VersionRight(env, name, spec, before))
  {
    var v, services := Outcome(env, name, spec, before), Services(name, spec).value;
    PyEqReflexive(services);
    if !v.multi && Fits(v.multi, name, services) {
      assert services == Dict(map[name := services.fields[name]]);
    }
  }

  /** Any run that raises nothing, from any installed state, destructive or not, leaves every specified
      application with its services and its configuration, and with its version exactly if it had it
      before or its package has it; a destructive run leaves no others, any other one leaves them alone. */
  lemma RunReachesDesired(env: Packages, t: Table, t': Table, desired: Apps, nonDestructive: bool, o: Order)
    requires AllReported(CurrentConfig(t)) && OrderOf(o, CurrentConfig(t), desired)
    requires Run(t, Plan(env, CurrentConfig(t), desired, nonDestructive, o)) == Some(t')
    ensures t'.Keys == (if nonDestructive then t.Keys + desired.Keys else desired.Keys)
    ensures forall n :: n in desired ==> Served(n, desired[n], t'[n]) && Configured(desired[n], t'[n])
    ensures forall n :: n in desired ==>
      (Versioned(desired[n], t'[n]) <==> VersionRight(env, n, desired[n], ViewOf(t, n)))
    ensures forall n :: n in t' && n !in desired ==> n in t && t'[n] == t[n]
  {
    hide Plan, AppPlan.Run, Served, Configured, Versioned, Leaves, VersionRight;
    hide OrderOf, AllReported, CurrentConfig, ViewOf, AllReady;
    RunSucceedsIffReady(env, t, desired, nonDestructive, o);
    LeftAsSpecified(env, t, t', desired, nonDestructive);
  }

  lemma LeftAsSpecified(env: Packages, t: Table, t': Table, desired: Apps, nonDestructive: bool)
    requires Leaves(env, t, t', desired, nonDestructive)
    ensures t'.Keys == (if nonDestructive then t.Keys + desired.Keys else desired.Keys)
    ensures forall n :: n in desired ==> Served(n, desired[n], t'[n]) && Configured(desired[n], t'[n])
    ensures forall n :: n in desired ==>
      (Versioned(desired[n], t'[n]) <==> VersionRight(env, n, desired[n], ViewOf(t, n)))
    ensures forall n :: n in t' && n !in desired ==> n in t && t'[n] == t[n]
  {
    hide Served, Configured, Versioned, Outcome, Ready, VersionRight;
    forall n | n in desired
      ensures Served(n, desired[n], t'[n]) && Configured(desired[n], t'[n])
      ensures Versioned(desired[n], t'[n]) <==> VersionRight(env, n, desired[n], ViewOf(t, n))
    {
      OutcomeAsSpecified(env, n, desired[n], ViewOf(t, n));
    }
  }

  // ---------- what a probe sees afterwards ----------

  lemma {:induction false} NoKeptChanges(names: seq<string>, desired: Apps, current: Apps)
    requires forall n :: n in names ==> n in desired && n in current && Reported(current[n])
    ensures KeptCounts(names, desired, current) == Some(0) <==>
      forall n :: n in names ==> KeptCount(n, desired[n], current[n]) == Some(0)
  {
    if names != [] {
      NoKeptChanges(names[1..], desired, current);
    }
  }

  predicate ListFreeConfig(spec: Spec) {
    "config" in spec && ListFree(spec["config"])
  }

  /** An application with its services and its configuration needs no change exactly if it has its version
      and its configuration is seen as included, which one with a list or a null never is. */
  lemma ServedNeedsNothing(name: string, spec: Spec, v: AppView)
    requires Served(name, spec, v) && Configured(spec, v)
    ensures KeptCount(name, spec, ReportOf(v)) == Some(0) <==> Versioned(spec, v) && ListFreeConfig(spec)
  {
    assert CurrentServices(name, ReportOf(v)) == Some(ServicesOf(name, v));
    SubsetOfItself(spec["config"]);
    if IsDictSubset(spec["config"], v.config) {
      SubsetImpliesListFree(spec["config"], v.config);
    }
  }

  lemma SomeMember(names: seq<string>)
    ensures names == [] || exists n :: n in names
  {
    if names != [] {
      assert names[0] in names;
    }
  }

  lemma ProbeOfSameNames(current: Apps, desired: Apps, o: Order)
    requires AllReported(current) && OrderOf(o, current, desired) && current.Keys == desired.Keys
    ensures Probe(current, desired, false, o) == Some(0) <==>
      forall n :: n in desired ==> KeptCount(n, desired[n], current[n]) == Some(0)
  {
    SomeMember(o.deleted);
    SomeMember(o.added);
    NoKeptChanges(o.kept, desired, current);
    assert forall n :: n in desired <==> n in o.kept;
  }

  /** After a destructive run that raised nothing, a fresh probe finds nothing left to do exactly if every
      version is right and no specified configuration holds a list or a null. With such a value the host
      never converges. */
  lemma ProbeAfterRun(env: Packages, t: Table, t': Table, desired: Apps, o: Order, o': Order)
    requires AllReported(CurrentConfig(t)) && OrderOf(o, CurrentConfig(t), desired)
    requires Run(t, Plan(env, CurrentConfig(t), desired, false, o)) == Some(t')
    requires AllReported(CurrentConfig(t')) && OrderOf(o', CurrentConfig(t'), desired)
    ensures Probe(CurrentConfig(t'), desired, false, o') == Some(0) <==>
      forall n :: n in desired ==> VersionRight(env, n, desired[n], ViewOf(t, n)) && ListFreeConfig(desired[n])
  {
    hide Probe, AppPlan.Run, Plan, KeptCount, Enumerates, Served, Configured, Versioned, VersionRight, ListFreeConfig;
    RunReachesDesired(env, t, t', desired, false, o);
    ProbeOfSameNames(CurrentConfig(t'), desired, o');
    forall n | n in desired
      ensures KeptCount(n, desired[n], CurrentConfig(t')[n]) == Some(0) <==>
        VersionRight(env, n, desired[n], ViewOf(t, n)) && ListFreeConfig(desired[n])
    {
      ServedNeedsNothing(n, desired[n], t'[n]);
    }
  }
}
