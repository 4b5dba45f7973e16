/** How a probe relates to a real run and to the declarative satisfaction test. */
module AppProbe {
  import opened Wrappers
  import opened Json
  import opened AppsConfig
  import opened AppPlan
  import opened AppConvergence

  // ---------- dry-run fidelity ----------

  lemma {:induction false} NothingToKeepNothingToDo(env: Packages, names: seq<string>, desired: Apps, current: Apps)
    requires forall n :: n in names ==> n in desired && n in current && Reported(current[n])
    requires forall n :: n in names ==> KeptCount(n, desired[n], current[n]) == Some(0)
    ensures AllKeptOps(env, names, desired, current) == []
  {
    if names != [] {
      NothingToKeepNothingToDo(env, names[1..], desired, current);
    }
  }

  /** A probe that counts nothing announces a run that does nothing, feasible or not. */
  lemma ProbeZeroPlansNothing(env: Packages, current: Apps, desired: Apps, nonDestructive: bool, o: Order)
    requires AllReported(current) && OrderOf(o, current, desired)
    requires Probe(current, desired, nonDestructive, o) == Some(0)
    ensures Plan(env, current, desired, nonDestructive, o) == []
  {
    NoKeptChanges(o.kept, desired, current);
    NothingToKeepNothingToDo(env, o.kept, desired, current);
  }

  /** A run leaves this application exactly as it is: it stays at its version with its services, and its
      configuration includes or is the specified one; or the same package is put back in the same state. */
  predicate Idle(env: Packages, name: string, spec: Spec, v: AppView)
    requires Ready(env, name, spec, Some(v))
  {
    if Stays(spec, Some(v)) then
      && PyEq(ServicesOf(name, v), Services(name, spec).value)
      && (IsDictSubset(spec["config"], v.config) || v.config == spec["config"])
    else
      v == AppView(env.version(name, spec), spec["config"], env.multi(name),
                   Stated(env.multi(name), name, Services(name, spec).value))
  }

  /** A run leaves the whole table as it is. */
  predicate AllIdle(env: Packages, t: Table, desired: Apps, nonDestructive: bool)
    requires AllReady(env, t, desired)
  {
    && (nonDestructive || t.Keys <= desired.Keys)
    && forall n :: n in desired ==>
      n in t && Ready(env, n, desired[n], Some(t[n])) && Idle(env, n, desired[n], t[n])
  }

  /** A run writes a value over itself: it reinstalls an application because its package has another version
      than the specified one, or sets a configuration that holds a list or a null once more. */
  predicate Rewrites(spec: Spec, v: AppView) {
    !Stays(spec, Some(v)) || ("config" in spec && v.config == spec["config"] && !ListFree(spec["config"]))
  }

  lemma IdleMeans(env: Packages, name: string, spec: Spec, v: AppView)
    requires Ready(env, name, spec, Some(v))
    ensures Idle(env, name, spec, v) <==> Outcome(env, name, spec, Some(v)) == v
    ensures Idle(env, name, spec, v) ==> (KeptCount(name, spec, ReportOf(v)) == Some(0) <==> !Rewrites(spec, v))
    ensures KeptCount(name, spec, ReportOf(v)) == Some(0) ==> Idle(env, name, spec, v)
    ensures KeptCount(name, spec, ReportOf(v)).Some?
  {
    assert CurrentServices(name, ReportOf(v)) == Some(ServicesOf(name, v));
    SubsetOfItself(spec["config"]);
    var services := Services(name, spec).value;
    PyEqReflexive(services);
    if IsDictSubset(spec["config"], v.config) {
      SubsetImpliesListFree(spec["config"], v.config);
    }
    if Stays(spec, Some(v)) && !v.multi && Fits(v.multi, name, services) {
      assert services == Dict(map[name := services.fields[name]]);
    }
  }

  lemma {:induction false} CountsSum(names: seq<string>, desired: Apps, current: Apps)
    requires forall n :: n in names ==> n in desired && n in current && Reported(current[n])
    requires forall n :: n in names ==> KeptCount(n, desired[n], current[n]).Some?
    ensures KeptCounts(names, desired, current).Some?
  {
    hide KeptCount;
    if names != [] {
      CountsSum(names[1..], desired, current);
    }
  }

  /** What a probe counts, name by name. */
  lemma ProbeMeans(env: Packages, t: Table, desired: Apps, nonDestructive: bool, o: Order)
    requires AllReported(CurrentConfig(t)) && OrderOf(o, CurrentConfig(t), desired) && AllReady(env, t, desired)
    ensures Probe(CurrentConfig(t), desired, nonDestructive, o).Some?
    ensures Probe(CurrentConfig(t), desired, nonDestructive, o) == Some(0) <==>
      && (nonDestructive || t.Keys <= desired.Keys)
      && forall n :: n in desired ==> n in t && KeptCount(n, desired[n], ReportOf(t[n])) == Some(0)
  {
    hide KeptCount, Ready, ReportOf;
    var current := CurrentConfig(t);
    forall n | n in o.kept ensures KeptCount(n, desired[n], current[n]).Some? {
      assert Ready(env, n, desired[n], ViewOf(t, n));
      IdleMeans(env, n, desired[n], t[n]);
    }
    CountsSum(o.kept, desired, current);
    NoKeptChanges(o.kept, desired, current);
    SomeMember(o.deleted);
    SomeMember(o.added);
    assert forall n :: n in o.deleted <==> n in t && n !in desired;
    assert forall n :: n in o.added <==> n !in t && n in desired;
  }

  /** Dry-run fidelity, in both modes and without assuming anything of the configuration but that the run
      raised nothing: the table stays exactly if the run is idle; if the probe counts nothing it stays; and
      it changes exactly when the probe counts something unless the run is idle and rewrites a value. */
  lemma RunChangesTableIffProbeCounts(env: Packages, t: Table, t': Table, desired: Apps, nonDestructive: bool, o: Order)
    requires AllReported(CurrentConfig(t)) && OrderOf(o, CurrentConfig(t), desired)
    requires Run(t, Plan(env, CurrentConfig(t), desired, nonDestructive, o)) == Some(t')
    ensures AllReady(env, t, desired)
    ensures t' == t <==> AllIdle(env, t, desired, nonDestructive)
    ensures Probe(CurrentConfig(t), desired, nonDestructive, o) == Some(0) ==> t' == t
    ensures (t' == t <==> Probe(CurrentConfig(t), desired, nonDestructive, o) == Some(0)) <==>
      !(AllIdle(env, t, desired, nonDestructive) && exists n :: n in desired && n in t && Rewrites(desired[n], t[n]))
  {
    hide Probe, Plan, AppPlan.Run, KeptCount, Idle, Rewrites, Outcome, Ready, CurrentConfig, Enumerates;
    RunSucceedsIffReady(env, t, desired, nonDestructive, o);
    ProbeMeans(env, t, desired, nonDestructive, o);
    forall n | n in desired && n in t
      ensures Ready(env, n, desired[n], Some(t[n]))
      ensures Idle(env, n, desired[n], t[n]) <==> Outcome(env, n, desired[n], Some(t[n])) == t[n]
      ensures Idle(env, n, desired[n], t[n]) ==>
        (KeptCount(n, desired[n], ReportOf(t[n])) == Some(0) <==> !Rewrites(desired[n], t[n]))
      ensures KeptCount(n, desired[n], ReportOf(t[n])) == Some(0) ==> Idle(env, n, desired[n], t[n])
    {
      assert Ready(env, n, desired[n], ViewOf(t, n));
      IdleMeans(env, n, desired[n], t[n]);
    }
    IdleTable(env, t, t', desired, nonDestructive);
  }

  lemma IdleTable(env: Packages, t: Table, t': Table, desired: Apps, nonDestructive: bool)
    requires Leaves(env, t, t', desired, nonDestructive)
    ensures t' == t <==>
      && (nonDestructive || t.Keys <= desired.Keys)
      && forall n :: n in desired ==>
        n in t && Ready(env, n, desired[n], Some(t[n])) && Outcome(env, n, desired[n], Some(t[n])) == t[n]
  {
    hide Outcome, Ready;
    if t' == t {
      forall n | n in desired
        ensures n in t && Ready(env, n, desired[n], Some(t[n])) && Outcome(env, n, desired[n], Some(t[n])) == t[n]
      {
        assert n in t' && Ready(env, n, desired[n], ViewOf(t, n));
      }
    }
    if (nonDestructive || t.Keys <= desired.Keys) && forall n :: n in desired ==>
      n in t && Ready(env, n, desired[n], Some(t[n])) && Outcome(env, n, desired[n], Some(t[n])) == t[n]
    {
      assert t'.Keys == t.Keys;
      forall n | n in t ensures t'[n] == t[n] {
        if n in desired { assert ViewOf(t, n) == Some(t[n]); }
      }
    }
  }

  /** The witness: one application that is as specified, with a list in its configuration. The run sets the
      configuration once more and leaves the table as it was, yet the probe counts a change, before and
      after: the host never converges. */
  lemma ListNeverConverges(env: Packages, o: Order)
    requires o == Order([], ["a"], [])
    ensures var config := Dict(map["l" := List([])]);
      var desired: Apps := map["a" := map["version" := Str("1"), "config" := config, "running" := Bool(true)]];
      var t: Table := map["a" := AppView(Str("1"), config, false, Bool(true))];
      && AllReported(CurrentConfig(t)) && OrderOf(o, CurrentConfig(t), desired)
      && Run(t, Plan(env, CurrentConfig(t), desired, false, o)) == Some(t)
      && Probe(CurrentConfig(t), desired, false, o) == Some(1)
  {
    var config := Dict(map["l" := List([])]);
    var spec: Spec := map["version" := Str("1"), "config" := config, "running" := Bool(true)];
    var desired: Apps, t: Table := map["a" := spec], map["a" := AppView(Str("1"), config, false, Bool(true))];
    var current := CurrentConfig(t);
    ListExample(spec, current["a"]);
    assert ["a"][1..] == [];
    hide PyEq, Services, CurrentServices, AdjustOps, KeptCount, KeptOps, Apply;
    assert AllKeptOps(env, [], desired, current) == [] && KeptCounts([], desired, current) == Some(0);
    OneKeptPlan(env, current, desired, o, [SetConfig("a", config)]);
    Run1(t, SetConfig("a", config));
    SameConfigAgain(t, "a");
  }

  lemma ListExample(spec: Spec, current: Spec)
    requires spec == map["version" := Str("1"), "config" := Dict(map["l" := List([])]), "running" := Bool(true)]
    requires current == map["version" := Str("1"), "running" := Bool(true), "config" := Dict(map["l" := List([])])]
    ensures KeptCount("a", spec, current) == Some(1)
    ensures forall env: Packages :: KeptOps(env, "a", spec, current) == [SetConfig("a", spec["config"])]
  {
    assert "l" in spec["config"].fields && !Comparable(spec["config"].fields["l"]);
    assert Services("a", spec) == Some(Dict(map["a" := Bool(true)])) == CurrentServices("a", current);
    PyEqReflexive(Services("a", spec).value);
    assert AdjustOps("a", spec, current) == [SetConfig("a", spec["config"])];
  }

  lemma OneKeptPlan(env: Packages, current: Apps, desired: Apps, o: Order, ops: seq<Op>)
    requires AllReported(current) && OrderOf(o, current, desired) && o == Order([], ["a"], [])
    requires "a" in desired && "a" in current && KeptOps(env, "a", desired["a"], current["a"]) == ops
    ensures Plan(env, current, desired, false, o) == ops
  {
    hide KeptOps;
    assert ["a"][1..] == [];
    assert AllKeptOps(env, [], desired, current) == [];
    assert AllKeptOps(env, ["a"], desired, current) == ops + [];
  }

  lemma SameConfigAgain(t: Table, n: string)
    requires n in t
    ensures Apply(t, SetConfig(n, t[n].config)) == Some(t)
  {
    assert t[n := t[n].(config := t[n].config)] == t;
  }

  // ---------- no name is installed twice or removed twice ----------

  /** The names installed after an action, None if it installs a present name or touches an absent one. */
  function NameStep(names: set<string>, op: Op): Option<set<string>> {
    match op
    case InstallPackage(n, _, _) => if n in names then None else Some(names + {n})
    case RemovePackage(n) => if n in names then Some(names - {n}) else None
    case StopServices(n) => if n in names then Some(names) else None
    case SetConfig(n, _) => if n in names then Some(names) else None
    case SetServices(n, _) => if n in names then Some(names) else None
    case _ => Some(names)
  }

  function NamesAfter(names: set<string>, ops: seq<Op>): Option<set<string>>
    decreases |ops|
  {
    if ops == [] then Some(names)
    else
      var names' := NameStep(names, ops[0]);
      if names'.None? then None else NamesAfter(names'.value, ops[1..])
  }

  lemma {:induction false} NamesAppend(names: set<string>, a: seq<Op>, b: seq<Op>)
    requires NamesAfter(names, a).Some?
    ensures NamesAfter(names, a + b) == NamesAfter(NamesAfter(names, a).value, b)
    decreases |a|
  {
    if a == [] {
      assert a + b == b;
    } else {
      assert (a + b)[0] == a[0] && (a + b)[1..] == a[1..] + b;
      NamesAppend(NameStep(names, a[0]).value, a[1..], b);
    }
  }

  lemma Names2(names: set<string>, a: Op, b: Op)
    ensures NamesAfter(names, [a, b]) == if NameStep(names, a).None? then None else NameStep(NameStep(names, a).value, b)
  {
    assert [a, b][1..] == [b];
    assert [b][1..] == [];
    if NameStep(names, a).Some? {
      var names' := NameStep(names, a).value;
      assert NamesAfter(names', [b]) == if NameStep(names', b).None? then None else NamesAfter(NameStep(names', b).value, []);
    }
  }

  lemma SetUpNames(names: set<string>, name: string, spec: Spec)
    requires name in names && HasCore(spec)
    ensures NamesAfter(names, SetUpOps(name, spec)) == Some(names)
  {
    Names2(names, SetUpOps(name, spec)[0], SetUpOps(name, spec)[1]);
  }

  lemma KeptNames(env: Packages, names: set<string>, name: string, spec: Spec, current: Spec)
    requires name in names && Reported(current)
    ensures NamesAfter(names, KeptOps(env, name, spec, current)) == Some(names)
  {
    var ops := KeptOps(env, name, spec, current);
    if !HasCore(spec) {
    } else if !PyEq(current["version"], spec["version"]) {
      assert ops == ops[..2] + ops[2..4] + SetUpOps(name, spec);
      Names2(names, ops[0], ops[1]);
      assert ops[..2] == [ops[0], ops[1]];
      Names2(names, ops[2], ops[3]);
      assert ops[2..4] == [ops[2], ops[3]];
      assert names - {name} + {name} == names;
      NamesAppend(names, ops[..2], ops[2..4]);
      NamesAppend(names, ops[..2] + ops[2..4], SetUpOps(name, spec));
      SetUpNames(names, name, spec);
    } else if |ops| == 2 {
      Names2(names, ops[0], ops[1]);
      assert ops == [ops[0], ops[1]];
    } else if |ops| == 1 {
      assert ops[1..] == [];
    }
  }

  lemma AddNames(env: Packages, names: set<string>, name: string, spec: Spec)
    requires name !in names
    ensures var r := NamesAfter(names, AddOps(env, name, spec)); r.Some? && r.value <= names + {name}
  {
    var ops := AddOps(env, name, spec);
    if HasCore(spec) {
      assert ops == ops[..2] + SetUpOps(name, spec);
      Names2(names, ops[0], ops[1]);
      assert ops[..2] == [ops[0], ops[1]];
      NamesAppend(names, ops[..2], SetUpOps(name, spec));
      SetUpNames(names + {name}, name, spec);
    }
  }

  lemma {:induction false} AllDeleteNames(installed: set<string>, names: seq<string>)
    requires forall n :: n in names ==> n in installed
    requires forall i, j :: 0 <= i < j < |names| ==> names[i] != names[j]
    ensures var r := NamesAfter(installed, AllDeleteOps(names)); r.Some? && r.value == installed - set n | n in names
    decreases |names|
  {
    if names == [] {
      assert installed - (set n | n in names) == installed;
    } else {
      Names2(installed, StopServices(names[0]), RemovePackage(names[0]));
      NamesAppend(installed, DeleteOps(names[0]), AllDeleteOps(names[1..]));
      AllDeleteNames(installed - {names[0]}, names[1..]);
      assert installed - {names[0]} - (set n | n in names[1..]) == installed - set n | n in names;
    }
  }

  lemma {:induction false} AllKeptNames(env: Packages, installed: set<string>, names: seq<string>, desired: Apps,
      current: Apps)
    requires forall n :: n in names ==> n in desired && n in current && Reported(current[n]) && n in installed
    ensures NamesAfter(installed, AllKeptOps(env, names, desired, current)) == Some(installed)
    decreases |names|
  {
    if names != [] {
      var n := names[0];
      KeptNames(env, installed, n, desired[n], current[n]);
      NamesAppend(installed, KeptOps(env, n, desired[n], current[n]), AllKeptOps(env, names[1..], desired, current));
      AllKeptNames(env, installed, names[1..], desired, current);
    }
  }

  lemma {:induction false} AllAddNames(env: Packages, installed: set<string>, names: seq<string>, desired: Apps)
    requires forall n :: n in names ==> n in desired && n !in installed
    requires forall i, j :: 0 <= i < j < |names| ==> names[i] != names[j]
    ensures NamesAfter(installed, AllAddOps(env, names, desired)).Some?
    decreases |names|
  {
    if names != [] {
      var n := names[0];
      AddNames(env, installed, n, desired[n]);
      NamesAppend(installed, AddOps(env, n, desired[n]), AllAddOps(env, names[1..], desired));
      AllAddNames(env, NamesAfter(installed, AddOps(env, n, desired[n])).value, names[1..], desired);
    }
  }

  lemma PlanNames(env: Packages, t: Table, desired: Apps, nonDestructive: bool, o: Order)
    requires AllReported(CurrentConfig(t)) && OrderOf(o, CurrentConfig(t), desired)
    ensures NamesAfter(t.Keys, Plan(env, CurrentConfig(t), desired, nonDestructive, o)).Some?
  {
    var current := CurrentConfig(t);
    var deletions := if nonDestructive then [] else AllDeleteOps(o.deleted);
    var kept, added := AllKeptOps(env, o.kept, desired, current), AllAddOps(env, o.added, desired);
    AllDeleteNames(t.Keys, o.deleted);
    var left := NamesAfter(t.Keys, deletions).value;
    AllKeptNames(env, left, o.kept, desired, current);
    AllAddNames(env, left, o.added, desired);
    NamesAppend(t.Keys, deletions, kept);
    NamesAppend(t.Keys, deletions + kept, added);
  }

  lemma {:induction false} PrefixNames(t: Table, ops: seq<Op>, j: nat)
    requires j < |ops| && NamesAfter(t.Keys, ops).Some? && Run(t, ops[..j]).Some?
    ensures NameStep(Run(t, ops[..j]).value.Keys, ops[j]).Some?
    decreases j
  {
    if j > 0 {
      assert ops[..j][1..] == ops[1..][..j - 1];
      var t' := Apply(t, ops[0]).value;
      assert t'.Keys == NameStep(t.Keys, ops[0]).value;
      PrefixNames(t', ops[1..], j - 1);
    }
  }

  /** Whatever the configuration, no point of a run installs a name that is in the table, or stops or
      removes one that is not: the database's checks never fire. */
  lemma NeverInstalledTwice(env: Packages, t: Table, desired: Apps, nonDestructive: bool, o: Order, j: nat)
    requires AllReported(CurrentConfig(t)) && OrderOf(o, CurrentConfig(t), desired)
    requires var plan := Plan(env, CurrentConfig(t), desired, nonDestructive, o);
      j < |plan| && Run(t, plan[..j]).Some?
    ensures var plan := Plan(env, CurrentConfig(t), desired, nonDestructive, o);
      var installed := Run(t, plan[..j]).value.Keys;
      && (plan[j].InstallPackage? ==> plan[j].name !in installed)
      && (plan[j].StopServices? || plan[j].RemovePackage? ==> plan[j].name in installed)
  {
    PlanNames(env, t, desired, nonDestructive, o);
    PrefixNames(t, Plan(env, CurrentConfig(t), desired, nonDestructive, o), j);
  }

  // ---------- the probe and the satisfaction test ----------

  /** A value that the inclusion test can compare: no list and no null at any depth. */
  predicate Plain(a: Json) {
    Comparable(a) && (a.Dict? ==> ListFree(a))
  }

  /** What the inclusion test asks of one property. */
  predicate Included(a: Json, b: Json) {
    if a.Dict? then IsDictSubset(a, b) else PyEq(a, b)
  }

  /** b has no names besides those of a, at any depth. */
  predicate NoExtraNames(a: Json, b: Json) {
    a.Dict? ==>
      && b.Dict?
      && a.fields.Keys == b.fields.Keys
      && forall k :: k in a.fields ==> NoExtraNames(a.fields[k], b.fields[k])
  }

  /** A specification that has, besides the properties that are not state, a version, a configuration
      and the kind of services property that the installed application reports, all of them list-free. */
  predicate PlainFor(spec: Spec, current: Spec) {
    && Reported(current) && HasCore(spec)
    && Plain(spec["version"]) && spec["config"].Dict?
    && ("service_states" in current <==> "service_states" in spec)
    && ("service_states" !in current <==> "running" in spec)
    && ("service_states" in spec ==> Plain(spec["service_states"]))
    && ("running" in spec ==> Plain(spec["running"]))
    && (forall p :: p in spec && p !in IGNORED ==> p in {"version", "config", "service_states", "running"})
  }

  /** Version and services are reported with no names besides those asked for. */
  predicate SameNames(spec: Spec, current: Spec) {
    forall p :: p in spec && p in {"version", "service_states", "running"} ==>
      p in current && NoExtraNames(spec[p], current[p])
  }

  /** Inclusion of a list-free value without extra names is equality. */
  lemma {:induction false} EqualIffIncluded(a: Json, b: Json)
    requires Plain(a)
    ensures PyEq(b, a) <==> Included(a, b) && NoExtraNames(a, b)
  {
    if a.Dict? {
      if PyEq(b, a) {
        PyEqSymmetric(b, a);
        EqualImpliesSubset(a, b);
      }
      if b.Dict? && a.fields.Keys == b.fields.Keys {
        forall k | k in a.fields
          ensures PyEq(b.fields[k], a.fields[k]) <==> Included(a.fields[k], b.fields[k]) && NoExtraNames(a.fields[k], b.fields[k])
        {
          EqualIffIncluded(a.fields[k], b.fields[k]);
        }
      }
    } else {
      if PyEq(a, b) { PyEqSymmetric(a, b); }
      if PyEq(b, a) { PyEqSymmetric(b, a); }
    }
  }

  /** For one application, the satisfaction test spelled out. */
  lemma SatisfiedMeans(spec: Spec, current: Spec)
    requires PlainFor(spec, current)
    ensures AppSatisfied(spec, current) <==>
      && Included(spec["version"], current["version"])
      && IsDictSubset(spec["config"], current["config"])
      && ("service_states" in spec ==> Included(spec["service_states"], current["service_states"]))
      && ("running" in spec ==> Included(spec["running"], current["running"]))
  {
    var a := Strip(spec);
    assert "version" in a && "config" in a;
    assert "service_states" in spec ==> "service_states" in a;
    assert "running" in spec ==> "running" in a;
  }

  lemma KeptMeans(name: string, spec: Spec, current: Spec)
    requires PlainFor(spec, current)
    ensures KeptCount(name, spec, current) == Some(0) <==>
      && PyEq(current["version"], spec["version"])
      && IsDictSubset(spec["config"], current["config"])
      && ("service_states" in spec ==> PyEq(current["service_states"], spec["service_states"]))
      && ("running" in spec ==> PyEq(current["running"], spec["running"]))
  {
    if "running" in spec {
      var a, b := Dict(map[name := current["running"]]), Dict(map[name := spec["running"]]);
      assert PyEq(a, b) <==> PyEq(a.fields[name], b.fields[name]);
    }
  }

  lemma KeptIffSatisfied(name: string, spec: Spec, current: Spec)
    requires PlainFor(spec, current)
    ensures KeptCount(name, spec, current) == Some(0) <==> AppSatisfied(spec, current) && SameNames(spec, current)
  {
    hide KeptCount, AppSatisfied, Included, NoExtraNames, IsDictSubset;
    KeptMeans(name, spec, current);
    SatisfiedMeans(spec, current);
    EqualIffIncluded(spec["version"], current["version"]);
    if "service_states" in spec {
      EqualIffIncluded(spec["service_states"], current["service_states"]);
    } else {
      EqualIffIncluded(spec["running"], current["running"]);
    }
  }

  /** The probe counts no change exactly if the satisfaction test passes and, in addition, every
      application reports the very services that are asked of it. So a probe of 0 implies
      satisfaction, which is what the agent asserts after a run. */
  lemma ProbeZeroIffSatisfied(current: Apps, desired: Apps, o: Order)
    requires AllReported(current) && OrderOf(o, current, desired)
    requires forall n :: n in desired && n in current ==> PlainFor(desired[n], current[n])
    ensures Probe(current, desired, false, o) == Some(0) <==>
      Satisfies(desired, current) && forall n :: n in desired ==> SameNames(desired[n], current[n])
  {
    hide KeptCount, AppSatisfied, SameNames, PlainFor;
    forall n | n in desired && n in current
      ensures KeptCount(n, desired[n], current[n]) == Some(0) <==>
        AppSatisfied(desired[n], current[n]) && SameNames(desired[n], current[n])
    {
      KeptIffSatisfied(n, desired[n], current[n]);
    }
    if current.Keys == desired.Keys {
      ProbeOfSameNames(current, desired, o);
    } else {
      ProbeSeesNames(current, desired, o);
    }
  }

  lemma ProbeSeesNames(current: Apps, desired: Apps, o: Order)
    requires AllReported(current) && OrderOf(o, current, desired)
    requires current.Keys != desired.Keys
    ensures Probe(current, desired, false, o) != Some(0)
  {
    var n :| n in current.Keys + desired.Keys && (n !in current || n !in desired);
    assert n in o.deleted || n in o.added;
  }

  function OneApp(services: map<string, Json>): Spec {
    map["version" := Str("1"), "config" := Dict(map[]), "service_states" := Dict(services)]
  }

  lemma OneAppKept()
    ensures var spec, actual := OneApp(map["x" := Bool(true)]), OneApp(map["x" := Bool(true), "y" := Bool(false)]);
      AppSatisfied(spec, actual) && KeptCount("a", spec, actual) == Some(1)
  {
    var spec, actual := OneApp(map["x" := Bool(true)]), OneApp(map["x" := Bool(true), "y" := Bool(false)]);
    SatisfiedMeans(spec, actual);
    assert "y" in actual["service_states"].fields && "y" !in spec["service_states"].fields;
  }

  /** Without equal service names satisfaction is not enough: a host that reports one service more than
      it was asked for satisfies its configuration, yet a probe counts a change. */
  lemma ExtraServiceFoolsSatisfaction(o: Order)
    requires o == Order([], ["a"], [])
    ensures var desired: Apps := map["a" := OneApp(map["x" := Bool(true)])];
      var current: Apps := map["a" := OneApp(map["x" := Bool(true), "y" := Bool(false)])];
      && AllReported(current) && OrderOf(o, current, desired)
      && Satisfies(desired, current)
      && Probe(current, desired, false, o) == Some(1)
  {
    hide KeptCount, AppSatisfied;
    OneAppKept();
    var desired: Apps := map["a" := OneApp(map["x" := Bool(true)])];
    var current: Apps := map["a" := OneApp(map["x" := Bool(true), "y" := Bool(false)])];
    assert KeptCounts(["a"][1..], desired, current) == Some(0);
    assert KeptCounts(["a"], desired, current) == Some(1);
  }

  // ---------- the count does not depend on the order ----------

  function Sum(a: Option<nat>, b: Option<nat>): Option<nat> {
    if a.None? || b.None? then None else Some(a.value + b.value)
  }

  lemma {:induction false} CountsWithout(names: seq<string>, j: nat, desired: Apps, current: Apps)
    requires j < |names| && forall n :: n in names ==> n in desired && n in current && Reported(current[n])
    ensures var n := names[j];
      KeptCounts(names, desired, current) ==
      Sum(KeptCount(n, desired[n], current[n]), KeptCounts(names[..j] + names[j + 1..], desired, current))
  {
    hide KeptCount;
    if j == 0 {
      assert names[..0] + names[1..] == names[1..];
    } else {
      var others := names[..j] + names[j + 1..];
      CountsWithout(names[1..], j - 1, desired, current);
      assert others[0] == names[0] && others[1..] == names[1..][..j - 1] + names[1..][j..];
    }
  }

  lemma {:induction false} CountsOfSet(a: seq<string>, b: seq<string>, desired: Apps, current: Apps)
    requires forall n :: n in a ==> n in desired && n in current && Reported(current[n])
    requires forall n :: n in a <==> n in b
    requires forall i, j :: 0 <= i < j < |a| ==> a[i] != a[j]
    requires forall i, j :: 0 <= i < j < |b| ==> b[i] != b[j]
    ensures KeptCounts(a, desired, current) == KeptCounts(b, desired, current) && |a| == |b|
  {
    hide KeptCount;
    if a == [] {
      SomeMember(b);
    } else {
      assert a[0] in b;
      var j :| 0 <= j < |b| && b[j] == a[0];
      var rest := b[..j] + b[j + 1..];
      CountsWithout(b, j, desired, current);
      Without(a, b, j);
      CountsOfSet(a[1..], rest, desired, current);
    }
  }

  lemma Without(a: seq<string>, b: seq<string>, j: nat)
    requires a != [] && j < |b| && b[j] == a[0] && forall n :: n in a <==> n in b
    requires forall i, k :: 0 <= i < k < |a| ==> a[i] != a[k]
    requires forall i, k :: 0 <= i < k < |b| ==> b[i] != b[k]
    ensures var rest := b[..j] + b[j + 1..];
      && (forall n :: n in a[1..] <==> n in rest)
      && forall i, k :: 0 <= i < k < |rest| ==> rest[i] != rest[k]
  {
    var rest := b[..j] + b[j + 1..];
    forall n ensures n in a[1..] <==> n in rest {
      if n in a[1..] {
        var k :| 1 <= k < |a| && a[k] == n;
        assert a[k] in b;
        var m :| 0 <= m < |b| && b[m] == n;
        assert rest[if m < j then m else m - 1] == n;
      }
      if n in rest {
        var m :| 0 <= m < |rest| && rest[m] == n;
        assert b[if m < j then m else m + 1] == n;
        assert n in a;
      }
    }
  }

  /** A probe and a real run from the same snapshot count the same, in whatever order each of them handles
      the applications; and either both raise while counting or none does. */
  lemma CountIsOrderFree(current: Apps, desired: Apps, nonDestructive: bool, o: Order, o': Order)
    requires AllReported(current) && OrderOf(o, current, desired) && OrderOf(o', current, desired)
    ensures Probe(current, desired, nonDestructive, o) == Probe(current, desired, nonDestructive, o')
  {
    CountsOfSet(o.kept, o'.kept, desired, current);
    SameLength(o.deleted, o'.deleted);
    SameLength(o.added, o'.added);
  }

  lemma {:induction false} SameLength(a: seq<string>, b: seq<string>)
    requires forall n :: n in a <==> n in b
    requires forall i, j :: 0 <= i < j < |a| ==> a[i] != a[j]
    requires forall i, j :: 0 <= i < j < |b| ==> b[i] != b[j]
    ensures |a| == |b|
  {
    if a == [] {
      SomeMember(b);
    } else {
      assert a[0] in b;
      var j :| 0 <= j < |b| && b[j] == a[0];
      Without(a, b, j);
      SameLength(a[1..], b[..j] + b[j + 1..]);
    }
  }

  // ---------- what exactly is counted ----------

  /** The kept applications at another version, and of the others those whose configuration or whose services
      differ. */
  predicate OtherVersion(n: string, desired: Apps, current: Apps) {
    n in desired && n in current && HasCore(desired[n]) && HasCore(current[n]) &&
    !PyEq(current[n]["version"], desired[n]["version"])
  }

  predicate OtherConfig(n: string, desired: Apps, current: Apps) {
    n in desired && n in current && HasCore(desired[n]) && HasCore(current[n]) &&
    PyEq(current[n]["version"], desired[n]["version"]) && !IsDictSubset(desired[n]["config"], current[n]["config"])
  }

  predicate OtherServices(n: string, desired: Apps, current: Apps) {
    n in desired && n in current && HasCore(desired[n]) && HasCore(current[n]) &&
    PyEq(current[n]["version"], desired[n]["version"]) &&
    Services(n, desired[n]).Some? && CurrentServices(n, current[n]).Some? &&
    !PyEq(CurrentServices(n, current[n]).value, Services(n, desired[n]).value)
  }

  function Versions(names: set<string>, desired: Apps, current: Apps): set<string> {
    set n | n in names && OtherVersion(n, desired, current)
  }

  function Configs(names: set<string>, desired: Apps, current: Apps): set<string> {
    set n | n in names && OtherConfig(n, desired, current)
  }

  function Differing(names: set<string>, desired: Apps, current: Apps): set<string> {
    set n | n in names && OtherServices(n, desired, current)
  }

  lemma OneMoreName(n: string, rest: set<string>, desired: Apps, current: Apps)
    requires n !in rest && n in desired && n in current && Reported(current[n])
    requires KeptCount(n, desired[n], current[n]).Some?
    ensures |Versions({n} + rest, desired, current)| + |Configs({n} + rest, desired, current)|
      + |Differing({n} + rest, desired, current)|
      == KeptCount(n, desired[n], current[n]).value + |Versions(rest, desired, current)|
      + |Configs(rest, desired, current)| + |Differing(rest, desired, current)|
  {
    hide IsDictSubset, PyEq;
    WithOne(n, Versions(rest, desired, current), Versions({n} + rest, desired, current), OtherVersion(n, desired, current));
    WithOne(n, Configs(rest, desired, current), Configs({n} + rest, desired, current), OtherConfig(n, desired, current));
    WithOne(n, Differing(rest, desired, current), Differing({n} + rest, desired, current), OtherServices(n, desired, current));
  }

  lemma WithOne(n: string, rest: set<string>, all: set<string>, included: bool)
    requires n !in rest && forall m :: m in all <==> m in rest || (m == n && included)
    ensures |all| == |rest| + if included then 1 else 0
  {
    assert all == if included then rest + {n} else rest;
  }

  lemma {:induction false} KeptCountsAre(names: seq<string>, desired: Apps, current: Apps)
    requires forall n :: n in names ==> n in desired && n in current && Reported(current[n])
    requires forall i, j :: 0 <= i < j < |names| ==> names[i] != names[j]
    ensures KeptCounts(names, desired, current).Some? ==>
      var all := set n | n in names;
      KeptCounts(names, desired, current).value ==
        |Versions(all, desired, current)| + |Configs(all, desired, current)| + |Differing(all, desired, current)|
  {
    hide KeptCount, Versions, Configs, Differing;
    if names == [] {
      NoNames(desired, current);
      assert (set n | n in names) == {};
    } else if KeptCounts(names, desired, current).Some? {
      KeptCountsAre(names[1..], desired, current);
      var rest := set n | n in names[1..];
      assert (set n | n in names) == {names[0]} + rest;
      OneMoreName(names[0], rest, desired, current);
    }
  }

  lemma NoNames(desired: Apps, current: Apps)
    ensures Versions({}, desired, current) == Configs({}, desired, current) == Differing({}, desired, current) == {}
  {
  }

  lemma {:induction false} Length(names: seq<string>, s: set<string>)
    requires forall n :: n in names <==> n in s
    requires forall i, j :: 0 <= i < j < |names| ==> names[i] != names[j]
    ensures |names| == |s|
  {
    if names == [] {
      assert s == {};
    } else {
      assert names[0] in s;
      Length(names[1..], s - {names[0]});
    }
  }

  /** The result of process_apps: the obsolete applications, unless the run is not destructive, the new ones,
      the kept ones at another version, and for each of the others one for its configuration and one for its
      services where they differ. */
  lemma ProbeCounts(current: Apps, desired: Apps, nonDestructive: bool, o: Order)
    requires AllReported(current) && OrderOf(o, current, desired)
    requires Probe(current, desired, nonDestructive, o).Some?
    ensures Probe(current, desired, nonDestructive, o).value ==
      (if nonDestructive then 0 else |current.Keys - desired.Keys|) + |desired.Keys - current.Keys|
      + |set n | n in current.Keys * desired.Keys && OtherVersion(n, desired, current)|
      + |set n | n in current.Keys * desired.Keys && OtherConfig(n, desired, current)|
      + |set n | n in current.Keys * desired.Keys && OtherServices(n, desired, current)|
  {
    hide KeptCounts, OtherVersion, OtherConfig, OtherServices;
    Length(o.deleted, current.Keys - desired.Keys);
    Length(o.added, desired.Keys - current.Keys);
    KeptCountsAre(o.kept, desired, current);
    assert (set n | n in o.kept) == current.Keys * desired.Keys;
  }
}
