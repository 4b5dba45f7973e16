/** In which order a run of process_apps does things, and what therefore holds wherever it is cut off. */
module AppOrder {
  import opened Wrappers
  import opened Json
  import opened AppsConfig
  import opened AppPlan
  import opened AppConvergence

  predicate On(op: Op, n: string) {
    !op.Fail? && op.name == n
  }

  ghost predicate NoneOn(ops: seq<Op>, n: string) {
    forall i :: 0 <= i < |ops| ==> !On(ops[i], n)
  }

  ghost predicate OnlyOn(ops: seq<Op>, n: string) {
    forall i :: 0 <= i < |ops| ==> ops[i].Fail? || ops[i].name == n
  }

  lemma ApplyElsewhere(t: Table, op: Op, n: string)
    requires !On(op, n) && Apply(t, op).Some?
    ensures ViewOf(Apply(t, op).value, n) == ViewOf(t, n)
  {
  }

  /** Actions on other applications leave an application alone. */
  lemma {:induction false} Untouched(t: Table, ops: seq<Op>, n: string)
    requires NoneOn(ops, n) && Run(t, ops).Some?
    ensures ViewOf(Run(t, ops).value, n) == ViewOf(t, n)
    decreases |ops|
  {
    hide Apply;
    if ops != [] {
      ApplyElsewhere(t, ops[0], n);
      Untouched(Apply(t, ops[0]).value, ops[1..], n);
    }
  }

  lemma {:induction false} NoFailure(t: Table, ops: seq<Op>)
    requires Run(t, ops).Some?
    ensures Fail !in ops
    decreases |ops|
  {
    if ops != [] {
      NoFailure(Apply(t, ops[0]).value, ops[1..]);
    }
  }

  lemma PiecesAreOn(env: Packages, n: string, spec: Spec, current: Spec)
    ensures OnlyOn(DeleteOps(n), n) && OnlyOn(AddOps(env, n, spec), n)
    ensures Reported(current) ==> OnlyOn(KeptOps(env, n, spec, current), n)
  {
  }

  // ---------- no application is touched before its package is there ----------

  /** The first action on the application is the download of its package, and that only where it can be
      located; or something has failed before. */
  ghost predicate Fetched(ops: seq<Op>, n: string, located: bool) {
    && (forall i :: 0 <= i < |ops| && On(ops[i], n) && !ops[i].Download? ==>
          exists j :: 0 <= j < i && (ops[j] == Download(n) || ops[j].Fail?))
    && (Download(n) in ops ==> located)
  }

  lemma FetchedAppend(a: seq<Op>, b: seq<Op>, n: string, located: bool)
    requires Fetched(a, n, located) && Fetched(b, n, located)
    ensures Fetched(a + b, n, located)
  {
    var ops := a + b;
    forall i | 0 <= i < |ops| && On(ops[i], n) && !ops[i].Download?
      ensures exists j :: 0 <= j < i && (ops[j] == Download(n) || ops[j].Fail?)
    {
      if i < |a| {
        var j :| 0 <= j < i && (a[j] == Download(n) || a[j].Fail?);
        assert ops[j] == a[j];
      } else {
        var j :| 0 <= j < i - |a| && (b[j] == Download(n) || b[j].Fail?);
        assert ops[|a| + j] == b[j];
      }
    }
  }

  lemma FetchedOther(ops: seq<Op>, m: string, n: string, located: bool)
    requires OnlyOn(ops, m) && m != n
    ensures Fetched(ops, n, located)
  {
  }

  lemma {:induction false} DeletedFetched(names: seq<string>, n: string, located: bool)
    requires n !in names
    ensures Fetched(AllDeleteOps(names), n, located)
  {
    if names != [] {
      DeletedFetched(names[1..], n, located);
      FetchedOther(DeleteOps(names[0]), names[0], n, located);
      FetchedAppend(DeleteOps(names[0]), AllDeleteOps(names[1..]), n, located);
    }
  }

  lemma UpgradeFetched(env: Packages, n: string, spec: Spec, current: Spec)
    requires Reported(current) && !("version" in spec && PyEq(current["version"], spec["version"]))
    ensures Fetched(KeptOps(env, n, spec, current), n, env.located(spec))
  {
    var ops := KeptOps(env, n, spec, current);
    assert ops[0] == Download(n) || ops[0].Fail?;
  }

  lemma AddFetched(env: Packages, n: string, spec: Spec)
    ensures Fetched(AddOps(env, n, spec), n, env.located(spec))
  {
    var ops := AddOps(env, n, spec);
    assert ops[0] == Download(n) || ops[0].Fail?;
  }

  lemma {:induction false} KeptFetched(env: Packages, names: seq<string>, desired: Apps, current: Apps, n: string)
    requires forall m :: m in names ==> m in desired && m in current && Reported(current[m])
    requires n in desired
    requires n in current ==>
      "version" in current[n] && !("version" in desired[n] && PyEq(current[n]["version"], desired[n]["version"]))
    ensures Fetched(AllKeptOps(env, names, desired, current), n, env.located(desired[n]))
  {
    hide KeptOps, Fetched, OnlyOn;
    if names == [] {
      NothingFetched(n, env.located(desired[n]));
    } else {
      var m := names[0];
      var ops := KeptOps(env, m, desired[m], current[m]);
      KeptFetched(env, names[1..], desired, current, n);
      if m == n {
        UpgradeFetched(env, n, desired[n], current[n]);
      } else {
        PiecesAreOn(env, m, desired[m], current[m]);
        FetchedOther(ops, m, n, env.located(desired[n]));
      }
      FetchedAppend(ops, AllKeptOps(env, names[1..], desired, current), n, env.located(desired[n]));
    }
  }

  lemma NothingFetched(n: string, located: bool)
    ensures Fetched([], n, located)
  {
  }

  lemma {:induction false} AddedFetched(env: Packages, names: seq<string>, desired: Apps, n: string)
    requires n in desired && forall m :: m in names ==> m in desired
    ensures Fetched(AllAddOps(env, names, desired), n, env.located(desired[n]))
  {
    hide AddOps, Fetched, OnlyOn;
    if names == [] {
      NothingFetched(n, env.located(desired[n]));
    } else {
      var m := names[0];
      var ops := AddOps(env, m, desired[m]);
      AddedFetched(env, names[1..], desired, n);
      if m == n {
        AddFetched(env, n, desired[n]);
      } else {
        PiecesAreOn(env, m, desired[m], map[]);
        FetchedOther(ops, m, n, env.located(desired[n]));
      }
      FetchedAppend(ops, AllAddOps(env, names[1..], desired), n, env.located(desired[n]));
    }
  }

  lemma PlanFetched(env: Packages, t: Table, desired: Apps, nonDestructive: bool, o: Order, n: string)
    requires AllReported(CurrentConfig(t)) && OrderOf(o, CurrentConfig(t), desired)
    requires n in desired && !Stays(desired[n], ViewOf(t, n))
    ensures Fetched(Plan(env, CurrentConfig(t), desired, nonDestructive, o), n, env.located(desired[n]))
  {
    hide Fetched;
    var current := CurrentConfig(t);
    var located := env.located(desired[n]);
    var d := if nonDestructive then [] else AllDeleteOps(o.deleted);
    var k, a := AllKeptOps(env, o.kept, desired, current), AllAddOps(env, o.added, desired);
    NothingFetched(n, located);
    DeletedFetched(o.deleted, n, located);
    KeptFetched(env, o.kept, desired, current, n);
    AddedFetched(env, o.added, desired, n);
    FetchedAppend(d, k, n, located);
    FetchedAppend(d + k, a, n, located);
  }

  /** Wherever a run is cut off, an application that is not at its version is as it was before unless its
      new package has been downloaded: the old version is never stopped or removed before, and a package
      that cannot be located costs nothing. */
  lemma FetchedBeforeTouched(env: Packages, t: Table, t': Table, desired: Apps, nonDestructive: bool, o: Order,
      done: seq<Op>, n: string)
    requires AllReported(CurrentConfig(t)) && OrderOf(o, CurrentConfig(t), desired)
    requires done <= Plan(env, CurrentConfig(t), desired, nonDestructive, o) && Run(t, done) == Some(t')
    requires n in desired && !Stays(desired[n], ViewOf(t, n))
    ensures Download(n) !in done || !env.located(desired[n]) ==>
      (n in t <==> n in t') && (n in t ==> t'[n] == t[n])
  {
    hide Plan, CurrentConfig, AppPlan.Run, Stays;
    var plan := Plan(env, CurrentConfig(t), desired, nonDestructive, o);
    PlanFetched(env, t, desired, nonDestructive, o, n);
    NoFailure(t, done);
    FetchedPrefix(done, plan, n, env.located(desired[n]));
    if NoneOn(done, n) {
      Untouched(t, done, n);
    } else {
      TouchedFetched(done, n, env.located(desired[n]));
    }
  }

  lemma FetchedPrefix(done: seq<Op>, plan: seq<Op>, n: string, located: bool)
    requires done <= plan && Fetched(plan, n, located)
    ensures Fetched(done, n, located)
  {
    forall i | 0 <= i < |done| && On(done[i], n) && !done[i].Download?
      ensures exists j :: 0 <= j < i && (done[j] == Download(n) || done[j].Fail?)
    {
      assert done[i] == plan[i];
      var j :| 0 <= j < i && (plan[j] == Download(n) || plan[j].Fail?);
      assert done[j] == plan[j];
    }
    if Download(n) in done {
      var j :| 0 <= j < |done| && done[j] == Download(n);
      assert plan[j] in plan;
    }
  }

  lemma TouchedFetched(done: seq<Op>, n: string, located: bool)
    requires Fetched(done, n, located) && Fail !in done && !NoneOn(done, n)
    ensures Download(n) in done && located
  {
    var i :| 0 <= i < |done| && On(done[i], n);
    if !done[i].Download? {
      var j :| 0 <= j < i && (done[j] == Download(n) || done[j].Fail?);
      assert done[j] in done;
    }
  }

  // ---------- removed only after it has been stopped ----------

  ghost predicate StopsFirst(ops: seq<Op>) {
    forall i :: 0 <= i < |ops| && ops[i].RemovePackage? ==> i > 0 && ops[i - 1] == StopServices(ops[i].name)
  }

  lemma StopsAppend(a: seq<Op>, b: seq<Op>)
    requires StopsFirst(a) && StopsFirst(b)
    ensures StopsFirst(a + b)
  {
  }

  lemma PiecesStop(env: Packages, n: string, spec: Spec, current: Spec)
    ensures StopsFirst(DeleteOps(n)) && StopsFirst(AddOps(env, n, spec))
    ensures Reported(current) ==> StopsFirst(KeptOps(env, n, spec, current))
  {
  }

  lemma {:induction false} DeletedStop(names: seq<string>)
    ensures StopsFirst(AllDeleteOps(names))
  {
    if names != [] {
      DeletedStop(names[1..]);
      StopsAppend(DeleteOps(names[0]), AllDeleteOps(names[1..]));
    }
  }

  lemma {:induction false} KeptStop(env: Packages, names: seq<string>, desired: Apps, current: Apps)
    requires forall m :: m in names ==> m in desired && m in current && Reported(current[m])
    ensures StopsFirst(AllKeptOps(env, names, desired, current))
  {
    hide KeptOps;
    if names != [] {
      KeptStop(env, names[1..], desired, current);
      PiecesStop(env, names[0], desired[names[0]], current[names[0]]);
      StopsAppend(KeptOps(env, names[0], desired[names[0]], current[names[0]]),
                  AllKeptOps(env, names[1..], desired, current));
    }
  }

  lemma {:induction false} AddedStop(env: Packages, names: seq<string>, desired: Apps)
    requires forall m :: m in names ==> m in desired
    ensures StopsFirst(AllAddOps(env, names, desired))
  {
    hide AddOps;
    if names != [] {
      AddedStop(env, names[1..], desired);
      PiecesStop(env, names[0], desired[names[0]], map[]);
      StopsAppend(AddOps(env, names[0], desired[names[0]]), AllAddOps(env, names[1..], desired));
    }
  }

  predicate AllStopped(v: AppView) {
    if v.multi then v.services.Dict? ==> forall s :: s in v.services.fields ==> v.services.fields[s] == Bool(false)
    else v.services == Bool(false)
  }

  /** Whenever a run is about to remove an application, all its services are off. */
  lemma StoppedBeforeRemoved(env: Packages, t: Table, t': Table, desired: Apps, nonDestructive: bool, o: Order,
      done: seq<Op>, n: string)
    requires AllReported(CurrentConfig(t)) && OrderOf(o, CurrentConfig(t), desired)
    requires done + [RemovePackage(n)] <= Plan(env, CurrentConfig(t), desired, nonDestructive, o)
    requires Run(t, done) == Some(t')
    ensures n in t' && AllStopped(t'[n])
  {
    var current := CurrentConfig(t);
    hide AllDeleteOps, AllKeptOps, AllAddOps, AppPlan.Run, CurrentConfig;
    var plan := Plan(env, current, desired, nonDestructive, o);
    var d := if nonDestructive then [] else AllDeleteOps(o.deleted);
    var k, a := AllKeptOps(env, o.kept, desired, current), AllAddOps(env, o.added, desired);
    DeletedStop(o.deleted);
    KeptStop(env, o.kept, desired, current);
    AddedStop(env, o.added, desired);
    StopsAppend(d, k);
    StopsAppend(d + k, a);
    hide Plan;
    var i := |done|;
    assert (done + [RemovePackage(n)])[i] == plan[i] && i > 0;
    assert done[i - 1] == (done + [RemovePackage(n)])[i - 1] == plan[i - 1] == StopServices(n);
    assert done == done[..i - 1] + [done[i - 1]];
    RunAppend(t, done[..i - 1], [done[i - 1]]);
    Run1(Run(t, done[..i - 1]).value, StopServices(n));
  }

  // ---------- one application after the other ----------

  lemma NoneAppend(a: seq<Op>, b: seq<Op>, n: string)
    ensures NoneOn(a + b, n) <==> NoneOn(a, n) && NoneOn(b, n)
  {
    if NoneOn(a + b, n) {
      assert forall i :: 0 <= i < |a| ==> a[i] == (a + b)[i];
      assert forall i :: 0 <= i < |b| ==> b[i] == (a + b)[|a| + i];
    }
  }

  lemma NoneOnOther(ops: seq<Op>, m: string, n: string)
    requires OnlyOn(ops, m) && m != n
    ensures NoneOn(ops, n)
  {
  }

  lemma {:induction false} DeletedOthers(names: seq<string>, n: string)
    requires n !in names
    ensures NoneOn(AllDeleteOps(names), n)
  {
    hide NoneOn;
    if names == [] {
      NoneOnNothing(n);
    } else {
      DeletedOthers(names[1..], n);
      NoneOnOther(DeleteOps(names[0]), names[0], n);
      NoneAppend(DeleteOps(names[0]), AllDeleteOps(names[1..]), n);
    }
  }

  lemma NoneOnNothing(n: string)
    ensures NoneOn([], n)
  {
  }

  lemma {:induction false} KeptOthers(env: Packages, names: seq<string>, desired: Apps, current: Apps, n: string)
    requires forall m :: m in names ==> m in desired && m in current && Reported(current[m])
    requires n !in names
    ensures NoneOn(AllKeptOps(env, names, desired, current), n)
  {
    hide KeptOps, NoneOn, OnlyOn;
    if names == [] {
      NoneOnNothing(n);
    } else {
      var m := names[0];
      KeptOthers(env, names[1..], desired, current, n);
      PiecesAreOn(env, m, desired[m], current[m]);
      NoneOnOther(KeptOps(env, m, desired[m], current[m]), m, n);
      NoneAppend(KeptOps(env, m, desired[m], current[m]), AllKeptOps(env, names[1..], desired, current), n);
    }
  }

  lemma {:induction false} AddedOthers(env: Packages, names: seq<string>, desired: Apps, n: string)
    requires n !in names && forall m :: m in names ==> m in desired
    ensures NoneOn(AllAddOps(env, names, desired), n)
  {
    hide AddOps, NoneOn, OnlyOn;
    if names == [] {
      NoneOnNothing(n);
    } else {
      var m := names[0];
      AddedOthers(env, names[1..], desired, n);
      PiecesAreOn(env, m, desired[m], map[]);
      NoneOnOther(AddOps(env, m, desired[m]), m, n);
      NoneAppend(AddOps(env, m, desired[m]), AllAddOps(env, names[1..], desired), n);
    }
  }

  lemma {:induction false} KeptSplit(env: Packages, names: seq<string>, desired: Apps, current: Apps, j: nat)
    requires forall m :: m in names ==> m in desired && m in current && Reported(current[m])
    requires j < |names|
    ensures AllKeptOps(env, names, desired, current) == AllKeptOps(env, names[..j], desired, current) +
      (KeptOps(env, names[j], desired[names[j]], current[names[j]]) + AllKeptOps(env, names[j + 1..], desired, current))
  {
    hide KeptOps;
    if j > 0 {
      KeptSplit(env, names[1..], desired, current, j - 1);
      assert names[1..][..j - 1] == names[..j][1..] && names[1..][j..] == names[j + 1..];
    } else {
      assert names[..0] == [];
    }
  }

  lemma {:induction false} AddedSplit(env: Packages, names: seq<string>, desired: Apps, j: nat)
    requires forall m :: m in names ==> m in desired
    requires j < |names|
    ensures AllAddOps(env, names, desired) == AllAddOps(env, names[..j], desired) +
      (AddOps(env, names[j], desired[names[j]]) + AllAddOps(env, names[j + 1..], desired))
  {
    hide AddOps;
    if j > 0 {
      AddedSplit(env, names[1..], desired, j - 1);
      assert names[1..][..j - 1] == names[..j][1..] && names[1..][j..] == names[j + 1..];
    } else {
      assert names[..0] == [];
    }
  }

  /** The named applications are as the run makes them, and in a destructive run no obsolete one is left. */
  ghost predicate Handled(env: Packages, t: Table, now: Table, desired: Apps, nonDestructive: bool, names: seq<string>) {
    && (forall n :: n in names ==> n in desired && n in now && Ready(env, n, desired[n], ViewOf(t, n)))
    && (forall n :: n in names ==> now[n] == Outcome(env, n, desired[n], ViewOf(t, n)))
    && (!nonDestructive ==> now.Keys <= desired.Keys)
  }

  ghost function Deletions(nonDestructive: bool, o: Order): seq<Op> {
    if nonDestructive then [] else AllDeleteOps(o.deleted)
  }

  lemma DeletionStage(t: Table, desired: Apps, nonDestructive: bool, o: Order)
    requires OrderOf(o, CurrentConfig(t), desired)
    ensures Run(t, Deletions(nonDestructive, o)) ==
      Some(if nonDestructive then t else map n | n in t && n !in o.deleted :: t[n])
  {
    DeletionsRun(t, o.deleted);
    NothingRun(t);
  }

  lemma KeptStage(env: Packages, t: Table, desired: Apps, nonDestructive: bool, o: Order, names: seq<string>)
    requires AllReported(CurrentConfig(t)) && OrderOf(o, CurrentConfig(t), desired) && names <= o.kept
    requires forall m :: m in names ==> m in desired && m in CurrentConfig(t) && Reported(CurrentConfig(t)[m])
    ensures var r := Run(t, Deletions(nonDestructive, o) + AllKeptOps(env, names, desired, CurrentConfig(t)));
      r.Some? ==> Handled(env, t, r.value, desired, nonDestructive, names) && r.value.Keys <= t.Keys
  {
    hide Ready, Outcome, AllKeptOps, AppPlan.Run, Deletions, Reported, Handled;
    var current := CurrentConfig(t);
    var t1 := if nonDestructive then t else map n | n in t && n !in o.deleted :: t[n];
    DeletionStage(t, desired, nonDestructive, o);
    RunAppend(t, Deletions(nonDestructive, o), AllKeptOps(env, names, desired, current));
    StageNames(t, t1, desired, nonDestructive, o);
    InKept(o, names);
    AllKeptRun(env, t1, names, desired, current);
    var r := Run(t1, AllKeptOps(env, names, desired, current));
    if r.Some? {
      KeptHandled(env, t, t1, r.value, desired, nonDestructive, o, names);
    }
  }

  lemma KeptHandled(env: Packages, t: Table, t1: Table, t2: Table, desired: Apps, nonDestructive: bool, o: Order,
      names: seq<string>)
    requires OrderOf(o, CurrentConfig(t), desired) && forall n :: n in names ==> n in o.kept
    requires t1 == if nonDestructive then t else map n | n in t && n !in o.deleted :: t[n]
    requires Reaches(env, t1, t2, names, desired)
    ensures Handled(env, t, t2, desired, nonDestructive, names) && t2.Keys <= t.Keys
  {
    hide Ready, Outcome;
    StageNames(t, t1, desired, nonDestructive, o);
  }

  lemma AddedHandled(env: Packages, t: Table, t2: Table, t3: Table, desired: Apps, nonDestructive: bool,
      kept: seq<string>, names: seq<string>)
    requires Handled(env, t, t2, desired, nonDestructive, kept) && Reaches(env, t2, t3, names, desired)
    requires forall n :: n in names ==> n !in kept && ViewOf(t2, n) == ViewOf(t, n)
    ensures Handled(env, t, t3, desired, nonDestructive, kept + names)
  {
    hide Ready, Outcome;
    assert forall n :: n in kept + names <==> n in kept || n in names;
  }

  lemma InKept(o: Order, names: seq<string>)
    requires names <= o.kept
    ensures forall n :: n in names ==> n in o.kept
  {
    assert forall i :: 0 <= i < |names| ==> names[i] == o.kept[i];
  }

  lemma AddedStage(env: Packages, t: Table, desired: Apps, nonDestructive: bool, o: Order, names: seq<string>)
    requires AllReported(CurrentConfig(t)) && OrderOf(o, CurrentConfig(t), desired) && names <= o.added
    requires forall m :: m in names ==> m in desired
    ensures var r := Run(t, Deletions(nonDestructive, o) + AllKeptOps(env, o.kept, desired, CurrentConfig(t)) +
                            AllAddOps(env, names, desired));
      r.Some? ==> Handled(env, t, r.value, desired, nonDestructive, o.kept + names)
  {
    hide Ready, Outcome, AllKeptOps, AllAddOps, AppPlan.Run, Deletions, Reported, Handled, Reaches;
    var d := Deletions(nonDestructive, o) + AllKeptOps(env, o.kept, desired, CurrentConfig(t));
    KeptStage(env, t, desired, nonDestructive, o, o.kept);
    RunAppend(t, d, AllAddOps(env, names, desired));
    if Run(t, d).Some? {
      var t2 := Run(t, d).value;
      InAdded(o, names);
      assert forall n :: n in names ==> n !in t && n !in t2;
      assert forall n :: n in names ==> ViewOf(t2, n) == ViewOf(t, n);
      AllAddRun(env, t2, names, desired);
      var r := Run(t2, AllAddOps(env, names, desired));
      if r.Some? {
        AddedHandled(env, t, t2, r.value, desired, nonDestructive, o.kept, names);
      }
    }
  }

  lemma InAdded(o: Order, names: seq<string>)
    requires names <= o.added
    ensures forall n :: n in names ==> n in o.added
    ensures forall i, j :: 0 <= i < j < |names| ==> o.added[i] == names[i] && o.added[j] == names[j]
  {
    assert forall i :: 0 <= i < |names| ==> names[i] == o.added[i];
  }

  /** The plan up to the j-th specified application, and the rest of it. */
  ghost predicate Cut(env: Packages, t: Table, desired: Apps, nonDestructive: bool, o: Order, j: nat, before: seq<Op>,
      rest: seq<Op>)
    requires j < |o.kept| + |o.added|
  {
    var order := o.kept + o.added;
    && NoneOn(before, order[j])
    && (forall n :: n in order[..j] || n !in desired ==> NoneOn(rest, n))
    && (Run(t, before).Some? ==> Handled(env, t, Run(t, before).value, desired, nonDestructive, order[..j]))
  }

  lemma KeptNamesOf(o: Order, current: Apps, desired: Apps, j: nat)
    requires OrderOf(o, current, desired) && AllReported(current) && j < |o.kept|
    ensures forall n :: n in o.kept ==> n in desired && n in current && Reported(current[n])
    ensures forall n :: n in o.kept ==> n !in o.deleted && n !in o.added
    ensures forall n :: n in o.added ==> n in desired
    ensures o.kept[j] in o.kept
    ensures forall n :: n in o.kept[..j] ==> n in o.kept && n != o.kept[j] && n !in o.kept[j + 1..]
    ensures forall n :: n in o.kept[j + 1..] ==> n in o.kept
  {
    hide AllReported, Reported;
    assert forall i :: 0 <= i < j ==> o.kept[..j][i] == o.kept[i];
    forall n | n in o.kept[j + 1..] ensures n in o.kept && n != o.kept[j] {
      var i :| 0 <= i < |o.kept| - j - 1 && o.kept[j + 1..][i] == n;
      assert n == o.kept[j + 1 + i];
    }
    ReportedMeans(current);
  }

  lemma ReportedMeans(current: Apps)
    ensures AllReported(current) ==> forall n :: n in current ==> Reported(current[n])
  {
  }

  lemma AddedNamesOf(o: Order, current: Apps, desired: Apps, j: nat)
    requires OrderOf(o, current, desired) && AllReported(current) && j < |o.added|
    ensures forall n :: n in o.kept ==> n in desired && n in current && Reported(current[n]) && n !in o.added
    ensures forall n :: n in o.added ==> n in desired && n !in o.deleted
    ensures o.added[j] in o.added
    ensures forall n :: n in o.added[..j] ==> n in o.added && n != o.added[j] && n !in o.added[j + 1..]
    ensures forall n :: n in o.added[j + 1..] ==> n in o.added
  {
    hide AllReported, Reported;
    assert forall i :: 0 <= i < j ==> o.added[..j][i] == o.added[i];
    forall n | n in o.added[j + 1..] ensures n in o.added && n != o.added[j] {
      var i :| 0 <= i < |o.added| - j - 1 && o.added[j + 1..][i] == n;
      assert n == o.added[j + 1 + i];
    }
    ReportedMeans(current);
  }

  lemma CutKept(env: Packages, t: Table, desired: Apps, nonDestructive: bool, o: Order, j: nat)
    returns (before: seq<Op>, rest: seq<Op>)
    requires AllReported(CurrentConfig(t)) && OrderOf(o, CurrentConfig(t), desired) && j < |o.kept|
    ensures before + rest == Plan(env, CurrentConfig(t), desired, nonDestructive, o)
    ensures Cut(env, t, desired, nonDestructive, o, j, before, rest)
  {
    var current, order := CurrentConfig(t), o.kept + o.added;
    KeptNamesOf(o, current, desired, j);
    assert order[j] == o.kept[j] && order[..j] == o.kept[..j];
    PlanAtKept(env, current, desired, nonDestructive, o, j);
    KeptStage(env, t, desired, nonDestructive, o, o.kept[..j]);
    hide Enumerates, OrderOf, AllReported, Plan, CurrentConfig, Deletions;
    hide Ready, Outcome, AppPlan.Run, Reported, KeptOps, AllKeptOps, AllAddOps, AllDeleteOps, Handled, NoneOn;
    var x := AllKeptOps(env, o.kept[..j], desired, current);
    before := Deletions(nonDestructive, o) + x;
    rest := KeptOps(env, o.kept[j], desired[o.kept[j]], current[o.kept[j]]) +
      AllKeptOps(env, o.kept[j + 1..], desired, current) + AllAddOps(env, o.added, desired);
    NoneDeleted(nonDestructive, o, order[j]);
    KeptOthers(env, o.kept[..j], desired, current, order[j]);
    NoneAppend(Deletions(nonDestructive, o), x, order[j]);
    forall n | n in order[..j] || n !in desired ensures NoneOn(rest, n) {
      KeptRest(env, o.kept[j], o.kept[j + 1..], o.added, desired, current, n);
    }
  }

  lemma PlanAtKept(env: Packages, current: Apps, desired: Apps, nonDestructive: bool, o: Order, j: nat)
    requires AllReported(current) && OrderOf(o, current, desired) && j < |o.kept|
    requires forall n :: n in o.kept ==> n in desired && n in current && Reported(current[n])
    requires forall n :: n in o.kept[..j] ==> n in o.kept
    requires forall n :: n in o.kept[j + 1..] ==> n in o.kept
    requires o.kept[j] in o.kept && forall n :: n in o.added ==> n in desired
    ensures Plan(env, current, desired, nonDestructive, o) ==
      Deletions(nonDestructive, o) + AllKeptOps(env, o.kept[..j], desired, current) +
      (KeptOps(env, o.kept[j], desired[o.kept[j]], current[o.kept[j]]) +
       AllKeptOps(env, o.kept[j + 1..], desired, current) + AllAddOps(env, o.added, desired))
  {
    hide KeptOps, AllKeptOps, AllAddOps, AllDeleteOps, OrderOf, AllReported, Reported;
    KeptSplit(env, o.kept, desired, current, j);
  }

  lemma KeptRest(env: Packages, m: string, kept: seq<string>, added: seq<string>, desired: Apps, current: Apps, n: string)
    requires m in desired && m in current && Reported(current[m]) && m != n && n !in kept && n !in added
    requires forall x :: x in kept ==> x in desired && x in current && Reported(current[x])
    requires forall x :: x in added ==> x in desired
    ensures NoneOn(KeptOps(env, m, desired[m], current[m]) + AllKeptOps(env, kept, desired, current) +
                   AllAddOps(env, added, desired), n)
  {
    hide KeptOps, AllKeptOps, AllAddOps, NoneOn, OnlyOn, Reported;
    var p, y := KeptOps(env, m, desired[m], current[m]), AllKeptOps(env, kept, desired, current);
    PiecesAreOn(env, m, desired[m], current[m]);
    NoneOnOther(p, m, n);
    KeptOthers(env, kept, desired, current, n);
    AddedOthers(env, added, desired, n);
    NoneAppend(p, y, n);
    NoneAppend(p + y, AllAddOps(env, added, desired), n);
  }

  lemma NoneDeleted(nonDestructive: bool, o: Order, n: string)
    requires n !in o.deleted
    ensures NoneOn(Deletions(nonDestructive, o), n)
  {
    DeletedOthers(o.deleted, n);
  }

  lemma CutAdded(env: Packages, t: Table, desired: Apps, nonDestructive: bool, o: Order, j: nat)
    returns (before: seq<Op>, rest: seq<Op>)
    requires AllReported(CurrentConfig(t)) && OrderOf(o, CurrentConfig(t), desired) && |o.kept| <= j < |o.kept| + |o.added|
    ensures before + rest == Plan(env, CurrentConfig(t), desired, nonDestructive, o)
    ensures Cut(env, t, desired, nonDestructive, o, j, before, rest)
  {
    var current, order, i := CurrentConfig(t), o.kept + o.added, j - |o.kept|;
    AddedNamesOf(o, current, desired, i);
    assert order[j] == o.added[i];
    hide Enumerates, OrderOf, AllReported;
    hide Ready, Outcome, AppPlan.Run, Reported, AddOps, AllKeptOps, AllAddOps, AllDeleteOps, Handled, NoneOn, CurrentConfig;
    var x, y := AllAddOps(env, o.added[..i], desired), AllAddOps(env, o.added[i + 1..], desired);
    var p, k := AddOps(env, o.added[i], desired[o.added[i]]), AllKeptOps(env, o.kept, desired, current);
    AddedSplit(env, o.added, desired, i);
    before, rest := Deletions(nonDestructive, o) + k + x, p + y;
    assert before + rest == Deletions(nonDestructive, o) + k + (x + (p + y));
    AddedStage(env, t, desired, nonDestructive, o, o.added[..i]);
    assert order[..j] == o.kept + o.added[..i];
    NoneDeleted(nonDestructive, o, order[j]);
    KeptOthers(env, o.kept, desired, current, order[j]);
    AddedOthers(env, o.added[..i], desired, order[j]);
    NoneAppend(Deletions(nonDestructive, o), k, order[j]);
    NoneAppend(Deletions(nonDestructive, o) + k, x, order[j]);
    forall n | n in order[..j] || n !in desired ensures NoneOn(rest, n) {
      PiecesAreOn(env, o.added[i], desired[o.added[i]], map[]);
      NoneOnOther(p, o.added[i], n);
      AddedOthers(env, o.added[i + 1..], desired, n);
      NoneAppend(p, y, n);
    }
  }

  /** One application after the other, in the order of the ranks, the kept before the new, and all of them
      after the deletions: wherever a run is cut off, once it has begun with an application, the ones before
      it are as the run makes them, and in a destructive run no obsolete one is left. */
  lemma HandledInOrder(env: Packages, t: Table, t': Table, desired: Apps, nonDestructive: bool, o: Order,
      done: seq<Op>, j: nat)
    requires AllReported(CurrentConfig(t)) && OrderOf(o, CurrentConfig(t), desired)
    requires done <= Plan(env, CurrentConfig(t), desired, nonDestructive, o) && Run(t, done) == Some(t')
    requires j < |o.kept| + |o.added| && !NoneOn(done, (o.kept + o.added)[j])
    ensures Handled(env, t, t', desired, nonDestructive, (o.kept + o.added)[..j])
  {
    hide Plan, AppPlan.Run, CurrentConfig, Ready, Outcome, NoneOn;
    var order := o.kept + o.added;
    var before, rest;
    if j < |o.kept| {
      before, rest := CutKept(env, t, desired, nonDestructive, o, j);
    } else {
      before, rest := CutAdded(env, t, desired, nonDestructive, o, j);
    }
    ReachedRest(done, before, rest, order[j]);
    var z := done[|before|..];
    RunAppend(t, before, z);
    var t1 := Run(t, before).value;
    forall n | n in order[..j] || n !in desired ensures ViewOf(t', n) == ViewOf(t1, n) {
      NonePrefix(z, rest, n);
      Untouched(t1, z, n);
    }
    NoMoreKeys(t1, t', desired);
    assert forall n :: n in order[..j] ==> ViewOf(t', n) == ViewOf(t1, n);
  }

  lemma NoMoreKeys(t: Table, t': Table, desired: Apps)
    requires forall n :: n !in desired ==> ViewOf(t', n) == ViewOf(t, n)
    ensures t.Keys <= desired.Keys ==> t'.Keys <= desired.Keys
  {
    if n :| n in t' && n !in desired {
      assert ViewOf(t', n) == ViewOf(t, n);
    }
  }

  lemma NonePrefix(a: seq<Op>, b: seq<Op>, n: string)
    requires a <= b && NoneOn(b, n)
    ensures NoneOn(a, n)
  {
    assert forall i :: 0 <= i < |a| ==> a[i] == b[i];
  }

  lemma ReachedRest(done: seq<Op>, before: seq<Op>, rest: seq<Op>, n: string)
    requires done <= before + rest && NoneOn(before, n) && !NoneOn(done, n)
    ensures before <= done && done == before + done[|before|..] && done[|before|..] <= rest
  {
    if |done| <= |before| {
      ShortPrefix(done, before, rest);
      NonePrefix(done, before, n);
    } else {
      LongPrefix(done, before, rest);
    }
  }

  lemma ShortPrefix(done: seq<Op>, before: seq<Op>, rest: seq<Op>)
    requires done <= before + rest && |done| <= |before|
    ensures done <= before
  {
    assert done == (before + rest)[..|done|] == before[..|done|];
  }

  lemma LongPrefix(done: seq<Op>, before: seq<Op>, rest: seq<Op>)
    requires done <= before + rest && |before| <= |done|
    ensures before <= done && done == before + done[|before|..] && done[|before|..] <= rest
  {
    assert before + rest == done + (before + rest)[|done|..];
    assert (before + rest)[|before|..] == rest;
    assert done[..|before|] == (before + rest)[..|before|] == before;
    assert rest == done[|before|..] + (before + rest)[|done|..];
  }

  // ---------- services only under the specified configuration ----------

  predicate Configures(op: Op, n: string, desired: Apps) {
    op.SetConfig? && op.name == n && n in desired && "config" in desired[n] && op.config == desired[n]["config"]
  }

  /** Services are set right after the configuration, or as the first action on an application in fit. */
  ghost predicate ConfigFirst(ops: seq<Op>, desired: Apps, fit: set<string>) {
    forall i :: 0 <= i < |ops| ==> ConfigBefore(ops, i, desired, fit)
  }

  ghost predicate ConfigBefore(ops: seq<Op>, i: nat, desired: Apps, fit: set<string>)
    requires i < |ops|
  {
    ops[i].SetServices? ==>
      || (i > 0 && Configures(ops[i - 1], ops[i].name, desired))
      || (ops[i].name in fit && NoneOn(ops[..i], ops[i].name))
  }

  lemma ConfigAppend(a: seq<Op>, b: seq<Op>, desired: Apps, fit: set<string>)
    requires ConfigFirst(a, desired, fit) && ConfigFirst(b, desired, fit)
    requires forall i :: 0 <= i < |b| && b[i].SetServices? && b[i].name in fit ==> NoneOn(a, b[i].name)
    ensures ConfigFirst(a + b, desired, fit)
  {
    var ops := a + b;
    forall i | 0 <= i < |ops| ensures ConfigBefore(ops, i, desired, fit) {
      if i < |a| {
        assert ConfigBefore(a, i, desired, fit);
        assert ops[..i] == a[..i];
      } else {
        var j := i - |a|;
        assert ConfigBefore(b, j, desired, fit);
        assert ops[..i] == a + b[..j];
        if ops[i].SetServices? {
          NoneAppend(a, b[..j], ops[i].name);
        }
      }
    }
  }

  /** The kept applications whose configuration includes the specified one. */
  ghost function ConfiguredIn(t: Table, desired: Apps): set<string> {
    set n | n in t && n in desired && "config" in desired[n] && IsDictSubset(desired[n]["config"], t[n].config)
  }

  lemma KeptConfigures(env: Packages, t: Table, n: string, desired: Apps)
    requires n in desired && n in t
    ensures ConfigFirst(KeptOps(env, n, desired[n], ReportOf(t[n])), desired, ConfiguredIn(t, desired))
  {
    var spec, current := desired[n], ReportOf(t[n]);
    var ops := KeptOps(env, n, spec, current);
    if HasCore(spec) && PyEq(current["version"], spec["version"]) && IsDictSubset(spec["config"], current["config"]) {
      assert |ops| <= 1;
      assert ops[..0] == [];
      NoneOnNothing(n);
    } else {
      assert forall i :: 0 <= i < |ops| && ops[i].SetServices? ==> i > 0 && Configures(ops[i - 1], n, desired);
    }
  }

  lemma AddConfigures(env: Packages, n: string, desired: Apps, fit: set<string>)
    requires n in desired
    ensures ConfigFirst(AddOps(env, n, desired[n]), desired, fit)
  {
  }

  lemma {:induction false} AllKeptConfigure(env: Packages, t: Table, names: seq<string>, desired: Apps, current: Apps)
    requires forall n :: n in names ==>
      n in desired && n in t && n in current && current[n] == ReportOf(t[n]) && Reported(current[n])
    requires forall i, j :: 0 <= i < j < |names| ==> names[i] != names[j]
    ensures ConfigFirst(AllKeptOps(env, names, desired, current), desired, ConfiguredIn(t, desired))
    ensures forall i :: 0 <= i < |AllKeptOps(env, names, desired, current)| ==>
      var op := AllKeptOps(env, names, desired, current)[i]; op.Fail? || op.name in names
  {
    hide KeptOps, ConfigFirst;
    if names == [] {
      NothingConfigured(desired, ConfiguredIn(t, desired));
    } else {
      var n := names[0];
      var a, b := KeptOps(env, n, desired[n], current[n]), AllKeptOps(env, names[1..], desired, current);
      AllKeptConfigure(env, t, names[1..], desired, current);
      KeptConfigures(env, t, n, desired);
      PiecesAreOn(env, n, desired[n], current[n]);
      forall i | 0 <= i < |b| && b[i].SetServices? ensures NoneOn(a, b[i].name) {
        NoneOnOther(a, n, b[i].name);
      }
      ConfigAppend(a, b, desired, ConfiguredIn(t, desired));
    }
  }

  lemma NothingConfigured(desired: Apps, fit: set<string>)
    ensures ConfigFirst([], desired, fit)
  {
  }

  lemma {:induction false} AllAddConfigure(env: Packages, names: seq<string>, desired: Apps, fit: set<string>)
    requires forall n :: n in names ==> n in desired && n !in fit
    ensures ConfigFirst(AllAddOps(env, names, desired), desired, fit)
    ensures forall i :: 0 <= i < |AllAddOps(env, names, desired)| ==>
      var op := AllAddOps(env, names, desired)[i]; op.Fail? || op.name in names
  {
    hide AddOps, ConfigFirst;
    if names == [] {
      NothingConfigured(desired, fit);
    } else {
      var n := names[0];
      AllAddConfigure(env, names[1..], desired, fit);
      AddConfigures(env, n, desired, fit);
      PiecesAreOn(env, n, desired[n], map[]);
      ConfigAppend(AddOps(env, n, desired[n]), AllAddOps(env, names[1..], desired), desired, fit);
    }
  }

  lemma {:induction false} DeletedConfigure(names: seq<string>, desired: Apps, fit: set<string>)
    ensures ConfigFirst(AllDeleteOps(names), desired, fit)
    ensures forall i :: 0 <= i < |AllDeleteOps(names)| ==> !AllDeleteOps(names)[i].SetServices?
  {
    hide ConfigFirst;
    if names == [] {
      NothingConfigured(desired, fit);
    } else {
      DeletedConfigure(names[1..], desired, fit);
      NoServicesSet(DeleteOps(names[0]), desired, fit);
      ConfigAppend(DeleteOps(names[0]), AllDeleteOps(names[1..]), desired, fit);
    }
  }

  lemma NoServicesSet(ops: seq<Op>, desired: Apps, fit: set<string>)
    requires forall i :: 0 <= i < |ops| ==> !ops[i].SetServices?
    ensures ConfigFirst(ops, desired, fit)
  {
  }

  lemma PlanConfigures(env: Packages, t: Table, desired: Apps, nonDestructive: bool, o: Order)
    requires AllReported(CurrentConfig(t)) && OrderOf(o, CurrentConfig(t), desired)
    ensures ConfigFirst(Plan(env, CurrentConfig(t), desired, nonDestructive, o), desired, ConfiguredIn(t, desired))
  {
    hide ConfigFirst, AllDeleteOps, AllKeptOps, AllAddOps;
    var current, fit := CurrentConfig(t), ConfiguredIn(t, desired);
    var d := Deletions(nonDestructive, o);
    var k, a := AllKeptOps(env, o.kept, desired, current), AllAddOps(env, o.added, desired);
    NothingConfigured(desired, fit);
    DeletedConfigure(o.deleted, desired, fit);
    AllKeptConfigure(env, t, o.kept, desired, current);
    AllAddConfigure(env, o.added, desired, fit);
    forall i | 0 <= i < |k| && k[i].SetServices? ensures NoneOn(d, k[i].name) {
      NoneDeleted(nonDestructive, o, k[i].name);
    }
    ConfigAppend(d, k, desired, fit);
    ConfigAppend(d + k, a, desired, fit);
  }

  /** Whenever a run is about to set the services of an application, the application already has its
      specified configuration: nothing is started under an old one. */
  lemma ConfiguredBeforeStarted(env: Packages, t: Table, t': Table, desired: Apps, nonDestructive: bool, o: Order,
      done: seq<Op>, n: string, services: Json)
    requires AllReported(CurrentConfig(t)) && OrderOf(o, CurrentConfig(t), desired)
    requires done + [SetServices(n, services)] <= Plan(env, CurrentConfig(t), desired, nonDestructive, o)
    requires Run(t, done) == Some(t')
    ensures n in desired && n in t' && Configured(desired[n], t'[n])
  {
    hide AppPlan.Run, CurrentConfig;
    var plan := Plan(env, CurrentConfig(t), desired, nonDestructive, o);
    PlanConfigures(env, t, desired, nonDestructive, o);
    hide Plan;
    var i := |done|;
    assert (done + [SetServices(n, services)])[i] == plan[i] == SetServices(n, services);
    assert plan[..i] == (done + [SetServices(n, services)])[..i] == done;
    assert ConfigBefore(plan, i, desired, ConfiguredIn(t, desired));
    if i > 0 && Configures(plan[i - 1], n, desired) {
      assert plan[i - 1] == plan[..i][i - 1] == done[i - 1];
      assert done == done[..i - 1] + [done[i - 1]];
      RunAppend(t, done[..i - 1], [done[i - 1]]);
      Run1(Run(t, done[..i - 1]).value, done[i - 1]);
    } else {
      assert n in ConfiguredIn(t, desired) && NoneOn(done, n);
      Untouched(t, done, n);
    }
  }

  /** A run that is not destructive never touches an application that is not specified. */
  lemma OthersUntouched(env: Packages, t: Table, t': Table, desired: Apps, o: Order, done: seq<Op>, n: string)
    requires AllReported(CurrentConfig(t)) && OrderOf(o, CurrentConfig(t), desired)
    requires done <= Plan(env, CurrentConfig(t), desired, true, o) && Run(t, done) == Some(t')
    requires n in t && n !in desired
    ensures n in t' && t'[n] == t[n]
  {
    hide AllKeptOps, AllAddOps, NoneOn, AppPlan.Run;
    var k, a := AllKeptOps(env, o.kept, desired, CurrentConfig(t)), AllAddOps(env, o.added, desired);
    KeptOthers(env, o.kept, desired, CurrentConfig(t), n);
    AddedOthers(env, o.added, desired, n);
    NoneAppend(k, a, n);
    assert [] + k + a == k + a;
    NonePrefix(done, k + a, n);
    Untouched(t, done, n);
  }
}
