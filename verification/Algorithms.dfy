/** process_apps and get_app_ordering (algorithms.py). */
module Algorithms {
  import opened Wrappers
  import opened Json
  import opened AppsConfig
  import opened AppPlan
  import opened AppConvergence
  import opened MockApps

  predicate HasRank(env: Packages, config: Apps, name: string) {
    name in config && RankOf(env, config[name]).Some?
  }

  function Rank(env: Packages, config: Apps, name: string): real
    requires HasRank(env, config, name)
  {
    RankOf(env, config[name]).value
  }

  predicate RankSorted(env: Packages, config: Apps, names: seq<string>) {
    && (forall n :: n in names ==> HasRank(env, config, n))
    && (forall i, j :: 0 <= i < j < |names| ==> Rank(env, config, names[i]) <= Rank(env, config, names[j]))
  }

  ghost predicate Distinct(names: seq<string>) {
    forall i, j :: 0 <= i < j < |names| ==> names[i] != names[j]
  }

  /** Insertion after all names of the same or a lower rank. */
  function InsertByRank(env: Packages, config: Apps, name: string, names: seq<string>): (r: seq<string>)
    requires HasRank(env, config, name) && forall n :: n in names ==> HasRank(env, config, n)
    ensures forall n :: n in r <==> n in names || n == name
  {
    if names == [] then [name]
    else if Rank(env, config, name) < Rank(env, config, names[0]) then [name] + names
    else [names[0]] + InsertByRank(env, config, name, names[1..])
  }

  lemma {:induction false} InsertKeepsOrder(env: Packages, config: Apps, name: string, names: seq<string>)
    requires HasRank(env, config, name) && RankSorted(env, config, names)
    requires name !in names && Distinct(names)
    ensures var r := InsertByRank(env, config, name, names); RankSorted(env, config, r) && Distinct(r)
  {
    if names != [] && Rank(env, config, names[0]) <= Rank(env, config, name) {
      InsertKeepsOrder(env, config, name, names[1..]);
      var rest := InsertByRank(env, config, name, names[1..]);
      forall i | 0 <= i < |rest| ensures Rank(env, config, names[0]) <= Rank(env, config, rest[i]) && names[0] != rest[i] {
        assert rest[i] in rest;
      }
    }
  }

  /** get_app_ordering: the names in the order of their ranks, None if a rank is not a number. */
  method GetAppOrdering(env: Packages, names: set<string>, config: Apps) returns (r: Option<seq<string>>)
    requires names <= config.Keys
    ensures r.Some? <==> forall n :: n in names ==> HasRank(env, config, n)
    ensures r.Some? ==> Enumerates(r.value, names) && RankSorted(env, config, r.value)
  {
    var todo, ordered := names, [];
    while todo != {}
      invariant todo <= names
      invariant forall n :: n in ordered <==> n in names - todo
      invariant RankSorted(env, config, ordered) && Distinct(ordered)
      decreases todo
    {
      var n :| n in todo;
      if RankOf(env, config[n]).None? {
        return None;
      }
      InsertKeepsOrder(env, config, n, ordered);
      ordered := InsertByRank(env, config, n, ordered);
      todo := todo - {n};
    }
    return Some(ordered);
  }

  /** In particular, an application without a rank comes after the negative ranks and before the positive ones. */
  lemma RanksInOrder(env: Packages, config: Apps, names: seq<string>)
    requires RankSorted(env, config, names)
    ensures forall i, j :: 0 <= i < j < |names| ==>
      && names[i] in config && names[j] in config
      && var a, b := config[names[i]], config[names[j]];
         var first := if "rank" in a then env.rank(a["rank"]) else Some(0.0);
         var second := if "rank" in b then env.rank(b["rank"]) else Some(0.0);
         first.Some? && second.Some? && first.value <= second.value
  {
    assert forall i :: 0 <= i < |names| ==> names[i] in names;
  }

  /** A set in the arbitrary order in which Python iterates over it. */
  method Listing(names: set<string>) returns (r: seq<string>)
    ensures Enumerates(r, names)
  {
    var todo := names;
    r := [];
    while todo != {}
      invariant todo <= names
      invariant forall n :: n in r <==> n in names - todo
      invariant Distinct(r)
      decreases todo
    {
      var n :| n in todo;
      r := r + [n];
      todo := todo - {n};
    }
  }

  /** The installed applications of a snapshot, None if the snapshot is stale. */
  method MakeApps(db: AppDb, current: Apps) returns (installed: Option<map<string, App>>)
    requires db.Valid() && AllReported(current)
    ensures installed.Some? ==> installed.value.Keys == current.Keys <= db.apps.Keys
    ensures installed.Some? ==> forall n :: n in current ==>
      installed.value[n] == db.apps[n] && PyEq(installed.value[n].version, current[n]["version"])
    ensures current == CurrentConfig(db.Contents()) ==> installed.Some?
  {
    var made: map<string, App> := map[];
    var todo := current.Keys;
    while todo != {}
      invariant todo <= current.Keys && made.Keys == current.Keys - todo <= db.apps.Keys
      invariant forall n :: n in made ==> made[n] == db.apps[n] && PyEq(made[n].version, current[n]["version"])
      decreases todo
    {
      var n :| n in todo;
      var app := db.MakeApp(n, current[n]["version"]);
      if n in db.apps {
        PyEqReflexive(db.apps[n].version);
      }
      if app.None? {
        return None;
      }
      made := made[n := app.value];
      todo := todo - {n};
    }
    return Some(made);
  }

  /** The applications that installed holds for the names from i on are the ones in the database. */
  ghost predicate Current(apps: map<string, App>, installed: map<string, App>, names: seq<string>, i: nat) {
    forall j :: i <= j < |names| ==>
      names[j] in installed && names[j] in apps && installed[names[j]] == apps[names[j]]
  }

  lemma CurrentAfterStep(before: map<string, App>, after: map<string, App>, installed: map<string, App>,
      names: seq<string>, i: nat)
    requires Distinct(names) && i < |names| && Current(before, installed, names, i)
    requires AppDb.SameApart(before, after, names[i])
    ensures Current(after, installed, names, i + 1)
  {
  }

  /** Every application in the database was there before, or is new. */
  twostate predicate OldOrFresh(db: AppDb)
    reads db
  {
    forall n :: n in db.apps ==> db.apps[n] in old(db.apps.Values) || fresh(db.apps[n])
  }

  /** Only these names may have changed in the table. */
  ghost predicate SameOutside(before: map<string, App>, after: map<string, App>, names: seq<string>) {
    forall n :: n !in names ==> (n in before <==> n in after) && (n in before ==> after[n] == before[n])
  }

  lemma NothingDoneYet(t: Table, apps: map<string, App>, names: seq<string>)
    ensures AppPlan.Run(t, []) == Some(t) && SameOutside(apps, apps, names)
  {
  }

  lemma SameOutsideStep(before: map<string, App>, mid: map<string, App>, after: map<string, App>, names: seq<string>,
      i: nat)
    requires i < |names| && SameOutside(before, mid, names) && AppDb.SameApart(mid, after, names[i])
    ensures SameOutside(before, after, names)
  {
    assert names[i] in names;
  }

  /** One more group of actions has been carried out, or a part of it when the step raised. */
  lemma Progress(t: Table, all: seq<Op>, ops: seq<Op>, step: seq<Op>, done: seq<Op>, rest: seq<Op>, t': Table)
    requires AppPlan.Run(t, ops).Some? && AppPlan.Run(AppPlan.Run(t, ops).value, done) == Some(t')
    requires all == ops + (step + rest) && done <= step
    ensures AppPlan.Run(t, ops + done) == Some(t')
    ensures ops + done <= all
    ensures done == step ==> all == (ops + done) + rest
  {
    hide AppPlan.Run;
    RunAppend(t, ops, done);
  }

  /** The deletion loop. */
  method DeleteApps(db: AppDb, installed: map<string, App>, names: seq<string>, probeOnly: bool)
      returns (raised: bool, changes: nat, ghost ops: seq<Op>)
    requires db.Valid() && Distinct(names) && Current(db.apps, installed, names, 0)
    modifies db, db.apps.Values
    ensures db.Valid() && OldOrFresh(db) && SameOutside(old(db.apps), db.apps, names)
    ensures AppPlan.Run(old(db.Contents()), ops) == Some(db.Contents())
    ensures ops <= AllDeleteOps(names)
    ensures probeOnly ==> ops == [] && !raised
    ensures !raised && !probeOnly ==> ops == AllDeleteOps(names)
    ensures !raised ==> changes == |names|
  {
    raised, changes, ops := false, 0, [];
    ghost var t := db.Contents();
    for i := 0 to |names|
      invariant db.Valid() && OldOrFresh(db) && SameOutside(old(db.apps), db.apps, names)
      invariant Current(db.apps, installed, names, i)
      invariant changes == i && !raised
      invariant AppPlan.Run(t, ops) == Some(db.Contents())
      invariant if probeOnly then ops == [] else AllDeleteOps(names) == ops + AllDeleteOps(names[i..])
    {
      if !probeOnly {
        assert names[i..][1..] == names[i + 1..];
        ghost var apps := db.apps;
        ghost var done;
        raised, done := db.Uninstall(installed[names[i]]);
        CurrentAfterStep(apps, db.apps, installed, names, i);
        SameOutsideStep(old(db.apps), apps, db.apps, names, i);
        Progress(t, AllDeleteOps(names), ops, DeleteOps(names[i]), done, AllDeleteOps(names[i + 1..]), db.Contents());
        ops := ops + done;
        if raised {
          return;
        }
      }
      changes := changes + 1;
    }
  }

  /** One application that is both installed and specified. */
  method KeepApp(env: Packages, db: AppDb, app: App, spec: Spec, current: Spec, probeOnly: bool)
      returns (raised: bool, changes: nat, ghost ops: seq<Op>)
    requires db.Valid() && app in db.apps.Values && Reported(current) && PyEq(app.version, current["version"])
    modifies db, app
    ensures db.Valid() && AppDb.SameApart(old(db.apps), db.apps, app.name)
    ensures app.name in db.apps ==> db.apps[app.name] == app || fresh(db.apps[app.name])
    ensures AppPlan.Run(old(db.Contents()), ops) == Some(db.Contents())
    ensures ops <= KeptOps(env, app.name, spec, current)
    ensures probeOnly ==> ops == [] && (raised <==> KeptCount(app.name, spec, current).None?)
    ensures !raised ==> KeptCount(app.name, spec, current) == Some(changes)
    ensures !raised && !probeOnly ==> ops == KeptOps(env, app.name, spec, current)
  {
    changes, ops := 0, [];
    if !HasCore(spec) {
      return true, changes, ops;
    }
    PyEqReplace(app.version, current["version"], spec["version"]);
    if !PyEq(app.version, spec["version"]) {
      raised := false;
      if !probeOnly {
        raised, ops := db.Upgrade(env, app, spec);
      }
      changes := 1;
    } else {
      raised, changes, ops := db.Adjust(app, spec, current, probeOnly);
    }
  }

  /** The changes counted so far and those still to be counted make up the whole, and so do the actions. */
  ghost predicate KeptSplit(env: Packages, names: seq<string>, desired: Apps, current: Apps, probeOnly: bool,
                            i: nat, changes: nat, ops: seq<Op>)
    requires i <= |names| && Specified(names, desired, current)
  {
    && (var all, rest := KeptCounts(names, desired, current), KeptCounts(names[i..], desired, current);
        if rest.None? then all.None? else all == Some(changes + rest.value))
    && (if probeOnly then ops == []
        else AllKeptOps(env, names, desired, current) == ops + AllKeptOps(env, names[i..], desired, current))
  }

  ghost predicate Specified(names: seq<string>, desired: Apps, current: Apps) {
    forall n :: n in names ==> n in desired && n in current && Reported(current[n])
  }

  lemma KeptProgress(env: Packages, names: seq<string>, desired: Apps, current: Apps, probeOnly: bool,
                     i: nat, changes: nat, ops: seq<Op>, more: nat, done: seq<Op>, raised: bool)
    requires i < |names| && Specified(names, desired, current)
    requires KeptSplit(env, names, desired, current, probeOnly, i, changes, ops)
    requires var n := names[i];
      && done <= KeptOps(env, n, desired[n], current[n])
      && (probeOnly ==> done == [] && (raised <==> KeptCount(n, desired[n], current[n]).None?))
      && (!raised ==> KeptCount(n, desired[n], current[n]) == Some(more))
      && (!raised && !probeOnly ==> done == KeptOps(env, n, desired[n], current[n]))
    ensures ops + done <= AllKeptOps(env, names, desired, current)
    ensures !raised ==> KeptSplit(env, names, desired, current, probeOnly, i + 1, changes + more, ops + done)
    ensures probeOnly ==> ops + done == [] && (raised ==> KeptCounts(names, desired, current).None?)
  {
    hide KeptOps, KeptCount;
    var n := names[i];
    var step, rest := KeptOps(env, n, desired[n], current[n]), AllKeptOps(env, names[i + 1..], desired, current);
    assert names[i..][1..] == names[i + 1..];
    assert AllKeptOps(env, names[i..], desired, current) == step + rest;
    if !probeOnly && !raised {
      assert (ops + done) + rest == ops + (done + rest);
    }
  }

  lemma KeptEnds(env: Packages, names: seq<string>, desired: Apps, current: Apps, probeOnly: bool, changes: nat,
      ops: seq<Op>)
    requires Specified(names, desired, current)
    ensures KeptSplit(env, names, desired, current, probeOnly, 0, 0, [])
    ensures KeptSplit(env, names, desired, current, probeOnly, |names|, changes, ops) ==>
      && KeptCounts(names, desired, current) == Some(changes)
      && ops == if probeOnly then [] else AllKeptOps(env, names, desired, current)
  {
    hide KeptOps, KeptCount;
    assert names[0..] == names && names[|names|..] == [];
  }

  /** The loop over the applications that are both installed and specified. */
  method KeepApps(env: Packages, db: AppDb, installed: map<string, App>, names: seq<string>, desired: Apps,
      current: Apps, probeOnly: bool)
      returns (raised: bool, changes: nat, ghost ops: seq<Op>)
    requires db.Valid() && Distinct(names) && Current(db.apps, installed, names, 0) && Specified(names, desired, current)
    requires forall j :: 0 <= j < |names| ==> PyEq(installed[names[j]].version, current[names[j]]["version"])
    modifies db, db.apps.Values
    ensures db.Valid() && OldOrFresh(db) && SameOutside(old(db.apps), db.apps, names)
    ensures AppPlan.Run(old(db.Contents()), ops) == Some(db.Contents())
    ensures ops <= AllKeptOps(env, names, desired, current)
    ensures probeOnly ==> ops == [] && (raised <==> KeptCounts(names, desired, current).None?)
    ensures !raised && !probeOnly ==> ops == AllKeptOps(env, names, desired, current)
    ensures !raised ==> KeptCounts(names, desired, current) == Some(changes)
  {
    hide KeptOps, KeptCount, AllKeptOps, KeptCounts, KeptSplit, AppPlan.Run, SameOutside, AppDb.SameApart;
    hide PyEq, Distinct, AppDb.Contents, Reported;
    raised, changes, ops := false, 0, [];
    ghost var t := db.Contents();
    KeptEnds(env, names, desired, current, probeOnly, 0, []);
    NothingDoneYet(t, db.apps, names);
    for i := 0 to |names|
      invariant db.Valid() && OldOrFresh(db) && SameOutside(old(db.apps), db.apps, names)
      invariant Current(db.apps, installed, names, i)
      invariant !raised && KeptSplit(env, names, desired, current, probeOnly, i, changes, ops)
      invariant AppPlan.Run(t, ops) == Some(db.Contents())
    {
      var n := names[i];
      ghost var apps, before := db.apps, ops;
      ghost var done;
      var more;
      raised, more, done := KeepApp(env, db, installed[n], desired[n], current[n], probeOnly);
      CurrentAfterStep(apps, db.apps, installed, names, i);
      SameOutsideStep(old(db.apps), apps, db.apps, names, i);
      KeptProgress(env, names, desired, current, probeOnly, i, changes, ops, more, done, raised);
      RunAppend(t, ops, done);
      ops := ops + done;
      if raised {
        return;
      }
      changes := changes + more;
    }
    KeptEnds(env, names, desired, current, probeOnly, changes, ops);
  }

  /** The installation loop. */
  method AddApps(env: Packages, db: AppDb, names: seq<string>, desired: Apps, probeOnly: bool)
      returns (raised: bool, changes: nat, ghost ops: seq<Op>)
    requires db.Valid() && forall n :: n in names ==> n in desired
    modifies db, db.apps.Values
    ensures db.Valid() && OldOrFresh(db)
    ensures AppPlan.Run(old(db.Contents()), ops) == Some(db.Contents())
    ensures ops <= AllAddOps(env, names, desired)
    ensures probeOnly ==> ops == [] && !raised
    ensures !raised && !probeOnly ==> ops == AllAddOps(env, names, desired)
    ensures !raised ==> changes == |names|
  {
    hide AppPlan.Run, AddOps;
    raised, changes, ops := false, 0, [];
    ghost var t := db.Contents();
    NothingDoneYet(t, db.apps, names);
    for i := 0 to |names|
      invariant db.Valid() && OldOrFresh(db)
      invariant changes == i && !raised
      invariant AppPlan.Run(t, ops) == Some(db.Contents())
      invariant if probeOnly then ops == [] else AllAddOps(env, names, desired) == ops + AllAddOps(env, names[i..], desired)
    {
      if !probeOnly {
        var n := names[i];
        assert names[i..][1..] == names[i + 1..];
        ghost var done;
        raised, done := db.Add(env, n, desired[n]);
        Progress(t, AllAddOps(env, names, desired), ops, AddOps(env, n, desired[n]), done,
                 AllAddOps(env, names[i + 1..], desired), db.Contents());
        ops := ops + done;
        if raised {
          return;
        }
      }
      changes := changes + 1;
    }
  }

  /** process_apps with a current configuration at hand. The caller learns whether it raised, and the
      number of changes if it did not. Ghost results: the order in which the names were handled, and the
      actions that were carried out before it returned or raised. */
  method ProcessApps(env: Packages, db: AppDb, current: Apps, desired: Apps, nonDestructive: bool, probeOnly: bool)
      returns (raised: bool, changes: nat, ghost o: Order, ghost ops: seq<Op>)
    requires db.Valid() && AllReported(current)
    modifies db, db.apps.Values
    ensures db.Valid() && OldOrFresh(db)
    ensures OrderOf(o, current, desired)
    ensures AppPlan.Run(old(db.Contents()), ops) == Some(db.Contents())
    ensures ops <= Plan(env, current, desired, nonDestructive, o)
    ensures probeOnly ==> ops == []
    ensures !raised || ops != [] ==> RankSorted(env, desired, o.kept) && RankSorted(env, desired, o.added)
    ensures !raised ==> Probe(current, desired, nonDestructive, o) == Some(changes)
    ensures !raised && !probeOnly ==> ops == Plan(env, current, desired, nonDestructive, o)
    ensures probeOnly && current == CurrentConfig(old(db.Contents())) ==>
      (raised <==> (exists n :: n in desired && !HasRank(env, desired, n)) || Probe(current, desired, nonDestructive, o).None?)
  {
    hide Plan, Probe, RankSorted, AppPlan.Run, Enumerates, ReportOf, HasRank;
    ghost var t := db.Contents();
    NothingDoneYet(t, db.apps, []);
    changes, ops := 0, [];
    var order, installed := Prepare(env, db, current, desired);
    o := order;
    if installed.None? {
      assert db.Contents() == t;
      return true, changes, o, ops;
    }
    raised, changes, ops := Converge(env, db, installed.value, current, desired, nonDestructive, probeOnly, order);
  }

  /** What comes before the loops: the applications of the snapshot, and the two orderings. */
  method Prepare(env: Packages, db: AppDb, current: Apps, desired: Apps)
    returns (o: Order, installed: Option<map<string, App>>)
    requires db.Valid() && AllReported(current)
    ensures OrderOf(o, current, desired)
    ensures installed.Some? ==> RankSorted(env, desired, o.kept) && RankSorted(env, desired, o.added)
    ensures installed.Some? ==> installed.value.Keys == current.Keys <= db.apps.Keys
    ensures installed.Some? ==> forall n :: n in current ==>
      installed.value[n] == db.apps[n] && PyEq(installed.value[n].version, current[n]["version"])
    ensures current == CurrentConfig(db.Contents()) ==>
      (installed.None? <==> exists n :: n in desired && !HasRank(env, desired, n))
    ensures installed.Some? ==> forall n :: n in desired ==> HasRank(env, desired, n)
  {
    var deletedNames := Listing(current.Keys - desired.Keys);
    var keptNames := Listing(current.Keys * desired.Keys);
    var addedNames := Listing(desired.Keys - current.Keys);
    o := Order(deletedNames, keptNames, addedNames);
    installed := MakeApps(db, current);
    if installed.None? {
      return;
    }
    var added := GetAppOrdering(env, desired.Keys - current.Keys, desired);
    if added.None? {
      return o, None;
    }
    var kept := GetAppOrdering(env, current.Keys * desired.Keys, desired);
    if kept.None? {
      return o, None;
    }
    o := Order(deletedNames, kept.value, added.value);
  }

  lemma AllCurrent(apps: map<string, App>, installed: map<string, App>, names: seq<string>, s: set<string>)
    requires Enumerates(names, s) && s <= installed.Keys && s <= apps.Keys
    requires forall n :: n in s ==> installed[n] == apps[n]
    ensures Current(apps, installed, names, 0)
    ensures forall j :: 0 <= j < |names| ==> names[j] in s
  {
    assert forall j :: 0 <= j < |names| ==> names[j] in names;
  }

  lemma KeptUntouched(before: map<string, App>, after: map<string, App>, installed: map<string, App>, current: Apps,
      desired: Apps, o: Order)
    requires OrderOf(o, current, desired) && SameOutside(before, after, o.deleted)
    requires current.Keys <= installed.Keys && current.Keys <= before.Keys
    requires forall n :: n in current ==> installed[n] == before[n]
    ensures Current(after, installed, o.kept, 0)
    ensures forall j :: 0 <= j < |o.kept| ==> o.kept[j] in current
  {
    forall n | n in o.kept ensures n in after && installed[n] == after[n] {
      assert n in current && n !in o.deleted;
    }
    AllCurrent(after, installed, o.kept, current.Keys * desired.Keys);
  }

  lemma OrderFacts(o: Order, current: Apps, desired: Apps)
    requires OrderOf(o, current, desired) && AllReported(current)
    ensures Distinct(o.deleted) && Distinct(o.kept) && Distinct(o.added)
    ensures Specified(o.kept, desired, current) && forall n :: n in o.added ==> n in desired
  {
  }

  /** The second and the third loop. */
  method KeepAndAdd(env: Packages, db: AppDb, installed: map<string, App>, kept: seq<string>, added: seq<string>,
                    desired: Apps, current: Apps, probeOnly: bool)
      returns (raised: bool, changes: nat, ghost ops: seq<Op>)
    requires db.Valid() && Distinct(kept) && Current(db.apps, installed, kept, 0) && Specified(kept, desired, current)
    requires forall j :: 0 <= j < |kept| ==> PyEq(installed[kept[j]].version, current[kept[j]]["version"])
    requires forall n :: n in added ==> n in desired
    modifies db, db.apps.Values
    ensures db.Valid() && OldOrFresh(db)
    ensures AppPlan.Run(old(db.Contents()), ops) == Some(db.Contents())
    ensures var all := AllKeptOps(env, kept, desired, current) + AllAddOps(env, added, desired);
      ops <= all && (!raised && !probeOnly ==> ops == all)
    ensures probeOnly ==> ops == [] && (raised <==> KeptCounts(kept, desired, current).None?)
    ensures !raised ==> KeptCounts(kept, desired, current).Some? && changes == KeptCounts(kept, desired, current).value + |added|
  {
    hide AllKeptOps, AllAddOps, KeptCounts, AppPlan.Run, SameOutside, Current, Specified, Reported;
    ghost var t := db.Contents();
    raised, changes, ops := KeepApps(env, db, installed, kept, desired, current, probeOnly);
    if !raised {
      var more;
      ghost var a;
      raised, more, a := AddApps(env, db, added, desired, probeOnly);
      RunAppend(t, ops, a);
      ops := ops + a;
      changes := changes + more;
    }
  }

  /** The three loops. */
  method Converge(env: Packages, db: AppDb, installed: map<string, App>, current: Apps, desired: Apps,
                  nonDestructive: bool, probeOnly: bool, o: Order)
      returns (raised: bool, changes: nat, ghost ops: seq<Op>)
    requires db.Valid() && AllReported(current) && OrderOf(o, current, desired)
    requires installed.Keys == current.Keys <= db.apps.Keys
    requires forall n :: n in current ==> installed[n] == db.apps[n] && PyEq(installed[n].version, current[n]["version"])
    modifies db, db.apps.Values
    ensures db.Valid() && OldOrFresh(db)
    ensures AppPlan.Run(old(db.Contents()), ops) == Some(db.Contents())
    ensures ops <= Plan(env, current, desired, nonDestructive, o)
    ensures probeOnly ==> ops == [] && (raised <==> Probe(current, desired, nonDestructive, o).None?)
    ensures !raised ==> Probe(current, desired, nonDestructive, o) == Some(changes)
    ensures !raised && !probeOnly ==> ops == Plan(env, current, desired, nonDestructive, o)
  {
    hide CurrentConfig, KeptCount, Plan, Distinct, PyEq, Reported, AppDb.Contents;
    hide AllDeleteOps, AllKeptOps, AllAddOps, KeptCounts, AppPlan.Run, Enumerates, SameOutside, Current, Specified, AllReported;
    raised, changes, ops := false, 0, [];
    ghost var t, apps := db.Contents(), db.apps;
    OrderFacts(o, current, desired);
    NothingDoneYet(t, db.apps, o.deleted);
    AllCurrent(db.apps, installed, o.deleted, current.Keys - desired.Keys);
    if !nonDestructive {
      raised, changes, ops := DeleteApps(db, installed, o.deleted, probeOnly);
    }
    PlanParts(env, current, desired, nonDestructive, o);
    if !raised {
      KeptUntouched(apps, db.apps, installed, current, desired, o);
      var more;
      ghost var rest;
      raised, more, rest := KeepAndAdd(env, db, installed, o.kept, o.added, desired, current, probeOnly);
      RunAppend(t, ops, rest);
      ops := ops + rest;
      changes := changes + more;
    }
  }

  lemma PlanParts(env: Packages, current: Apps, desired: Apps, nonDestructive: bool, o: Order)
    requires AllReported(current) && OrderOf(o, current, desired)
    ensures Plan(env, current, desired, nonDestructive, o) == (if nonDestructive then [] else AllDeleteOps(o.deleted)) +
      (AllKeptOps(env, o.kept, desired, current) + AllAddOps(env, o.added, desired))
  {
    hide AllDeleteOps, AllKeptOps, AllAddOps, Enumerates, AllReported;
  }
}
