/** What a run of process_apps decides to do and what it does to the table of installed applications. */
module AppPlan {
  import opened Wrappers
  import opened Json
  import opened AppsConfig

  type Spec = map<string, Json>

  /** An installed application as the database sees it. An application that implements service states
      reports a dictionary of services, any other one a single running flag. */
  datatype AppView = AppView(version: Json, config: Json, multi: bool, services: Json)

  type Table = map<string, AppView>

  /** What process_apps learns from outside: whether a package can be located for a specification,
      the version that the located package really has, whether the application implements service
      states, and the number a rank denotes. */
  datatype Packages = Packages(
    located: Spec -> bool,
    version: (string, Spec) -> Json,
    multi: string -> bool,
    rank: Json -> Option<real>)

  // ---------- the snapshot and the specifications ----------

  function ReportOf(v: AppView): Spec {
    if v.multi then map["version" := v.version, "config" := v.config, "service_states" := v.services]
    else map["version" := v.version, "running" := v.services, "config" := v.config]
  }

  /** get_current_config */
  function CurrentConfig(t: Table): Apps {
    map n | n in t :: ReportOf(t[n])
  }

  /** The desired services of a specification, None where the code raises a KeyError. */
  function Services(name: string, spec: Spec): Option<Json> {
    if "service_states" in spec && !spec["service_states"].Null? then Some(spec["service_states"])
    else if "running" in spec then Some(Dict(map[name := spec["running"]]))
    else None
  }

  function CurrentServices(name: string, current: Spec): Option<Json> {
    if "service_states" in current then Some(current["service_states"])
    else if "running" in current then Some(Dict(map[name := current["running"]]))
    else None
  }

  predicate HasCore(spec: Spec) {
    "version" in spec && "config" in spec
  }

  /** A snapshot entry as get_current_config builds it. */
  predicate Reported(current: Spec) {
    HasCore(current) && ("service_states" in current || "running" in current)
  }

  function RankOf(env: Packages, spec: Spec): Option<real> {
    if "rank" in spec then env.rank(spec["rank"]) else Some(0.0)
  }

  // ---------- the decisions, as a probe counts them ----------

  /** The number of changes that a kept application needs, None where the code raises. */
  function KeptCount(name: string, spec: Spec, current: Spec): Option<nat>
    requires Reported(current)
  {
    if !HasCore(spec) then None
    else if !PyEq(current["version"], spec["version"]) then Some(1)
    else if Services(name, spec).None? then None
    else
      Some((if IsDictSubset(spec["config"], current["config"]) then 0 else 1)
           + (if PyEq(CurrentServices(name, current).value, Services(name, spec).value) then 0 else 1))
  }

  function KeptCounts(names: seq<string>, desired: Apps, current: Apps): Option<nat>
    requires forall n :: n in names ==> n in desired && n in current && Reported(current[n])
  {
    if names == [] then Some(0)
    else
      var first, rest := KeptCount(names[0], desired[names[0]], current[names[0]]), KeptCounts(names[1..], desired, current);
      if first.None? || rest.None? then None else Some(first.value + rest.value)
  }

  /** The order in which one call handles the names: an arbitrary one for the deletions, and a
      rank-sorted one for each of the two other groups. */
  datatype Order = Order(deleted: seq<string>, kept: seq<string>, added: seq<string>)

  ghost predicate Enumerates(names: seq<string>, s: set<string>) {
    && (forall n :: n in names <==> n in s)
    && (forall i, j :: 0 <= i < j < |names| ==> names[i] != names[j])
  }

  ghost predicate OrderOf(o: Order, current: Apps, desired: Apps) {
    && Enumerates(o.deleted, current.Keys - desired.Keys)
    && Enumerates(o.kept, current.Keys * desired.Keys)
    && Enumerates(o.added, desired.Keys - current.Keys)
  }

  ghost predicate AllReported(current: Apps) {
    forall n :: n in current ==> Reported(current[n])
  }

  /** The value of process_apps with probe_only, None where it raises. */
  ghost function Probe(current: Apps, desired: Apps, nonDestructive: bool, o: Order): Option<nat>
    requires AllReported(current) && OrderOf(o, current, desired)
  {
    var kept := KeptCounts(o.kept, desired, current);
    if kept.None? then None
    else Some((if nonDestructive then 0 else |o.deleted|) + kept.value + |o.added|)
  }

  // ---------- the actions of a real run ----------

  datatype Op =
    | Download(name: string)
    | StopServices(name: string)
    | RemovePackage(name: string)
    | InstallPackage(name: string, version: Json, multi: bool)
    | SetConfig(name: string, config: Json)
    | SetServices(name: string, services: Json)
    | Fail

  function AllOff(services: Json): Json {
    if services.Dict? then Dict(map s | s in services.fields :: Bool(false)) else services
  }

  /** set_desired_service_states: an application without service states takes exactly one service,
      named like itself. */
  predicate Fits(multi: bool, name: string, services: Json) {
    services.Dict? && (multi || services.fields.Keys == {name})
  }

  /** The effect of an action, None where it raises. */
  function Apply(t: Table, op: Op): Option<Table> {
    match op
    case Download(_) => Some(t)
    case StopServices(n) =>
      if n in t then Some(t[n := t[n].(services := if t[n].multi then AllOff(t[n].services) else Bool(false))]) else None
    case RemovePackage(n) => if n in t then Some(t - {n}) else None
    case InstallPackage(n, version, multi) =>
      if n in t then None
      else Some(t[n := AppView(version, Dict(map[]), multi, if multi then Dict(map[]) else Bool(false))])
    case SetConfig(n, config) => if n in t then Some(t[n := t[n].(config := config)]) else None
    case SetServices(n, services) =>
      if n in t && Fits(t[n].multi, n, services)
      then Some(t[n := t[n].(services := if t[n].multi then services else services.fields[n])])
      else None
    case Fail => None
  }

  /** Actions one after the other, None if one of them raises. */
  function Run(t: Table, ops: seq<Op>): Option<Table>
    decreases |ops|
  {
    if ops == [] then Some(t)
    else
      var t' := Apply(t, ops[0]);
      if t'.None? then None else Run(t'.value, ops[1..])
  }

  function DeleteOps(name: string): seq<Op> {
    [StopServices(name), RemovePackage(name)]
  }

  /** Configuration and services of a package that has just been installed. */
  function SetUpOps(name: string, spec: Spec): seq<Op>
    requires HasCore(spec)
  {
    [SetConfig(name, spec["config"]),
     if Services(name, spec).None? then Fail else SetServices(name, Services(name, spec).value)]
  }

  function UpgradeOps(env: Packages, name: string, spec: Spec): seq<Op>
    requires HasCore(spec)
  {
    [if env.located(spec) then Download(name) else Fail, StopServices(name), RemovePackage(name),
     InstallPackage(name, env.version(name, spec), env.multi(name))] + SetUpOps(name, spec)
  }

  function AddOps(env: Packages, name: string, spec: Spec): seq<Op> {
    if !HasCore(spec) then [Fail]
    else
      [if env.located(spec) then Download(name) else Fail,
       InstallPackage(name, env.version(name, spec), env.multi(name))] + SetUpOps(name, spec)
  }

  function AdjustOps(name: string, spec: Spec, current: Spec): seq<Op>
    requires HasCore(spec) && Reported(current)
  {
    (if IsDictSubset(spec["config"], current["config"]) then [] else [SetConfig(name, spec["config"])])
    + (if Services(name, spec).None? then [Fail]
       else if PyEq(CurrentServices(name, current).value, Services(name, spec).value) then []
       else [SetServices(name, Services(name, spec).value)])
  }

  function KeptOps(env: Packages, name: string, spec: Spec, current: Spec): seq<Op>
    requires Reported(current)
  {
    if !HasCore(spec) then [Fail]
    else if !PyEq(current["version"], spec["version"]) then UpgradeOps(env, name, spec)
    else AdjustOps(name, spec, current)
  }

  function AllDeleteOps(names: seq<string>): seq<Op> {
    if names == [] then [] else DeleteOps(names[0]) + AllDeleteOps(names[1..])
  }

  function AllKeptOps(env: Packages, names: seq<string>, desired: Apps, current: Apps): seq<Op>
    requires forall n :: n in names ==> n in desired && n in current && Reported(current[n])
  {
    if names == [] then []
    else KeptOps(env, names[0], desired[names[0]], current[names[0]]) + AllKeptOps(env, names[1..], desired, current)
  }

  function AllAddOps(env: Packages, names: seq<string>, desired: Apps): seq<Op>
    requires forall n :: n in names ==> n in desired
  {
    if names == [] then [] else AddOps(env, names[0], desired[names[0]]) + AllAddOps(env, names[1..], desired)
  }

  /** Everything a real run does, in order: all deletions, then the kept applications, then the new. */
  ghost function Plan(env: Packages, current: Apps, desired: Apps, nonDestructive: bool, o: Order): seq<Op>
    requires AllReported(current) && OrderOf(o, current, desired)
  {
    (if nonDestructive then [] else AllDeleteOps(o.deleted))
    + AllKeptOps(env, o.kept, desired, current)
    + AllAddOps(env, o.added, desired)
  }

  lemma SnapshotReported(t: Table)
    ensures AllReported(CurrentConfig(t))
  {
  }
}
