/** Role events from Consul (consul_roles.py) on top of the table of role versions. */
module ConsulRoles {
  import opened Wrappers
  import opened Json
  import opened RoleVersions

  /** Flattened configuration parameters, section.parameter to value. */
  type Parameters = map<string, string>

  /** Whether a role specification renders with these parameters. */
  type Validator = (Parameters, Json) -> bool

  /** A role configuration document that arrived, or is kept for later. */
  datatype Document = Document(name: string, version: string, details: Json)

  /** active: for a role, the document of the version that Consul called the active one. */
  datatype Registry = Registry(roles: Roles, params: Parameters, active: map<string, Document>, pending: set<Document>)

  const EMPTY := Registry(map[], map[], map[], {})

  // ---------- what one event does ----------

  function Recorded(active: map<string, Document>, d: Document, fetched: Option<string>): map<string, Document> {
    if fetched == Some(d.version) && d.version != "" then active[d.name := d] else active
  }

  /** _on_config_change: fetched is the active version that Consul names, if it could be read. */
  function ConfigChange(valid: Validator, r: Registry, d: Document, fetched: Option<string>): Registry {
    var r1 := r.(active := Recorded(r.active, d, fetched));
    if !valid(r.params, d.details) then r1.(pending := r1.pending + {d})
    else
      var r2 := r1.(roles := Save(r1.roles, d.name, d.version, d.details));
      if d.name in r2.active && r2.active[d.name].version != d.version then
        var a := r2.active[d.name];
        if valid(r.params, a.details) then r2.(roles := Save(r2.roles, d.name, a.version, a.details))
        else r2.(pending := r2.pending + {d})
      else r2
  }

  /** The first part of _on_params_change: the parameter is set, and all pending documents are taken out. */
  function ParamSet(r: Registry, key: string, value: string): Registry {
    r.(params := r.params[key := value], pending := {})
  }

  datatype Input =
    | SaveRole(document: Document)
    | Activate(name: string, version: string)
    | Config(document: Document, fetched: Option<string>)
    | Param(key: string, value: string)

  function Step(valid: Validator, r: Registry, input: Input): Registry {
    match input
    case SaveRole(d) => if valid(r.params, d.details) then r.(roles := Save(r.roles, d.name, d.version, d.details)) else r
    case Activate(n, v) => if HasVersion(r.roles, n, v) then r.(roles := MarkActive(r.roles, n, v)) else r
    case Config(d, fetched) => ConfigChange(valid, r, d, fetched)
    case Param(key, value) => ParamSet(r, key, value)
  }

  function After(valid: Validator, r: Registry, inputs: seq<Input>): Registry {
    if inputs == [] then r
    else Step(valid, After(valid, r, inputs[..|inputs| - 1]), inputs[|inputs| - 1])
  }

  /** The configuration documents among the inputs. */
  function DocumentsOf(inputs: seq<Input>): set<Document> {
    if inputs == [] then {}
    else
      var last := inputs[|inputs| - 1];
      DocumentsOf(inputs[..|inputs| - 1]) + if last.Config? then {last.document} else {}
  }

  class Watcher {
    const db: RoleDb
    const valid: Validator
    var params: Parameters
    var active: map<string, Document>
    var pending: set<Document>

    constructor (db: RoleDb, valid: Validator, params: Parameters)
      ensures this.db == db && this.valid == valid
      ensures State() == Registry(db.roles, params, map[], {})
    {
      this.db, this.valid, this.params := db, valid, params;
      active, pending := map[], {};
    }

    ghost function State(): Registry
      reads this, db
    {
      Registry(db.roles, params, active, pending)
    }

    /** kv_get of the active version, which may fail or find nothing. */
    method FetchActive() returns (fetched: Option<string>)
    {
      var fails, version := *, *;
      fetched := if fails then None else Some(version);
    }

    /** _on_config_change */
    method OnConfigChange(d: Document) returns (ghost fetched: Option<string>)
      modifies this, db
      ensures State() == ConfigChange(valid, old(State()), d, fetched)
    {
      var version := FetchActive();
      fetched := version;
      if version == Some(d.version) && d.version != "" {
        active := active[d.name := d];
      }
      var keyError := db.SaveRoleInDb(d.name, d.version, d.details, valid(params, d.details));
      if !keyError && d.name in active && active[d.name].version != d.version {
        var a := active[d.name];
        keyError := db.SaveRoleInDb(d.name, a.version, a.details, valid(params, a.details));
      }
      if keyError {
        pending := pending + {d};
      }
    }

    /** _on_params_change: every pending document is tried again, in an arbitrary order. */
    method OnParamsChange(name: string, param: string, value: string) returns (ghost replay: seq<Input>)
      modifies this, db
      ensures State() == After(valid, ParamSet(old(State()), name + "." + param, value), replay)
      ensures forall i :: 0 <= i < |replay| ==> replay[i].Config?
      ensures DocumentsOf(replay) == old(pending)
      ensures |replay| == |old(pending)|
    {
      params := params[name + "." + param := value];
      var todo := pending;
      pending := {};
      replay := [];
      ghost var start := State();
      while todo != {}
        invariant todo <= old(pending)
        invariant State() == After(valid, start, replay)
        invariant forall i :: 0 <= i < |replay| ==> replay[i].Config?
        invariant DocumentsOf(replay) == old(pending) - todo
        invariant |replay| == |old(pending)| - |todo|
        decreases todo
      {
        var d :| d in todo;
        todo := todo - {d};
        ghost var before := replay;
        ghost var fetched := OnConfigChange(d);
        replay := before + [Config(d, fetched)];
        assert replay[..|replay| - 1] == before;
      }
    }
  }

  // ---------- exactly one active version, always ----------

  /** Keys tell these roles and versions apart. */
  ghost predicate DistinctIds(known: set<(string, string)>) {
    forall a, b :: a in known && b in known && RoleId(a.0, a.1) == RoleId(b.0, b.1) ==> a == b
  }

  ghost predicate Within(r: Registry, known: set<(string, string)>) {
    && (forall id :: id in r.roles ==> (r.roles[id].name, r.roles[id].version) in known)
    && (forall n :: n in r.active ==> r.active[n].name == n && (n, r.active[n].version) in known)
  }

  ghost predicate InputWithin(input: Input, known: set<(string, string)>) {
    match input
    case SaveRole(d) => (d.name, d.version) in known
    case Config(d, _) => (d.name, d.version) in known
    case _ => true
  }

  ghost predicate Sound(r: Registry, known: set<(string, string)>) {
    Keyed(r.roles) && OneActive(r.roles) && Within(r, known)
  }

  lemma SaveSound(r: Registry, known: set<(string, string)>, d: Document)
    requires DistinctIds(known) && Sound(r, known) && (d.name, d.version) in known
    ensures Sound(r.(roles := Save(r.roles, d.name, d.version, d.details)), known)
    ensures ActiveIs(Save(r.roles, d.name, d.version, d.details), d.name, d.version)
    ensures forall other, w :: other != d.name ==>
      (ActiveIs(Save(r.roles, d.name, d.version, d.details), other, w) <==> ActiveIs(r.roles, other, w))
  {
    hide ActiveIs;
    var key := RoleId(d.name, d.version);
    if key in r.roles {
      assert (r.roles[key].name, r.roles[key].version) in known;
      assert r.roles[key].name == d.name;
    }
    SaveActivates(r.roles, d.name, d.version, d.details);
    SaveKeepsOneActive(r.roles, d.name, d.version, d.details);
    forall other, w | other != d.name
      ensures ActiveIs(Save(r.roles, d.name, d.version, d.details), other, w) <==> ActiveIs(r.roles, other, w)
    {
      SaveLeavesOthers(r.roles, d.name, d.version, d.details, other, w);
    }
  }

  lemma ConfigSound(valid: Validator, r: Registry, known: set<(string, string)>, d: Document, fetched: Option<string>)
    requires DistinctIds(known) && Sound(r, known) && (d.name, d.version) in known
    ensures Sound(ConfigChange(valid, r, d, fetched), known)
  {
    hide Save, OneActive, ActiveIs, Keyed;
    var r1 := r.(active := Recorded(r.active, d, fetched));
    if valid(r.params, d.details) {
      SaveSound(r1, known, d);
      var r2 := r1.(roles := Save(r1.roles, d.name, d.version, d.details));
      if d.name in r2.active && r2.active[d.name].version != d.version {
        SaveSound(r2, known, r2.active[d.name]);
      }
    }
  }

  /** Whatever happens, every known role has exactly one active version. */
  lemma {:induction false} AlwaysOneActive(valid: Validator, known: set<(string, string)>, inputs: seq<Input>)
    requires DistinctIds(known) && forall i :: 0 <= i < |inputs| ==> InputWithin(inputs[i], known)
    ensures Sound(After(valid, EMPTY, inputs), known)
  {
    if inputs != [] {
      var n := |inputs| - 1;
      AlwaysOneActive(valid, known, inputs[..n]);
      var r := After(valid, EMPTY, inputs[..n]);
      assert InputWithin(inputs[n], known);
      match inputs[n]
      case SaveRole(d) => SaveSound(r, known, d);
      case Config(d, fetched) => ConfigSound(valid, r, known, d, fetched);
      case Activate(name, version) =>
        if HasVersion(r.roles, name, version) {
          MarkActivates(r.roles, name, version);
          MarkKeepsOneActive(r.roles, name, version);
        }
      case Param(_, _) =>
    }
  }

  // ---------- which version it is ----------

  /** The input is a document of the role that Consul called its active version. */
  predicate Names(input: Input, role: string) {
    input.Config? && input.document.name == role &&
    input.document.version != "" && input.fetched == Some(input.document.version)
  }

  predicate LastNamed(inputs: seq<Input>, role: string, j: int) {
    0 <= j < |inputs| && Names(inputs[j], role) && forall k :: j < k < |inputs| ==> !Names(inputs[k], role)
  }

  /** What is recorded for a role, after any inputs: the latest document that Consul called the active one when
      it arrived, whether it validated or not, and nothing if there was none. */
  lemma {:induction false} RecordIsLastNamed(valid: Validator, inputs: seq<Input>, role: string)
    ensures var active := After(valid, EMPTY, inputs).active;
      && (role in active <==> exists j :: LastNamed(inputs, role, j))
      && (forall j :: LastNamed(inputs, role, j) ==> active[role] == inputs[j].document)
      && (role !in active ==> forall j :: 0 <= j < |inputs| ==> !Names(inputs[j], role))
  {
    hide Save, MarkActive, HasVersion;
    if inputs != [] {
      var n := |inputs| - 1;
      RecordIsLastNamed(valid, inputs[..n], role);
      if Names(inputs[n], role) {
        assert LastNamed(inputs, role, n);
      } else {
        assert forall j :: LastNamed(inputs, role, j) <==> LastNamed(inputs[..n], role, j);
      }
    }
  }

  /** A parameter has the value that it was given last. */
  lemma {:induction false} LastValueCounts(valid: Validator, inputs: seq<Input>, key: string, j: nat)
    requires j < |inputs| && inputs[j].Param? && inputs[j].key == key
    requires forall k :: j < k < |inputs| ==> !(inputs[k].Param? && inputs[k].key == key)
    ensures var params := After(valid, EMPTY, inputs).params;
      key in params && params[key] == inputs[j].value
  {
    hide Save, MarkActive, HasVersion;
    var n := |inputs| - 1;
    if j < n {
      LastValueCounts(valid, inputs[..n], key, j);
    }
  }

  /** The document that Consul names as the active one becomes the active version if it validates, whatever was
      recorded before. */
  lemma NamedVersionActivates(valid: Validator, r: Registry, known: set<(string, string)>, d: Document)
    requires DistinctIds(known) && Sound(r, known) && (d.name, d.version) in known && valid(r.params, d.details)
    requires d.version != ""
    ensures ActiveIs(ConfigChange(valid, r, d, Some(d.version)).roles, d.name, d.version)
  {
    hide Save, ActiveIs;
    SaveSound(r, known, d);
  }

  /** What is active after a document d that validates, if the latest document that Consul named for the role,
      up to and including this one, is a: a's version exactly if it is that of d or validates too, and
      otherwise that of d. */
  lemma ActiveBeside(valid: Validator, r: Registry, known: set<(string, string)>, d: Document, fetched: Option<string>,
      a: Document)
    requires DistinctIds(known) && Sound(r, known) && (d.name, d.version) in known && valid(r.params, d.details)
    requires var active := Recorded(r.active, d, fetched); d.name in active && active[d.name] == a
    ensures var roles := ConfigChange(valid, r, d, fetched).roles;
      && (ActiveIs(roles, d.name, a.version) <==> a.version == d.version || valid(r.params, a.details))
      && (a.version != d.version && !valid(r.params, a.details) ==> ActiveIs(roles, d.name, d.version))
  {
    hide Save;
    var r1 := r.(active := Recorded(r.active, d, fetched));
    SaveSound(r1, known, d);
    var r2 := r1.(roles := Save(r1.roles, d.name, d.version, d.details));
    if d.name in r2.active && r2.active[d.name].version != d.version {
      SaveSound(r2, known, r2.active[d.name]);
    }
  }

  lemma RecordedNow(valid: Validator, r: Registry, d: Document, fetched: Option<string>)
    ensures ConfigChange(valid, r, d, fetched).active == Recorded(r.active, d, fetched)
  {
    hide Save, Recorded;
  }

  lemma ActiveAlone(valid: Validator, r: Registry, known: set<(string, string)>, d: Document, fetched: Option<string>)
    requires DistinctIds(known) && Sound(r, known) && (d.name, d.version) in known && valid(r.params, d.details)
    requires d.name !in Recorded(r.active, d, fetched)
    ensures ActiveIs(ConfigChange(valid, r, d, fetched).roles, d.name, d.version)
  {
    hide Save;
    SaveSound(r.(active := Recorded(r.active, d, fetched)), known, d);
  }

  /** After any inputs that end in a document that validates, the version that Consul called active last is the
      active version of the role exactly if it is that of the document itself or its own document validates
      too; where it is not, and where Consul has named none, it is the version of the document. */
  lemma ActiveAfterConfig(valid: Validator, known: set<(string, string)>, inputs: seq<Input>, d: Document,
      fetched: Option<string>)
    requires DistinctIds(known) && forall i :: 0 <= i < |inputs| ==> InputWithin(inputs[i], known)
    requires inputs != [] && inputs[|inputs| - 1] == Config(d, fetched)
    requires valid(After(valid, EMPTY, inputs).params, d.details)
    ensures var r := After(valid, EMPTY, inputs);
      && (forall j :: LastNamed(inputs, d.name, j) ==>
            var a := inputs[j].document;
            && (ActiveIs(r.roles, d.name, a.version) <==> a.version == d.version || valid(r.params, a.details))
            && (a.version != d.version && !valid(r.params, a.details) ==> ActiveIs(r.roles, d.name, d.version)))
      && ((forall j :: 0 <= j < |inputs| ==> !Names(inputs[j], d.name)) ==> ActiveIs(r.roles, d.name, d.version))
  {
    hide Save, ActiveIs, Sound, MarkActive, HasVersion;
    var n := |inputs| - 1;
    var before := After(valid, EMPTY, inputs[..n]);
    forall i | 0 <= i < n ensures InputWithin(inputs[..n][i], known) {
      assert inputs[..n][i] == inputs[i];
    }
    AlwaysOneActive(valid, known, inputs[..n]);
    RecordIsLastNamed(valid, inputs, d.name);
    assert InputWithin(inputs[n], known);
    var active := After(valid, EMPTY, inputs).active;
    if d.name in active {
      RecordedNow(valid, before, d, fetched);
      ActiveBeside(valid, before, known, d, fetched, active[d.name]);
    } else {
      RecordedNow(valid, before, d, fetched);
      ActiveAlone(valid, before, known, d, fetched);
    }
  }

  /** A recorded version that does not validate: Consul calls version 1 active, its document does not
      validate, and the next document makes version 2 the active one. */
  lemma RecordedVersionNotActive(good: Json, bad: Json)
    requires good != bad
    ensures var valid := (p: Parameters, details: Json) => details == good;
      var first, second := Document("r", "1", bad), Document("r", "2", good);
      var r := After(valid, EMPTY, [Config(first, Some("1")), Config(second, Some("1"))]);
      r.active == map["r" := first] && ActiveIs(r.roles, "r", "2") && !ActiveIs(r.roles, "r", "1")
  {
    var valid := (p: Parameters, details: Json) => details == good;
    var first, second := Document("r", "1", bad), Document("r", "2", good);
    var inputs := [Config(first, Some("1")), Config(second, Some("1"))];
    var r0 := ConfigChange(valid, EMPTY, first, Some("1"));
    assert inputs[..1] == [inputs[0]] && inputs[..1][..0] == [];
    assert After(valid, EMPTY, inputs[..1]) == r0 == EMPTY.(active := map["r" := first], pending := {first});
    SaveActivates(map[], "r", "2", good);
  }

  /** A configuration document leaves all other roles alone, and one that does not validate all roles. */
  lemma ConfigLeavesOthers(valid: Validator, r: Registry, known: set<(string, string)>, d: Document,
      fetched: Option<string>, other: string, w: string)
    requires DistinctIds(known) && Sound(r, known) && (d.name, d.version) in known
    ensures other != d.name || !valid(r.params, d.details) ==>
      (ActiveIs(ConfigChange(valid, r, d, fetched).roles, other, w) <==> ActiveIs(r.roles, other, w))
  {
    hide Save, ActiveIs;
    var r1 := r.(active := Recorded(r.active, d, fetched));
    if valid(r.params, d.details) {
      SaveSound(r1, known, d);
      var r2 := r1.(roles := Save(r1.roles, d.name, d.version, d.details));
      if d.name in r2.active && r2.active[d.name].version != d.version {
        SaveSound(r2, known, r2.active[d.name]);
      }
    }
  }

  // ---------- no document is lost ----------

  /** A document is stored or kept for later: it is pending whenever it, or the recorded active document
      that has to follow it, did not validate. */
  lemma DocumentKept(valid: Validator, r: Registry, known: set<(string, string)>, d: Document, fetched: Option<string>)
    requires DistinctIds(known) && Sound(r, known) && (d.name, d.version) in known
    ensures var r' := ConfigChange(valid, r, d, fetched);
      && r.pending <= r'.pending
      && (d !in r'.pending ==> HasVersion(r'.roles, d.name, d.version) && valid(r.params, d.details))
      && (!valid(r.params, d.details) ==> d in r'.pending && r'.roles == r.roles)
      && r'.pending <= r.pending + {d}
      && (d in r'.pending <==>
            || d in r.pending
            || !valid(r.params, d.details)
            || (d.name in r'.active && r'.active[d.name].version != d.version &&
                !valid(r.params, r'.active[d.name].details)))
  {
    hide Save, ActiveIs, OneActive, HasVersion;
    var r1 := r.(active := Recorded(r.active, d, fetched));
    if valid(r.params, d.details) {
      var t := Save(r1.roles, d.name, d.version, d.details);
      SaveActivates(r1.roles, d.name, d.version, d.details);
      ActiveExists(t, d.name, d.version);
      if d.name in r1.active && r1.active[d.name].version != d.version {
        SaveKeepsVersions(t, d.name, r1.active[d.name].version, r1.active[d.name].details, d.version);
      }
    }
  }

  lemma ActiveExists(t: Roles, name: string, version: string)
    requires ActiveIs(t, name, version)
    ensures HasVersion(t, name, version)
  {
  }

  lemma SaveKeepsVersions(t: Roles, name: string, version: string, details: Json, w: string)
    requires Keyed(t) && HasVersion(t, name, w)
    ensures HasVersion(Save(t, name, version, details), name, w)
  {
    var r := Save(t, name, version, details);
    var id :| id in t && t[id].name == name && t[id].version == w;
    if id == RoleId(name, version) {
      SameNameSameVersion(name, w, version);
    }
    assert id in r && r[id].name == name && r[id].version == w;
  }
}
