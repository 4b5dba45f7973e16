/** The table of role versions (dbutils.py): which version of a role is the active one. */
module RoleVersions {
  import opened Json

  datatype Row = Row(name: string, version: string, active: bool, details: Json)

  /** Rows by their primary key. */
  type Roles = map<string, Row>

  function RoleId(name: string, version: string): string {
    name + "_" + version
  }

  lemma SameNameSameVersion(name: string, v: string, w: string)
    requires RoleId(name, v) == RoleId(name, w)
    ensures v == w
  {
    assert v == RoleId(name, v)[|name| + 1..];
    assert w == RoleId(name, w)[|name| + 1..];
  }

  /** Every row is stored under its own key. */
  predicate Keyed(t: Roles) {
    forall id :: id in t ==> id == RoleId(t[id].name, t[id].version)
  }

  predicate Known(t: Roles, name: string) {
    exists id :: id in t && t[id].name == name
  }

  predicate IsActive(t: Roles, name: string, version: string) {
    exists id :: id in t && t[id].name == name && t[id].version == version && t[id].active
  }

  /** Version is the one active version of the role. */
  ghost predicate ActiveIs(t: Roles, name: string, version: string) {
    && IsActive(t, name, version)
    && forall id :: id in t && t[id].name == name && t[id].active ==> t[id].version == version
  }

  ghost predicate OneActive(t: Roles) {
    forall id :: id in t ==> exists version :: ActiveIs(t, t[id].name, version)
  }

  // ---------- the two operations on the table ----------

  function Deactivated(t: Roles, name: string, version: string): Roles {
    map id | id in t :: if t[id].name == name && t[id].version != version then t[id].(active := false) else t[id]
  }

  /** save_role_in_db with a specification that validates: the row under the key is replaced. */
  function Save(t: Roles, name: string, version: string, details: Json): Roles {
    Deactivated(t, name, version)[RoleId(name, version) := Row(name, version, true, details)]
  }

  predicate HasVersion(t: Roles, name: string, version: string) {
    exists id :: id in t && t[id].name == name && t[id].version == version
  }

  predicate HasOtherVersion(t: Roles, name: string, version: string) {
    exists id :: id in t && t[id].name == name && t[id].version != version
  }

  /** mark_role_active for a version that exists. The bulk update alone does not make the session dirty, so
      that it is committed only together with a change to another version. */
  function MarkActive(t: Roles, name: string, version: string): Roles {
    if HasOtherVersion(t, name, version) then
      map id | id in t ::
        if t[id].name != name then t[id] else t[id].(active := t[id].version == version)
    else t
  }

  class RoleDb {
    var roles: Roles

    constructor ()
      ensures roles == map[]
    {
      roles := map[];
    }

    /** The loop that marks all other versions of a role inactive. */
    method DeactivateOthers(name: string, version: string) returns (others: bool)
      modifies this
      ensures roles == Deactivated(old(roles), name, version)
      ensures others <==> HasOtherVersion(old(roles), name, version)
    {
      others := false;
      var todo := roles.Keys;
      while todo != {}
        invariant todo <= roles.Keys == old(roles).Keys
        invariant forall id :: id in todo ==> roles[id] == old(roles)[id]
        invariant forall id :: id in roles && id !in todo ==> roles[id] == Deactivated(old(roles), name, version)[id]
        invariant others <==>
          exists id :: id in old(roles) && id !in todo && old(roles)[id].name == name && old(roles)[id].version != version
        decreases todo
      {
        var id :| id in todo;
        if roles[id].name == name && roles[id].version != version {
          roles := roles[id := roles[id].(active := false)];
          others := true;
        }
        todo := todo - {id};
      }
    }

    /** save_role_in_db; valid tells whether the specification renders with the current parameters. */
    method SaveRoleInDb(name: string, version: string, details: Json, valid: bool) returns (keyError: bool)
      modifies this
      ensures keyError <==> !valid
      ensures roles == if valid then Save(old(roles), name, version, details) else old(roles)
    {
      if !valid {
        return true;
      }
      var others := DeactivateOthers(name, version);
      roles := roles[RoleId(name, version) := Row(name, version, true, details)];
      return false;
    }

    /** mark_role_active */
    method MarkRoleActive(name: string, version: string) returns (notFound: bool)
      modifies this
      ensures notFound <==> !HasVersion(old(roles), name, version)
      ensures roles == if notFound then old(roles) else MarkActive(old(roles), name, version)
    {
      if !HasVersion(roles, name, version) {
        return true;
      }
      var stored := roles;
      roles := map id | id in roles ::
        if roles[id].name == name && roles[id].version == version then roles[id].(active := true) else roles[id];
      SameVersions(stored, roles, name, version);
      var dirty := DeactivateOthers(name, version);
      if !dirty {
        roles := stored;
      }
      return false;
    }
  }

  // ---------- exactly one active version ----------

  /** Saving a version loses another role its active version, and only then breaks the invariant, if the
      key of the saved version is that of the active version of the other role, which has more versions. */
  ghost predicate TakesOverActive(t: Roles, name: string, version: string) {
    var id := RoleId(name, version);
    id in t && t[id].name != name && t[id].active && HasOtherVersion(t, t[id].name, t[id].version)
  }

  lemma SaveActivates(t: Roles, name: string, version: string, details: Json)
    requires Keyed(t)
    ensures var r := Save(t, name, version, details);
      && Keyed(r) && ActiveIs(r, name, version) && r[RoleId(name, version)].details == details
  {
    var r := Save(t, name, version, details);
    assert r[RoleId(name, version)].active;
  }

  /** No row is lost, and none but the saved one changes, except that it may become inactive. */
  lemma SaveKeepsRows(t: Roles, name: string, version: string, details: Json)
    ensures var r := Save(t, name, version, details);
      && r.Keys == t.Keys + {name + "_" + version}
      && r[name + "_" + version] == Row(name, version, true, details)
      && forall id :: id in t && id != name + "_" + version ==>
           && r[id].name == t[id].name && r[id].version == t[id].version && r[id].details == t[id].details
           && r[id].active == (t[id].active && (t[id].name == name ==> t[id].version == version))
  {
  }

  /** Nor does activating a version change anything but which versions are active. */
  lemma MarkKeepsRows(t: Roles, name: string, version: string)
    ensures var r := MarkActive(t, name, version);
      && r.Keys == t.Keys
      && forall id :: id in t ==>
           r[id].name == t[id].name && r[id].version == t[id].version && r[id].details == t[id].details
  {
  }

  lemma SaveLeavesOthers(t: Roles, name: string, version: string, details: Json, other: string, w: string)
    requires Keyed(t) && other != name
    requires RoleId(name, version) in t ==> t[RoleId(name, version)].name != other
    ensures ActiveIs(Save(t, name, version, details), other, w) <==> ActiveIs(t, other, w)
    ensures Known(Save(t, name, version, details), other) <==> Known(t, other)
  {
    var r := Save(t, name, version, details);
    assert forall id :: id in t && t[id].name == other ==> id in r && r[id] == t[id];
    assert forall id :: id in r && r[id].name == other ==> id in t && t[id] == r[id];
  }

  lemma SaveKeepsOneActive(t: Roles, name: string, version: string, details: Json)
    requires Keyed(t) && OneActive(t)
    ensures OneActive(Save(t, name, version, details)) <==> !TakesOverActive(t, name, version)
  {
    var r := Save(t, name, version, details);
    var key := RoleId(name, version);
    SaveActivates(t, name, version, details);
    if TakesOverActive(t, name, version) {
      TakeOverLeavesNone(t, name, version, details);
    } else {
      forall id | id in r ensures exists w :: ActiveIs(r, r[id].name, w) {
        if r[id].name == name {
          assert ActiveIs(r, r[id].name, version);
        } else {
          var w :| ActiveIs(t, t[id].name, w);
          OtherKeepsActive(t, name, version, details, id, w);
        }
      }
    }
  }

  lemma TakeOverLeavesNone(t: Roles, name: string, version: string, details: Json)
    requires Keyed(t) && OneActive(t) && TakesOverActive(t, name, version)
    ensures !OneActive(Save(t, name, version, details))
  {
    var r := Save(t, name, version, details);
    var key := RoleId(name, version);
    var other := t[key].name;
    var id :| id in t && t[id].name == other && t[id].version != t[key].version;
    assert r[id] == t[id];
    forall w ensures !ActiveIs(r, other, w) {
      NoneActive(t, name, version, details, w);
    }
    assert r[id].name == other;
  }

  /** Two names whose keys collide: saving version b_c of role a takes the active version c of role a_b, which
      also has the version d. */
  lemma CollidingKeys(details: Json)
    ensures var t := Save(Save(map[], "a_b", "d", details), "a_b", "c", details);
      && Keyed(t) && OneActive(t) && ActiveIs(t, "a_b", "c")
      && !OneActive(Save(t, "a", "b_c", details))
  {
    assert "a_b" + "_" + "c" == "a_b_c" == "a" + "_" + "b_c";
    hide Save, OneActive, ActiveIs, Keyed;
    TwoSaved("a_b", "d", "c", details);
    Collision("a_b", "d", "c", "a", "b_c", details);
  }

  lemma TwoSaved(name: string, v: string, w: string, details: Json)
    requires v != w
    ensures var t := Save(Save(map[], name, v, details), name, w, details);
      && Keyed(t) && OneActive(t) && ActiveIs(t, name, w)
      && RoleId(name, v) in t && t[RoleId(name, v)] == Row(name, v, false, details)
      && RoleId(name, w) in t && t[RoleId(name, w)] == Row(name, w, true, details)
  {
    hide OneActive, ActiveIs;
    var t := Save(map[], name, v, details);
    assert RoleId(name, v) != RoleId(name, w) by {
      if RoleId(name, v) == RoleId(name, w) { SameNameSameVersion(name, v, w); }
    }
    SaveActivates(map[], name, v, details);
    NothingActive();
    SaveKeepsOneActive(map[], name, v, details);
    SaveActivates(t, name, w, details);
    SaveKeepsOneActive(t, name, w, details);
  }

  lemma NothingActive()
    ensures OneActive(map[])
  {
  }

  lemma Collision(name: string, v: string, w: string, other: string, x: string, details: Json)
    requires v != w && name != other && RoleId(name, w) == RoleId(other, x)
    ensures !OneActive(Save(Save(Save(map[], name, v, details), name, w, details), other, x, details))
  {
    TwoSaved(name, v, w, details);
    hide Save, OneActive, ActiveIs, Keyed, RoleId;
    SaveKeepsOneActive(Save(Save(map[], name, v, details), name, w, details), other, x, details);
  }

  lemma NoneActive(t: Roles, name: string, version: string, details: Json, w: string)
    requires Keyed(t) && OneActive(t) && TakesOverActive(t, name, version)
    ensures !IsActive(Save(t, name, version, details), t[RoleId(name, version)].name, w)
  {
    var r := Save(t, name, version, details);
    var key := RoleId(name, version);
    var other := t[key].name;
    forall i | i in r && r[i].name == other ensures !r[i].active {
      assert t[i] == r[i] && i != key;
      if t[i].active {
        OnlyOneActive(t, i, key);
      }
    }
  }

  lemma OnlyOneActive(t: Roles, i: string, j: string)
    requires Keyed(t) && OneActive(t) && i in t && j in t && t[i].name == t[j].name && t[i].active && t[j].active
    ensures i == j
  {
    var v :| ActiveIs(t, t[i].name, v);
    assert i == RoleId(t[i].name, v) && j == RoleId(t[j].name, v);
  }

  lemma TwoVersions(t: Roles, i: string, j: string)
    requires Keyed(t) && i in t && j in t && i != j && t[i].name == t[j].name
    ensures HasOtherVersion(t, t[i].name, t[i].version)
  {
    assert t[j].version != t[i].version;
  }

  lemma OtherKeepsActive(t: Roles, name: string, version: string, details: Json, id: string, w: string)
    requires Keyed(t) && !TakesOverActive(t, name, version)
    requires id in t && id != RoleId(name, version) && t[id].name != name && ActiveIs(t, t[id].name, w)
    ensures ActiveIs(Save(t, name, version, details), t[id].name, w)
  {
    var r := Save(t, name, version, details);
    var other := t[id].name;
    var i :| i in t && t[i].name == other && t[i].version == w && t[i].active;
    if i == RoleId(name, version) {
      TwoVersions(t, i, id);
    }
    assert r[i] == t[i];
    assert forall j :: j in r && r[j].name == other ==> j in t && t[j] == r[j];
  }

  lemma SameVersions(t: Roles, u: Roles, name: string, version: string)
    requires t.Keys == u.Keys && forall id :: id in t ==> t[id].name == u[id].name && t[id].version == u[id].version
    ensures HasOtherVersion(t, name, version) <==> HasOtherVersion(u, name, version)
  {
    if HasOtherVersion(t, name, version) {
      var id :| id in t && t[id].name == name && t[id].version != version;
      assert u[id].name == name;
    }
    if HasOtherVersion(u, name, version) {
      var id :| id in u && u[id].name == name && u[id].version != version;
      assert t[id].name == name;
    }
  }

  /** Marking a version active makes it the one active version even where nothing is committed: a version
      without others is active already. Other roles keep theirs. */
  lemma MarkActivates(t: Roles, name: string, version: string)
    requires Keyed(t) && OneActive(t) && HasVersion(t, name, version)
    ensures Keyed(MarkActive(t, name, version)) && ActiveIs(MarkActive(t, name, version), name, version)
  {
    hide RoleId;
    var r := MarkActive(t, name, version);
    var id :| id in t && t[id].name == name && t[id].version == version;
    if HasOtherVersion(t, name, version) {
      assert r[id].active;
    } else {
      var w :| ActiveIs(t, t[id].name, w);
      var i :| i in t && t[i].name == name && t[i].version == w && t[i].active;
      assert w == version;
    }
  }

  lemma MarkKeepsOneActive(t: Roles, name: string, version: string)
    requires Keyed(t) && OneActive(t) && HasVersion(t, name, version)
    ensures OneActive(MarkActive(t, name, version))
  {
    hide ActiveIs;
    var r := MarkActive(t, name, version);
    MarkActivates(t, name, version);
    forall i | i in r ensures exists v :: ActiveIs(r, r[i].name, v) {
      if r[i].name != name {
        var v :| ActiveIs(t, t[i].name, v);
        MarkLeavesOthers(t, name, version, t[i].name, v);
      }
    }
  }

  lemma MarkLeavesOthers(t: Roles, name: string, version: string, other: string, w: string)
    requires other != name
    ensures ActiveIs(MarkActive(t, name, version), other, w) <==> ActiveIs(t, other, w)
  {
    var r := MarkActive(t, name, version);
    assert forall id :: id in t && t[id].name == other ==> id in r && r[id] == t[id];
    assert forall id :: id in r && r[id].name == other ==> id in t && t[id] == r[id];
  }
}
