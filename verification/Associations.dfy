/** The host/role association table of dbutils.py. A row belongs to a host and a role version,
    while every query selects by host and role name. */
module Associations {
  import opened RoleStates

  datatype Row = Row(host: string, role: string, version: string)
  datatype Key = Key(host: string, role: string)

  type Table = map<Row, RoleState>

  predicate Names(r: Row, k: Key) {
    r.host == k.host && r.role == k.role
  }

  function RowsOf(t: Table, k: Key): set<Row> {
    set r | r in t && Names(r, k)
  }

  /** A host is associated with at most one version of a role. */
  ghost predicate UniqueByName(t: Table) {
    forall r, q :: r in t && q in t && r.host == q.host && r.role == q.role ==> r == q
  }

  predicate Present(t: Table, k: Key) {
    RowsOf(t, k) != {}
  }

  /** The state of a role on a host, absent read as not-applied. */
  ghost function StateOf(t: Table, k: Key): RoleState {
    if Present(t, k) then
      var r :| r in RowsOf(t, k);
      t[r]
    else
      NotApplied
  }

  lemma StateOfRow(t: Table, r: Row, k: Key)
    requires UniqueByName(t) && r in t && Names(r, k)
    ensures Present(t, k) && StateOf(t, k) == t[r] && RowsOf(t, k) == {r}
  {
    assert r in RowsOf(t, k);
  }

  function Matching(t: Table, k: Key, current: RoleState): set<Row> {
    set r | r in t && Names(r, k) && t[r] == current
  }

  function SetRows(t: Table, rows: set<Row>, next: RoleState): Table {
    map r | r in t :: if r in rows then next else t[r]
  }

  /** advance_role_state's update: a compare-and-set, given up unless it hits exactly one row. */
  function Advance(t: Table, k: Key, current: RoleState, next: RoleState): (Table, bool) {
    var hit := Matching(t, k, current);
    if |hit| == 1 then (SetRows(t, hit, next), true) else (t, false)
  }

  /** associate_role_to_host: an existing association moves to the given version and keeps its
      state, otherwise a new one starts as not-applied. The flag tells whether it is new. */
  ghost function Associate(t: Table, k: Key, version: string): (Table, bool) {
    if Present(t, k) then
      var prior :| prior in RowsOf(t, k);
      ((t - {prior})[Row(k.host, k.role, version) := t[prior]], false)
    else
      (t[Row(k.host, k.role, version) := NotApplied], true)
  }

  function Remove(t: Table, k: Key): Table {
    t - RowsOf(t, k)
  }

  ghost predicate SameElsewhere(t: Table, t': Table, k: Key) {
    forall q: Key :: q != k ==> StateOf(t', q) == StateOf(t, q) && Present(t', q) == Present(t, q)
  }

  lemma SameRowsSameState(t: Table, t': Table, k: Key)
    requires UniqueByName(t) && UniqueByName(t')
    requires forall r :: Names(r, k) ==> (r in t <==> r in t') && (r in t ==> t[r] == t'[r])
    ensures StateOf(t', k) == StateOf(t, k) && Present(t', k) == Present(t, k)
  {
    assert RowsOf(t, k) == RowsOf(t', k);
    if Present(t, k) {
      var r :| r in RowsOf(t, k);
      StateOfRow(t, r, k);
      StateOfRow(t', r, k);
    }
  }

  /** On a table without duplicates the compare-and-set does what its name says, whatever version
      of the role the row belongs to. */
  lemma AdvanceEffect(t: Table, k: Key, current: RoleState, next: RoleState)
    requires UniqueByName(t)
    ensures var (t', ok) := Advance(t, k, current, next);
      && UniqueByName(t')
      && t'.Keys == t.Keys
      && (ok <==> Present(t, k) && StateOf(t, k) == current)
      && (ok ==> StateOf(t', k) == next)
      && (!ok ==> t' == t)
      && Present(t', k) == Present(t, k)
      && SameElsewhere(t, t', k)
  {
    var hit := Matching(t, k, current);
    var (t', ok) := Advance(t, k, current, next);
    if Present(t, k) {
      var r :| r in RowsOf(t, k);
      StateOfRow(t, r, k);
      if t[r] == current {
        assert hit == {r};
        StateOfRow(t', r, k);
      } else {
        assert hit == {};
      }
    } else {
      assert hit == {} by {
        if h :| h in hit { assert h in RowsOf(t, k); }
      }
    }
    forall q: Key | q != k
      ensures StateOf(t', q) == StateOf(t, q) && Present(t', q) == Present(t, q)
    {
      SameRowsSameState(t, t', q);
    }
  }

  /** Associating changes no state, keeps the table free of duplicates, and leaves exactly the
      requested version associated. */
  lemma AssociateEffect(t: Table, k: Key, version: string)
    requires UniqueByName(t)
    ensures var (t', isNew) := Associate(t, k, version);
      && UniqueByName(t')
      && (isNew <==> !Present(t, k))
      && RowsOf(t', k) == {Row(k.host, k.role, version)}
      && StateOf(t', k) == StateOf(t, k)
      && SameElsewhere(t, t', k)
  {
    var (t', isNew) := Associate(t, k, version);
    var r := Row(k.host, k.role, version);
    assert UniqueByName(t') by {
      forall p, q | p in t' && q in t' && p.host == q.host && p.role == q.role
        ensures p == q
      {
        if Present(t, k) && Names(p, k) {
          var prior :| prior in RowsOf(t, k);
          assert p != r ==> p == prior;
        } else if Names(p, k) {
          assert p != r ==> p in RowsOf(t, k);
          assert q != r ==> q in RowsOf(t, k);
        }
      }
    }
    StateOfRow(t', r, k);
    if Present(t, k) {
      var prior :| prior in RowsOf(t, k);
      StateOfRow(t, prior, k);
    }
    forall q: Key | q != k
      ensures StateOf(t', q) == StateOf(t, q) && Present(t', q) == Present(t, q)
    {
      SameRowsSameState(t, t', q);
    }
  }

  lemma RemoveEffect(t: Table, k: Key)
    requires UniqueByName(t)
    ensures UniqueByName(Remove(t, k)) && !Present(Remove(t, k), k) && SameElsewhere(t, Remove(t, k), k)
  {
    var t' := Remove(t, k);
    assert RowsOf(t', k) == {};
    forall q: Key | q != k
      ensures StateOf(t', q) == StateOf(t, q) && Present(t', q) == Present(t, q)
    {
      SameRowsSameState(t, t', q);
    }
  }
}
