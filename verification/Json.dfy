/** JSON values as Python's json module yields them, Python's equality on them, and the
    inclusion test of configutils.is_dict_subset. */
module Json {

  datatype Json =
    | Null
    | Bool(b: bool)
    | Int(i: int)
    | Float(f: real)
    | Str(s: string)
    | List(items: seq<Json>)
    | Dict(fields: map<string, Json>)

  predicate IsNumber(a: Json) {
    a.Bool? || a.Int? || a.Float?
  }

  function NumberOf(a: Json): real
    requires IsNumber(a)
  {
    match a
    case Bool(b) => if b then 1.0 else 0.0
    case Int(i) => i as real
    case Float(f) => f
  }

  /** Python's ==: numbers, booleans included, compare by value whatever their type. */
  predicate PyEq(a: Json, b: Json) {
    if IsNumber(a) then
      IsNumber(b) && NumberOf(a) == NumberOf(b)
    else
      match a
      case Null => b.Null?
      case Str(s) => b.Str? && s == b.s
      case List(xs) =>
        b.List? && |xs| == |b.items| && forall i :: 0 <= i < |xs| ==> PyEq(xs[i], b.items[i])
      case Dict(m) =>
        b.Dict? && m.Keys == b.fields.Keys && forall k :: k in m ==> PyEq(m[k], b.fields[k])
  }

  /** The value types that is_dict_subset accepts on its left-hand side. */
  predicate Comparable(a: Json) {
    a.Str? || a.Bool? || a.Int? || a.Float? || a.Dict?
  }

  predicate IsDictSubset(a: Json, b: Json) {
    && a.Dict?
    && b.Dict?
    && forall k :: k in a.fields ==>
         && k in b.fields
         && Comparable(a.fields[k])
         && (if a.fields[k].Dict? then IsDictSubset(a.fields[k], b.fields[k]) else PyEq(a.fields[k], b.fields[k]))
  }

  /** A dictionary that holds no list and no null at any depth. */
  predicate ListFree(a: Json) {
    a.Dict? && forall k :: k in a.fields ==>
      Comparable(a.fields[k]) && (a.fields[k].Dict? ==> ListFree(a.fields[k]))
  }

  lemma {:induction false} PyEqReflexive(a: Json)
    ensures PyEq(a, a)
  {
    match a
    case List(xs) =>
      forall i | 0 <= i < |xs| ensures PyEq(xs[i], xs[i]) { PyEqReflexive(xs[i]); }
    case Dict(m) =>
      forall k | k in m ensures PyEq(m[k], m[k]) { PyEqReflexive(m[k]); }
    case _ =>
  }

  lemma {:induction false} PyEqSymmetric(a: Json, b: Json)
    requires PyEq(a, b)
    ensures PyEq(b, a)
  {
    match a
    case List(xs) =>
      forall i | 0 <= i < |xs| ensures PyEq(b.items[i], xs[i]) { PyEqSymmetric(xs[i], b.items[i]); }
    case Dict(m) =>
      forall k | k in m ensures PyEq(b.fields[k], m[k]) { PyEqSymmetric(m[k], b.fields[k]); }
    case _ =>
  }

  lemma {:induction false} PyEqTransitive(a: Json, b: Json, c: Json)
    requires PyEq(a, b) && PyEq(b, c)
    ensures PyEq(a, c)
  {
    match a
    case List(xs) =>
      forall i | 0 <= i < |xs| ensures PyEq(xs[i], c.items[i]) { PyEqTransitive(xs[i], b.items[i], c.items[i]); }
    case Dict(m) =>
      forall k | k in m ensures PyEq(m[k], c.fields[k]) { PyEqTransitive(m[k], b.fields[k], c.fields[k]); }
    case _ =>
  }

  /** Equal values are interchangeable in a comparison. */
  lemma PyEqReplace(a: Json, b: Json, c: Json)
    requires PyEq(a, b)
    ensures PyEq(a, c) <==> PyEq(b, c)
  {
    PyEqSymmetric(a, b);
    if PyEq(a, c) { PyEqTransitive(b, a, c); }
    if PyEq(b, c) { PyEqTransitive(a, b, c); }
  }

  /** The inclusion test is reflexive exactly on dictionaries without lists and nulls: a
      configuration holding one of those is never seen as applied, not even by itself. */
  lemma {:induction false} SubsetOfItself(a: Json)
    ensures IsDictSubset(a, a) <==> ListFree(a)
  {
    if a.Dict? {
      forall k | k in a.fields && Comparable(a.fields[k])
        ensures a.fields[k].Dict? ==> (IsDictSubset(a.fields[k], a.fields[k]) <==> ListFree(a.fields[k]))
        ensures PyEq(a.fields[k], a.fields[k])
      {
        SubsetOfItself(a.fields[k]);
        PyEqReflexive(a.fields[k]);
      }
    }
  }

  /** A dictionary equal to a list-free one includes it. */
  lemma {:induction false} EqualImpliesSubset(a: Json, b: Json)
    requires ListFree(a) && PyEq(a, b)
    ensures IsDictSubset(a, b)
  {
    forall k | k in a.fields && a.fields[k].Dict? ensures IsDictSubset(a.fields[k], b.fields[k]) {
      EqualImpliesSubset(a.fields[k], b.fields[k]);
    }
  }

  /** Whatever passes as the left-hand side of the test is list-free. */
  lemma {:induction false} SubsetImpliesListFree(a: Json, b: Json)
    requires IsDictSubset(a, b)
    ensures ListFree(a)
  {
    forall k | k in a.fields && a.fields[k].Dict? ensures ListFree(a.fields[k]) {
      SubsetImpliesListFree(a.fields[k], b.fields[k]);
    }
  }
}
