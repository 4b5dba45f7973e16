/** Application configurations and the satisfaction test of bbcommon/utils.py. */
module AppsConfig {
  import opened Json
  import opened Wrappers

  /** Application name to its property dictionary. */
  type Apps = map<string, map<string, Json>>

  /** Properties that are not part of the state a host can report. */
  const IGNORED: set<string> := {"url", "du_config", "pkginfo", "rank"}

  function Strip(spec: map<string, Json>): map<string, Json> {
    spec - IGNORED
  }

  predicate AppSatisfied(spec: map<string, Json>, current: map<string, Json>) {
    IsDictSubset(Dict(Strip(spec)), Dict(current))
  }

  /** What is_satisfied_by means: same application names, every application satisfied. */
  predicate Satisfies(desired: Apps, current: Apps) {
    desired.Keys == current.Keys && forall n :: n in desired ==> AppSatisfied(desired[n], current[n])
  }

  /** Property by property: all but four are compared, dictionaries by inclusion and anything else, where it
      can be compared at all, by equality. */
  lemma SatisfactionByProperty(spec: map<string, Json>, current: map<string, Json>)
    ensures AppSatisfied(spec, current) <==>
      forall p :: p in spec && p != "url" && p != "du_config" && p != "pkginfo" && p != "rank" ==>
        && p in current
        && Comparable(spec[p])
        && (if spec[p].Dict? then IsDictSubset(spec[p], current[p]) else PyEq(spec[p], current[p]))
  {
    assert forall p :: p in Strip(spec) <==> p in spec && p != "url" && p != "du_config" && p != "pkginfo" && p != "rank";
    assert forall p :: p in Strip(spec) ==> Strip(spec)[p] == spec[p];
    hide PyEq, Strip, Comparable;
    if AppSatisfied(spec, current) {
      assert forall p :: p in Strip(spec) ==> p in current;
    }
  }

  /** is_satisfied_by: no desired configuration at all is always satisfied. The loop deletes the
      ignored properties from a copy of each specification before comparing it. */
  method IsSatisfiedBy(desired: Option<Apps>, current: Apps) returns (satisfied: bool)
    ensures satisfied <==> desired.None? || Satisfies(desired.value, current)
  {
    if desired.None? {
      return true;
    }
    var specified := desired.value;
    if specified.Keys != current.Keys {
      return false;
    }
    var todo := specified.Keys;
    while todo != {}
      invariant todo <= specified.Keys == current.Keys
      invariant specified.Keys == desired.value.Keys
      invariant forall n :: n in todo ==> specified[n] == desired.value[n]
      invariant forall n :: n in specified && n !in todo ==> AppSatisfied(desired.value[n], current[n])
      decreases todo
    {
      var name :| name in todo;
      specified := specified[name := specified[name] - IGNORED];
      if !IsDictSubset(Dict(specified[name]), Dict(current[name])) {
        return false;
      }
      todo := todo - {name};
    }
    return true;
  }
}
