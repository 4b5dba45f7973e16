/** Conversion between parsed ini files and JSON, and merge_and_delete_params (configutils.py). */
module IniJson {
  import opened Wrappers

  type Section = map<string, string>

  /** The contents of a ConfigParser: the defaults, and the sections with their own values. */
  datatype Ini = Ini(defaults: Section, sections: map<string, Section>)

  type JsonConfig = map<string, Section>

  const DEFAULT := "DEFAULT"
  const REMOVE_KEY := "REMOVE_KEY"

  /** DEFAULT is never a section of its own. */
  predicate WellFormed(c: Ini) {
    DEFAULT !in c.sections
  }

  /** The raw value that a section has for a key: its own, or the default. */
  function Effective(c: Ini, s: string, k: string): Option<string>
    requires s in c.sections
  {
    if k in c.sections[s] then Some(c.sections[s][k])
    else if k in c.defaults then Some(c.defaults[k])
    else None
  }

  // ---------- which percent signs ConfigParser.set accepts ----------

  /** value.replace('%%', '') */
  function WithoutEscapes(v: string): string {
    if |v| >= 2 && v[0] == '%' && v[1] == '%' then WithoutEscapes(v[2..])
    else if v == "" then "" else [v[0]] + WithoutEscapes(v[1..])
  }

  /** The length of a reference %(name)s that v starts with, 0 if there is none. */
  function ReferenceLength(v: string): (n: nat)
    ensures n <= |v|
  {
    if |v| >= 2 && v[0] == '%' && v[1] == '(' then
      var n := NameLength(v[2..]);
      if n > 0 && n + 3 < |v| && v[n + 2] == ')' && v[n + 3] == 's' then n + 4 else 0
    else 0
  }

  function NameLength(v: string): (n: nat)
    ensures n <= |v|
  {
    if v == "" || v[0] == ')' then 0 else 1 + NameLength(v[1..])
  }

  function WithoutReferences(v: string): string
    decreases |v|
  {
    if v == "" then ""
    else if ReferenceLength(v) > 0 then WithoutReferences(v[ReferenceLength(v)..])
    else [v[0]] + WithoutReferences(v[1..])
  }

  predicate Accepts(v: string) {
    '%' !in WithoutReferences(WithoutEscapes(v))
  }

  /** val.replace("%", "%%") */
  function Doubled(v: string): string {
    if v == "" then "" else (if v[0] == '%' then "%%" else [v[0]]) + Doubled(v[1..])
  }

  lemma {:induction false} PlainPrefix(a: string, b: string)
    requires '%' !in a
    ensures WithoutEscapes(a + b) == a + WithoutEscapes(b) && WithoutReferences(a + b) == a + WithoutReferences(b)
  {
    if a == "" {
      assert a + b == b;
    } else {
      assert a == [a[0]] + a[1..] && (a + b)[1..] == a[1..] + b;
      assert a[0] in a;
      PlainPrefix(a[1..], b);
    }
  }

  /** Text without percent signs, escaped percent signs and references to plain names may precede any
      value without making a difference; a percent sign that starts neither is refused. */
  lemma AcceptedForms(a: string, name: string, b: string)
    requires '%' !in a && '%' !in name && ')' !in name && name != ""
    ensures Accepts(a + b) <==> Accepts(b)
    ensures Accepts("%%" + b) <==> Accepts(b)
    ensures Accepts("%(" + name + ")s" + b) <==> Accepts(b)
    ensures b == "" || (b[0] != '%' && b[0] != '(') ==> !Accepts("%" + b)
  {
    var w := WithoutEscapes(b);
    PlainPrefix(a, b);
    PlainPrefix(a, w);
    assert ("%%" + b)[2..] == b;
    ReferenceAccepted(name, b);
    if b == "" || (b[0] != '%' && b[0] != '(') {
      assert ("%" + b)[1..] == b;
      assert WithoutEscapes("%" + b) == "%" + w;
      assert b != "" ==> w[0] == b[0];
      assert ("%" + w)[1..] == w;
      assert ReferenceLength("%" + w) == 0;
    }
  }

  lemma ReferenceAccepted(name: string, b: string)
    requires '%' !in name && ')' !in name && name != ""
    ensures Accepts("%(" + name + ")s" + b) <==> Accepts(b)
  {
    hide NameLength;
    var w, rest := WithoutEscapes(b), "(" + name + ")s";
    var v := "%(" + name + ")s" + b;
    assert v[1..] == rest + b;
    PlainPrefix(rest, b);
    assert WithoutEscapes(v) == "%" + (rest + w);
    var x := "%" + (rest + w);
    assert x[2..] == name + (")s" + w);
    NameEnds(name, ")s" + w);
    assert ReferenceLength(x) == |name| + 4 && x[|name| + 4..] == w;
  }

  lemma {:induction false} NameEnds(name: string, rest: string)
    requires ')' !in name && rest != "" && rest[0] == ')'
    ensures NameLength(name + rest) == |name|
  {
    if name == "" {
      assert name + rest == rest;
    } else {
      assert (name + rest)[1..] == name[1..] + rest;
      assert name[0] in name;
      NameEnds(name[1..], rest);
    }
  }

  lemma {:induction false} NoPercentStays(v: string)
    requires '%' !in v
    ensures WithoutReferences(v) == v && WithoutEscapes(v) == v && Doubled(v) == v
  {
    if v != "" {
      assert v == [v[0]] + v[1..];
      assert v[0] in v;
      NoPercentStays(v[1..]);
    }
  }

  /** A value that is refused holds a percent sign, so doubling changes it; and the doubled value is accepted,
      so the second attempt of json_to_ini never raises. */
  lemma DoublingIsAccepted(v: string)
    ensures Accepts(Doubled(v))
    ensures !Accepts(v) ==> Doubled(v) != v
  {
    EscapesOfDoubled(v);
    NoPercentStays(WithoutEscapes(Doubled(v)));
    DoubledLonger(v);
    if '%' !in v {
      NoPercentStays(v);
    }
  }

  lemma {:induction false} EscapesOfDoubled(v: string)
    ensures '%' !in WithoutEscapes(Doubled(v))
  {
    if v != "" {
      EscapesOfDoubled(v[1..]);
      if v[0] == '%' {
        assert Doubled(v)[2..] == Doubled(v[1..]);
      } else {
        assert Doubled(v)[1..] == Doubled(v[1..]);
      }
    }
  }

  lemma {:induction false} DoubledLonger(v: string)
    ensures |Doubled(v)| >= |v|
    ensures '%' in v ==> |Doubled(v)| > |v|
  {
    if v != "" {
      DoubledLonger(v[1..]);
      assert v == [v[0]] + v[1..];
    }
  }

  /** How a value without references reads once interpolated: every pair of percent signs stands for one. */
  function Unescaped(v: string): string {
    if |v| >= 2 && v[0] == '%' && v[1] == '%' then "%" + Unescaped(v[2..])
    else if v == "" then "" else [v[0]] + Unescaped(v[1..])
  }

  /** Interpolating a doubled value gives the value back. */
  lemma {:induction false} DoublingReadsBack(v: string)
    ensures Unescaped(Doubled(v)) == v
  {
    if v != "" {
      DoublingReadsBack(v[1..]);
      if v[0] == '%' {
        assert Doubled(v)[2..] == Doubled(v[1..]);
      } else {
        assert Doubled(v)[1..] == Doubled(v[1..]);
      }
      assert v == [v[0]] + v[1..];
    }
  }

  /** What json_to_ini stores for a value. */
  function Stored(v: string): string {
    if Accepts(v) then v else Doubled(v)
  }

  // ---------- the conversions as functions ----------

  /** The values of a section that differ from the default of their key. */
  function Distinguished(c: Ini, s: string): Section
    requires s in c.sections
  {
    map k | k in c.defaults.Keys + c.sections[s].Keys &&
        (k in c.defaults ==> Effective(c, s, k).value != c.defaults[k]) :: Effective(c, s, k).value
  }

  function ToJson(c: Ini): JsonConfig {
    (map s | s in c.sections :: Distinguished(c, s))[DEFAULT := c.defaults]
  }

  function StoredSection(vals: Section): Section {
    map k | k in vals :: Stored(vals[k])
  }

  function ToIni(j: JsonConfig): Ini {
    Ini(if DEFAULT in j then StoredSection(j[DEFAULT]) else map[], map s | s in j && s != DEFAULT :: StoredSection(j[s]))
  }

  class ConfigParser {
    var defaults: Section
    var sections: map<string, Section>

    constructor ()
      ensures View() == Ini(map[], map[])
    {
      defaults, sections := map[], map[];
    }

    ghost function View(): Ini
      reads this
    {
      Ini(defaults, sections)
    }

    /** set: raises ValueError on a percent sign that is neither escaped nor a reference. */
    method Set(s: string, k: string, v: string) returns (valueError: bool)
      requires s == DEFAULT || s in sections
      modifies this
      ensures valueError <==> !Accepts(v)
      ensures View() == if valueError then old(View())
        else if s == DEFAULT then old(View()).(defaults := old(defaults)[k := v])
        else old(View()).(sections := old(sections)[s := old(sections)[s][k := v]])
    {
      if !Accepts(v) {
        return true;
      }
      if s == DEFAULT {
        defaults := defaults[k := v];
      } else {
        sections := sections[s := sections[s][k := v]];
      }
      return false;
    }

    /** set, with the percent signs doubled if that is needed. */
    method SetEscaped(s: string, k: string, v: string)
      requires s == DEFAULT || s in sections
      modifies this
      ensures View() == if s == DEFAULT then old(View()).(defaults := old(defaults)[k := Stored(v)])
        else old(View()).(sections := old(sections)[s := old(sections)[s][k := Stored(v)]])
    {
      var valueError := Set(s, k, v);
      if valueError {
        DoublingIsAccepted(v);
        valueError := Set(s, k, Doubled(v));
      }
    }
  }

  /** ini_to_json */
  method IniToJson(c: ConfigParser) returns (out: JsonConfig)
    requires WellFormed(c.View())
    ensures out == ToJson(c.View())
  {
    out := map[DEFAULT := c.defaults];
    var todo := c.sections.Keys;
    while todo != {}
      invariant todo <= c.sections.Keys
      invariant out.Keys == {DEFAULT} + (c.sections.Keys - todo)
      invariant out[DEFAULT] == c.defaults
      invariant forall s :: s in c.sections && s !in todo ==> out[s] == Distinguished(c.View(), s)
      decreases todo
    {
      var s :| s in todo;
      var vals := SectionDifference(c, s);
      out := out[s := vals];
      todo := todo - {s};
    }
  }

  /** The items of a section, which include the defaults, without the items that are defaults. */
  method SectionDifference(c: ConfigParser, s: string) returns (vals: Section)
    requires s in c.sections
    ensures vals == Distinguished(c.View(), s)
  {
    var items := c.defaults + c.sections[s];
    vals := map[];
    var todo := items.Keys;
    while todo != {}
      invariant todo <= items.Keys
      invariant forall k :: k in vals <==> k in items && k !in todo && (k in c.defaults ==> items[k] != c.defaults[k])
      invariant forall k :: k in vals ==> vals[k] == items[k]
      decreases todo
    {
      var k :| k in todo;
      if k !in c.defaults || items[k] != c.defaults[k] {
        vals := vals[k := items[k]];
      }
      todo := todo - {k};
    }
  }

  /** json_to_ini for values that are strings. */
  method JsonToIni(j: JsonConfig) returns (out: ConfigParser)
    ensures fresh(out) && out.View() == ToIni(j)
  {
    hide Stored, Accepts;
    out := new ConfigParser();
    var todo := j.Keys;
    while todo != {}
      invariant fresh(out) && todo <= j.Keys
      invariant DEFAULT in j && DEFAULT !in todo ==> out.defaults == StoredSection(j[DEFAULT])
      invariant DEFAULT !in j || DEFAULT in todo ==> out.defaults == map[]
      invariant out.sections.Keys == j.Keys - todo - {DEFAULT}
      invariant forall s :: s in out.sections ==> out.sections[s] == StoredSection(j[s])
      decreases todo
    {
      var s :| s in todo;
      if s != DEFAULT {
        out.sections := out.sections[s := map[]];
      }
      SetAll(out, s, j[s]);
      todo := todo - {s};
    }
  }

  /** The values of one section. */
  method SetAll(out: ConfigParser, s: string, vals: Section)
    requires if s == DEFAULT then out.defaults == map[] else s in out.sections && out.sections[s] == map[]
    modifies out
    ensures out.View() == if s == DEFAULT then old(out.View()).(defaults := StoredSection(vals))
      else old(out.View()).(sections := old(out.sections)[s := StoredSection(vals)])
  {
    hide Stored, Accepts;
    var todo := vals.Keys;
    while todo != {}
      invariant todo <= vals.Keys
      invariant out.View() == if s == DEFAULT then old(out.View()).(defaults := StoredSection(vals - todo))
        else old(out.View()).(sections := old(out.sections)[s := StoredSection(vals - todo)])
      decreases todo
    {
      var k :| k in todo;
      out.SetEscaped(s, k, vals[k]);
      assert StoredSection(vals - (todo - {k})) == StoredSection(vals - todo)[k := Stored(vals[k])];
      todo := todo - {k};
    }
    assert vals - {} == vals;
  }

  // ---------- merge_and_delete_params ----------

  /** The section with the given values set and the keys marked for removal taken out. */
  function MergedSection(vals: Section, given: Section): Section {
    (map k | k in vals && k !in given :: vals[k]) + (map k | k in given && given[k] != REMOVE_KEY :: given[k])
  }

  function MergedJson(j: JsonConfig, params: JsonConfig): JsonConfig {
    map s | s in j.Keys + params.Keys ::
      if s in params then MergedSection(if s in j then j[s] else map[], params[s]) else j[s]
  }

  function Merged(c: Ini, params: JsonConfig): Ini {
    ToIni(MergedJson(ToJson(c), params))
  }

  /** The inner loop: one section of the parameters. */
  method MergeSection(vals: Section, given: Section) returns (r: Section)
    ensures r == MergedSection(vals, given)
  {
    r := vals;
    var todo := given.Keys;
    while todo != {}
      invariant todo <= given.Keys
      invariant forall k :: k in r <==>
        if k in given && k !in todo then given[k] != REMOVE_KEY else k in vals
      invariant forall k :: k in r ==> r[k] == if k in given && k !in todo then given[k] else vals[k]
      decreases todo
    {
      var k :| k in todo;
      if given[k] == REMOVE_KEY {
        r := r - {k};
      } else {
        r := r[k := given[k]];
      }
      todo := todo - {k};
    }
  }

  /** The outer loop. */
  method MergeJson(start: JsonConfig, params: JsonConfig) returns (j: JsonConfig)
    ensures j == MergedJson(start, params)
  {
    hide MergedSection;
    j := start;
    var todo := params.Keys;
    while todo != {}
      invariant todo <= params.Keys
      invariant j.Keys == start.Keys + (params.Keys - todo)
      invariant forall s :: s in j && (s !in params || s in todo) ==> j[s] == start[s]
      invariant forall s :: s in params && s !in todo ==>
        j[s] == MergedSection(if s in start then start[s] else map[], params[s])
      decreases todo
    {
      var s :| s in todo;
      var merged := MergeSection(if s in j then j[s] else map[], params[s]);
      j := j[s := merged];
      todo := todo - {s};
    }
  }

  /** Ini files, as ConfigParser reads and writes them. */
  class IniStore {
    var files: map<string, Ini>

    method MergeAndDeleteParams(params: JsonConfig, inifile: string) returns (missing: bool)
      requires forall f :: f in files ==> WellFormed(files[f])
      modifies this
      ensures missing <==> inifile !in old(files)
      ensures missing ==> files == old(files)
      ensures !missing ==> files == old(files)[inifile := Merged(old(files)[inifile], params)]
    {
      if inifile !in files {
        return true;
      }
      var parser := new ConfigParser();
      parser.defaults, parser.sections := files[inifile].defaults, files[inifile].sections;
      var j := IniToJson(parser);
      j := MergeJson(j, params);
      var written := JsonToIni(j);
      files := files[inifile := Ini(written.defaults, written.sections)];
      return false;
    }
  }

  // ---------- what is kept ----------

  function StoredOption(v: Option<string>): Option<string> {
    if v.None? then None else Some(Stored(v.value))
  }

  lemma StoredIsSame(v: string)
    ensures Stored(v) == v <==> Accepts(v)
  {
    DoublingIsAccepted(v);
  }

  /** To JSON and back: every effective value is kept although values equal to a default are dropped,
      exactly if ConfigParser accepts its percent signs. */
  lemma RoundTrip(c: Ini, s: string, k: string)
    requires WellFormed(c) && s in c.sections
    ensures var c' := ToIni(ToJson(c));
      && c'.sections.Keys == c.sections.Keys && c'.defaults.Keys == c.defaults.Keys
      && (k in c.defaults ==> c'.defaults[k] == Stored(c.defaults[k]))
      && Effective(c', s, k) == StoredOption(Effective(c, s, k))
      && (Effective(c', s, k) == Effective(c, s, k) <==> Effective(c, s, k).None? || Accepts(Effective(c, s, k).value))
  {
    if Effective(c, s, k).Some? {
      StoredIsSame(Effective(c, s, k).value);
    }
  }

  /** A merge outside of DEFAULT: a given key has the given value, a removed key falls back to its default,
      and every other key of every section keeps its effective value. */
  lemma MergeSetsExactly(c: Ini, params: JsonConfig, s: string, k: string)
    requires WellFormed(c) && DEFAULT !in params && s in c.sections.Keys + params.Keys
    ensures var c' := Merged(c, params);
      && WellFormed(c') && c'.sections.Keys == c.sections.Keys + params.Keys
      && c'.defaults.Keys == c.defaults.Keys && (k in c.defaults ==> c'.defaults[k] == Stored(c.defaults[k]))
      && Effective(c', s, k) ==
        if s in params && k in params[s] then
          if params[s][k] == REMOVE_KEY then (if k in c.defaults then Some(Stored(c.defaults[k])) else None)
          else Some(Stored(params[s][k]))
        else if s in c.sections then StoredOption(Effective(c, s, k))
        else if k in c.defaults then Some(Stored(c.defaults[k])) else None
  {
    hide Stored, MergedJson, ToJson, Distinguished, Effective, ToIni;
    MergedKeys(c, params);
    MergedValue(c, params, s, k);
    ToIniEffective(MergedJson(ToJson(c), params), s, k);
    ToIniDefaults(MergedJson(ToJson(c), params), k);
    if s in c.sections {
      DistinguishedOrDefault(c, s, k);
    }
  }

  lemma ToIniEffective(m: JsonConfig, s: string, k: string)
    requires DEFAULT in m && s in m && s != DEFAULT
    ensures s in ToIni(m).sections
    ensures Effective(ToIni(m), s, k) ==
      if k in m[s] then Some(Stored(m[s][k])) else if k in m[DEFAULT] then Some(Stored(m[DEFAULT][k])) else None
  {
  }

  lemma ToIniDefaults(m: JsonConfig, k: string)
    requires DEFAULT in m
    ensures ToIni(m).defaults.Keys == m[DEFAULT].Keys
    ensures k in m[DEFAULT] ==> ToIni(m).defaults[k] == Stored(m[DEFAULT][k])
  {
    hide Stored;
  }

  /** The defaults after any merge: a given one has the given value, a removed one is gone, and every other one
      keeps its value. */
  lemma DefaultsSetExactly(c: Ini, params: JsonConfig, k: string)
    ensures var c' := Merged(c, params);
      var given := if DEFAULT in params then params[DEFAULT] else map[];
      && (k in c'.defaults <==> if k in given then given[k] != REMOVE_KEY else k in c.defaults)
      && (k in c'.defaults ==> c'.defaults[k] == Stored(if k in given then given[k] else c.defaults[k]))
  {
    hide Stored, Distinguished;
    var m := MergedJson(ToJson(c), params);
    assert DEFAULT in m;
    ToIniDefaults(m, k);
  }

  lemma DistinguishedOrDefault(c: Ini, s: string, k: string)
    requires s in c.sections
    ensures var own := Distinguished(c, s);
      Effective(c, s, k) == if k in own then Some(own[k]) else if k in c.defaults then Some(c.defaults[k]) else None
  {
  }

  lemma MergedKeys(c: Ini, params: JsonConfig)
    requires WellFormed(c) && DEFAULT !in params
    ensures var m := MergedJson(ToJson(c), params);
      && m.Keys == {DEFAULT} + c.sections.Keys + params.Keys && m[DEFAULT] == c.defaults
      && ToIni(m).sections.Keys == c.sections.Keys + params.Keys
  {
    hide StoredSection, MergedSection, Distinguished;
    var m := MergedJson(ToJson(c), params);
    assert m.Keys == {DEFAULT} + c.sections.Keys + params.Keys;
  }

  lemma MergedValue(c: Ini, params: JsonConfig, s: string, k: string)
    requires WellFormed(c) && DEFAULT !in params && s in c.sections.Keys + params.Keys
    ensures var m := MergedJson(ToJson(c), params);
      var own := if s in c.sections then Distinguished(c, s) else map[];
      && s in m
      && (k in m[s] <==> if s in params && k in params[s] then params[s][k] != REMOVE_KEY else k in own)
      && (k in m[s] ==> m[s][k] == if s in params && k in params[s] then params[s][k] else own[k])
  {
    hide Distinguished;
    var j := ToJson(c);
    var own := if s in c.sections then Distinguished(c, s) else map[];
    assert (if s in j then j[s] else map[]) == own;
  }

  /** Why DEFAULT is different: a section's own value that equals the old default is lost on the way, so
      that a new default changes it, while any other own value stays. */
  lemma NewDefaultLeaks(c: Ini, k: string, v: string, s: string)
    requires WellFormed(c) && s in c.sections && v != REMOVE_KEY
    ensures Effective(Merged(c, map[DEFAULT := map[k := v]]), s, k) ==
      if k in c.sections[s] && (k in c.defaults ==> c.sections[s][k] != c.defaults[k]) then Some(Stored(c.sections[s][k]))
      else Some(Stored(v))
  {
    var j := ToJson(c);
    var m := MergedJson(j, map[DEFAULT := map[k := v]]);
    assert m[DEFAULT][k] == v;
    assert m[s] == j[s];
  }
}
