/** The loops of merge_params and extract_params, and what a merge means for a later extraction. */
module IniMerge {
  import opened Wrappers
  import opened IniLine
  import opened IniFile

  predicate GoodPairs(vals: map<string, string>) {
    forall k :: k in vals ==> GoodKey(k) && GoodValue(vals[k])
  }

  predicate GoodParams(params: Params) {
    forall s :: s in params ==> GoodSection(s) && GoodPairs(params[s])
  }

  // ---------- what the loop keeps ----------

  /** The part of params that is still to be written, after the lines so far. */
  ghost predicate Pending(params: Params, lines: seq<string>, unset: Params) {
    && (forall s :: s in unset ==> s in params && unset[s].Keys <= params[s].Keys)
    && (forall s :: s in params ==>
          (s in unset <==> Opened(lines, s) == 0 || (Opened(lines, s) == 1 && SectionAt(lines) == Some(s))))
    && (forall s, k :: s in unset && k in params[s] ==> (k in unset[s] <==> ValueOf(lines, s, k).None?))
    && (forall s, k :: s in unset && k in unset[s] ==> unset[s][k] == params[s][k])
  }

  /** The value that the lines written so far give a key. */
  ghost function Target(params: Params, lines: seq<string>, unset: Params, s: string, k: string): Option<string> {
    if s in params && k in params[s] && !Repeats(lines, s, k) then
      if s in unset && k in unset[s] then None else Some(params[s][k])
    else ValueOf(lines, s, k)
  }

  ghost predicate Written(params: Params, lines: seq<string>, unset: Params, out: seq<string>) {
    && SectionAt(out) == SectionAt(lines)
    && forall s, k :: ValueOf(out, s, k) == Target(params, lines, unset, s, k)
  }

  ghost predicate Merging(params: Params, lines: seq<string>, unset: Params, out: seq<string>) {
    Pending(params, lines, unset) && Written(params, lines, unset, out)
  }

  lemma NothingMerged(params: Params)
    ensures Merging(params, [], params, [])
  {
  }

  lemma RepeatedKeyHasValue(lines: seq<string>, s: string, k: string)
    ensures Repeats(lines, s, k) ==> ValueOf(lines, s, k).Some?
  {
    ValueMeansOccurs(lines, s, k);
  }

  lemma PairIsLine(k: string, v: string)
    requires GoodKey(k) && GoodValue(v)
    ensures IsLine(PairLine(k, v)) && Parse(PairLine(k, v)) == Pair(k, v)
  {
    PairReadsBack(k, v);
    assert Blank('\n');
    var line := PairLine(k, v);
    assert forall i :: 0 <= i < |k| ==> line[i] == k[i];
    assert forall i :: 0 <= i < |v| ==> line[|k| + 3 + i] == v[i];
    forall i | 0 <= i < |line| - 1 ensures line[i] != '\n' {
      if i < |k| {
      } else if i >= |k| + 3 {
        assert line[i] == v[i - |k| - 3];
      }
    }
  }

  lemma HeaderIsLine(s: string)
    requires GoodSection(s)
    ensures IsLine(HeaderLine(s)) && Parse(HeaderLine(s)) == Header(s)
  {
    HeaderReadsBack(s);
    assert Blank('\n');
    var line := HeaderLine(s);
    assert forall i :: 0 <= i < |s| ==> line[1 + i] == s[i];
    forall i | 0 <= i < |line| - 1 ensures line[i] != '\n' {
      if 1 <= i < |s| + 1 {
        assert line[i] == s[i - 1];
      }
    }
  }

  lemma HeaderIsGood(line: string)
    requires Parse(line).Header?
    ensures GoodSection(Parse(line).section)
  {
    var b1, b2, b3, rest := SectionMatchSplits(line);
  }

  /** A line that is copied. */
  lemma CopyStep(params: Params, lines: seq<string>, unset: Params, out: seq<string>, line: string)
    requires Merging(params, lines, unset, out) && !Parse(line).Header?
    requires SectionAt(lines).Some? && SectionAt(lines).value in unset && Parse(line).Pair? ==>
      Parse(line).key !in unset[SectionAt(lines).value]
    ensures Merging(params, lines + [line], unset, out + [line])
  {
    hide Parse, Repeats, ValueOf, Opened, SectionAt;
    Snoc(lines, line);
    Snoc(out, line);
    forall s, k ensures ValueOf(out + [line], s, k) == Target(params, lines + [line], unset, s, k) {
      RepeatsSnoc(lines, line, s, k);
      RepeatedKeyHasValue(lines, s, k);
      OpenSection(lines, s);
    }
  }

  lemma ReplaceKeepsPending(params: Params, lines: seq<string>, unset: Params, line: string, s0: string, k0: string)
    requires Pending(params, lines, unset)
    requires SectionAt(lines) == Some(s0) && s0 in unset && IsKey(line, k0) && k0 in unset[s0]
    ensures Pending(params, lines + [line], unset[s0 := unset[s0] - {k0}])
  {
    hide Parse, ValueOf, Opened, SectionAt;
    Snoc(lines, line);
  }

  /** A line whose value is replaced. */
  lemma ReplaceStep(params: Params, lines: seq<string>, unset: Params, out: seq<string>, line: string, s0: string,
      k0: string)
    requires Merging(params, lines, unset, out) && GoodParams(params)
    requires SectionAt(lines) == Some(s0) && s0 in unset && IsKey(line, k0) && k0 in unset[s0]
    ensures Merging(params, lines + [line], unset[s0 := unset[s0] - {k0}], out + [PairLine(k0, unset[s0][k0])])
  {
    hide Parse, Repeats, ValueOf, Opened, SectionAt, PairLine;
    var written := PairLine(k0, unset[s0][k0]);
    var unset' := unset[s0 := unset[s0] - {k0}];
    ReplaceKeepsPending(params, lines, unset, line, s0, k0);
    PairIsLine(k0, unset[s0][k0]);
    Snoc(lines, line);
    Snoc(out, written);
    forall s, k ensures ValueOf(out + [written], s, k) == Target(params, lines + [line], unset', s, k) {
      ReplacedValue(params, lines, unset, out, line, s0, k0, s, k);
    }
  }

  lemma ReplacedValue(params: Params, lines: seq<string>, unset: Params, out: seq<string>, line: string, s0: string,
      k0: string, s: string, k: string)
    requires Merging(params, lines, unset, out) && GoodParams(params)
    requires SectionAt(lines) == Some(s0) && s0 in unset && IsKey(line, k0) && k0 in unset[s0]
    ensures ValueOf(out + [PairLine(k0, unset[s0][k0])], s, k) ==
      Target(params, lines + [line], unset[s0 := unset[s0] - {k0}], s, k)
  {
    hide Repeats, ValueOf, Opened, SectionAt, PairLine;
    PairIsLine(k0, unset[s0][k0]);
    hide Parse;
    Snoc(lines, line);
    Snoc(out, PairLine(k0, unset[s0][k0]));
    RepeatsSnoc(lines, line, s, k);
    RepeatedKeyHasValue(lines, s, k);
    OpenSection(lines, s);
  }

  /** vals has been written at the end of the current section. */
  ghost predicate Filled(out: seq<string>, out': seq<string>, vals: map<string, string>) {
    && SectionAt(out') == SectionAt(out)
    && forall s, k :: ValueOf(out', s, k) ==
         if SectionAt(out) == Some(s) && k in vals then Some(vals[k]) else ValueOf(out, s, k)
  }

  lemma FilledThen(out: seq<string>, out1: seq<string>, vals: map<string, string>, k0: string, v0: string)
    requires Filled(out, out1, vals) && GoodKey(k0) && GoodValue(v0)
    ensures Filled(out, out1 + [PairLine(k0, v0)], vals[k0 := v0])
  {
    hide Parse, ValueOf, SectionAt, PairLine;
    PairIsLine(k0, v0);
    Snoc(out1, PairLine(k0, v0));
  }

  lemma FilledThenBlank(out: seq<string>, out1: seq<string>, vals: map<string, string>)
    requires Filled(out, out1, vals)
    ensures Filled(out, out1 + ["\n"], vals)
  {
    hide Parse, ValueOf, SectionAt;
    BlankLineIsOther();
    Snoc(out1, "\n");
  }

  predicate SetsOneOf(vals: map<string, string>, line: string) {
    exists k :: k in vals && line == PairLine(k, vals[k])
  }

  /** The lines that set vals: one for every key. */
  ghost predicate PairTail(vals: map<string, string>, tail: seq<string>) {
    && (tail == [] <==> vals == map[])
    && (forall i :: 0 <= i < |tail| ==> IsLine(tail[i]) && SetsOneOf(vals, tail[i]))
    && forall i, j :: 0 <= i < j < |tail| ==> tail[i] != tail[j]
  }

  lemma PairTailThen(vals: map<string, string>, tail: seq<string>, k0: string, v0: string)
    requires PairTail(vals, tail) && GoodPairs(vals) && k0 !in vals && GoodKey(k0) && GoodValue(v0)
    ensures PairTail(vals[k0 := v0], tail + [PairLine(k0, v0)])
  {
    hide Parse, PairLine, IsLine, GoodKey, GoodValue;
    PairIsLine(k0, v0);
    var vals', tail' := vals[k0 := v0], tail + [PairLine(k0, v0)];
    assert k0 in vals';
    forall i | 0 <= i < |tail'|
      ensures IsLine(tail'[i]) && SetsOneOf(vals', tail'[i])
      ensures i < |tail| ==> tail'[i] != PairLine(k0, v0)
    {
      if i < |tail| {
        var k :| k in vals && tail[i] == PairLine(k, vals[k]);
        PairIsLine(k, vals[k]);
        assert k in vals' && vals'[k] == vals[k];
      } else {
        assert tail'[i] == PairLine(k0, vals'[k0]);
      }
    }
  }

  /** The keys of a section that are not in the file, in the arbitrary order of a dictionary. */
  method WritePairs(vals: map<string, string>, out: seq<string>) returns (r: seq<string>, ghost tail: seq<string>)
    ensures r == out + tail
    ensures GoodPairs(vals) ==> Filled(out, r, vals) && PairTail(vals, tail)
  {
    hide Parse, ValueOf, SectionAt, PairLine, PairTail, Filled, GoodKey, GoodValue;
    r, tail := out, [];
    var todo := vals.Keys;
    ghost var done: map<string, string> := map[];
    NothingFilled(out);
    while todo != {}
      invariant todo <= vals.Keys && done == vals - todo && r == out + tail
      invariant GoodPairs(vals) ==> Filled(out, r, done) && PairTail(done, tail)
      decreases todo
    {
      var k :| k in todo;
      if GoodPairs(vals) {
        FilledThen(out, r, done, k, vals[k]);
        PairTailThen(done, tail, k, vals[k]);
      }
      r, tail := r + [PairLine(k, vals[k])], tail + [PairLine(k, vals[k])];
      todo := todo - {k};
      done := done[k := vals[k]];
    }
    assert done == vals;
  }

  lemma NothingFilled(out: seq<string>)
    ensures Filled(out, out, map[]) && PairTail(map[], [])
  {
  }

  /** A header: what is left of the current section is written first. */
  lemma HeaderStep(params: Params, lines: seq<string>, unset: Params, out: seq<string>, filled: seq<string>,
      line: string)
    requires Merging(params, lines, unset, out) && Parse(line).Header?
    requires var s := SectionAt(lines);
      if s.Some? && s.value in unset then Filled(out, filled, unset[s.value]) else filled == out
    ensures Merging(params, lines + [line], if SectionAt(lines).Some? then unset - {SectionAt(lines).value} else unset,
                    filled + [HeaderLine(Parse(line).section)])
  {
    hide Parse, Repeats, ValueOf, Opened, SectionAt, HeaderLine;
    var h := Parse(line).section;
    var unset' := if SectionAt(lines).Some? then unset - {SectionAt(lines).value} else unset;
    HeaderIsGood(line);
    HeaderIsLine(h);
    Snoc(lines, line);
    Snoc(filled, HeaderLine(h));
    forall s ensures SectionAt(lines) == Some(s) ==> Opened(lines, s) > 0 {
      OpenSection(lines, s);
    }
    HeaderKeepsPending(params, lines, unset, line);
    forall s, k ensures ValueOf(filled + [HeaderLine(h)], s, k) == Target(params, lines + [line], unset', s, k) {
      RepeatsSnoc(lines, line, s, k);
      RepeatedKeyHasValue(lines, s, k);
    }
  }

  lemma HeaderKeepsPending(params: Params, lines: seq<string>, unset: Params, line: string)
    requires Pending(params, lines, unset) && Parse(line).Header?
    ensures Pending(params, lines + [line], if SectionAt(lines).Some? then unset - {SectionAt(lines).value} else unset)
  {
    hide Parse, ValueOf, Opened, SectionAt;
    Snoc(lines, line);
    forall s ensures SectionAt(lines) == Some(s) ==> Opened(lines, s) > 0 {
      OpenSection(lines, s);
    }
  }

  // ---------- the end of the file ----------

  /** The sections in todo are still to be written, everything else is as it should be. */
  ghost predicate Finishing(params: Params, lines: seq<string>, todo: set<string>, out: seq<string>) {
    && todo <= params.Keys
    && (forall s :: s in todo ==> Opened(lines, s) == 0)
    && forall s, k :: ValueOf(out, s, k) == if s in todo && k in params[s] then None else Final(params, lines, s, k)
  }

  /** What a merge makes of a key. */
  ghost function Final(params: Params, lines: seq<string>, s: string, k: string): Option<string> {
    if s in params && k in params[s] && !Repeats(lines, s, k) then Some(params[s][k]) else ValueOf(lines, s, k)
  }

  /** The sections that are left once the current one has been completed. */
  function Unopened(lines: seq<string>, unset: Params): set<string> {
    if SectionAt(lines).Some? then unset.Keys - {SectionAt(lines).value} else unset.Keys
  }

  lemma EndOfLines(params: Params, lines: seq<string>, unset: Params, out: seq<string>, filled: seq<string>)
    requires Merging(params, lines, unset, out)
    requires var s := SectionAt(lines);
      if s.Some? && s.value in unset then Filled(out, filled, unset[s.value]) else filled == out
    ensures Finishing(params, lines, Unopened(lines, unset), filled)
    ensures forall s :: s in unset && SectionAt(lines) != Some(s) ==> unset[s] == params[s]
  {
    hide Repeats, Parse;
    forall s | s in unset && SectionAt(lines) != Some(s) ensures unset[s] == params[s] {
      NeverOpened(lines, s);
    }
    forall s, k ensures Repeats(lines, s, k) ==> ValueOf(lines, s, k).Some? {
      RepeatedKeyHasValue(lines, s, k);
    }
  }

  lemma {:induction false} NeverOpened(lines: seq<string>, s: string)
    ensures Opened(lines, s) == 0 ==> SectionAt(lines) != Some(s) && forall k :: ValueOf(lines, s, k).None?
  {
    hide Parse;
    if lines != [] {
      NeverOpened(lines[..|lines| - 1], s);
    }
  }

  lemma SectionStep(params: Params, lines: seq<string>, todo: set<string>, out: seq<string>, s0: string,
      filled: seq<string>)
    requires Finishing(params, lines, todo, out) && s0 in todo && GoodSection(s0)
    requires Filled(out + [HeaderLine(s0)], filled, params[s0])
    ensures Finishing(params, lines, todo - {s0}, filled)
  {
    hide Parse, Repeats, ValueOf, Opened, SectionAt, HeaderLine;
    HeaderIsLine(s0);
    Snoc(out, HeaderLine(s0));
    NeverOpened(lines, s0);
    forall k ensures !Repeats(lines, s0, k) {
      RepeatedKeyHasValue(lines, s0, k);
    }
  }

  lemma EmptySectionStep(params: Params, lines: seq<string>, todo: set<string>, out: seq<string>, s0: string)
    requires Finishing(params, lines, todo, out) && s0 in todo && params[s0] == map[]
    ensures Finishing(params, lines, todo - {s0}, out)
  {
    hide Repeats, ValueOf, Opened;
  }
}
