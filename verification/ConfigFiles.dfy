/** merge_params and extract_params on a file system, and what they do to each other. */
module ConfigFiles {
  import opened Wrappers
  import opened IniLine
  import opened IniFile
  import opened IniMerge
  import opened IniGlue
  import opened IniLayout
  import opened IniTail

  class Disk {
    var files: map<string, string>

    /** merge_params. A missing file is created first. No text that has been read holds a carriage return,
        because line ends are translated. */
    method MergeParams(params: Params, inifile: string)
      modifies this
      ensures files.Keys == old(files).Keys + {inifile}
      ensures forall f :: f in old(files) && f != inifile ==> files[f] == old(files)[f]
      ensures var before := if inifile in old(files) then old(files)[inifile] else "";
        GoodParams(params) && (Spoils(params, ReadLines(before)) ==> '\r' !in before) ==>
          MergeResult(params, before, files[inifile])
    {
      if inifile !in files {
        files := files[inifile := ""];
      }
      hide MergeResult, GoodParams, Spoils, ReadLines;
      var merged := Rewrite(params, files[inifile]);
      files := files[inifile := merged];
    }

    /** extract_params; None if there is no such file. */
    method ExtractParams(params: Params, inifile: string, start: Params) returns (cfg: Option<Params>)
      ensures cfg.Some? <==> inifile in files
      ensures cfg.Some? ==> Extraction(params, ReadLines(files[inifile]), start, cfg.value)
    {
      if inifile !in files {
        return None;
      }
      var found := ExtractLines(params, ReadLines(files[inifile]), start);
      return Some(found);
    }
  }

  // ---------- merge_params ----------

  /** All keys are as they should be and all other lines as they were, unless the last line is spoiled, and
      then some key is lost, and only the other lines are as they were. */
  ghost predicate MergeResult(params: Params, before: string, after: string) {
    var lines := ReadLines(before);
    if Spoils(params, lines) then
      && (exists s, k :: Lost(params, before, after, s, k))
      && PreservedBut(params, lines[..|lines| - 1], lines[|lines| - 1], ReadLines(after))
    else Merged(params, before, after) && Preserved(params, lines, ReadLines(after))
  }

  /** The new text of the file. */
  method Rewrite(params: Params, before: string) returns (after: string)
    ensures GoodParams(params) && (Spoils(params, ReadLines(before)) ==> '\r' !in before) ==>
      MergeResult(params, before, after)
  {
    hide Spoils, Merged, Lost, GoodParams, Finishing, Merging, Laid, Shape, RestTail, SectionTail, Concat, ReadLines;
    hide PartOf, SectionAt, MergeResult;
    var lines := ReadLines(before);
    var out, unset, head, left, rest := RewriteLines(params, lines);
    var written, tail := WriteSections(unset, out, params, lines);
    after := Concat(written);
    if GoodParams(params) && (Spoils(params, lines) ==> '\r' !in before) {
      assert written == head + (rest + tail);
      WrittenResult(params, before, left, head, rest, tail);
    }
  }

  lemma WrittenResult(params: Params, before: string, unset: Params, head: seq<string>, rest: seq<string>,
      tail: seq<string>)
    requires GoodParams(params) && Parts(params, ReadLines(before), unset, head, rest, tail)
    requires Finishing(params, ReadLines(before), {}, head + (rest + tail))
    requires Spoils(params, ReadLines(before)) ==> '\r' !in before
    ensures MergeResult(params, before, Concat(head + (rest + tail)))
  {
    SpoilsSome(params, ReadLines(before));
    hide Parts, Finishing, Lost, Spoils, Merged, Preserved, PreservedBut;
    if Spoils(params, ReadLines(before)) {
      var s, k := MergeFails(params, before, unset, head, rest, tail);
      SpoiledPreserves(params, before, unset, head, rest, tail);
    } else {
      MergeSucceeds(params, before, unset, head, rest, tail);
      MergePreserves(params, before, unset, head, rest, tail);
    }
  }

  lemma SpoilsSome(params: Params, lines: seq<string>)
    ensures Spoils(params, lines) ==> lines != []
  {
  }

  /** The loop over the lines of the file, and the end of its last section. */
  method RewriteLines(params: Params, lines: seq<string>)
    returns (out: seq<string>, unset: Params, ghost head: seq<string>, ghost left: Params, ghost rest: seq<string>)
    ensures out == head + rest
    ensures unset.Keys == Unopened(lines, left)
    ensures GoodParams(params) ==>
      && Merging(params, lines, left, head) && Laid(params, lines, head) && Shape(params, lines, left, head)
      && RestTail(params, lines, left, rest)
      && Finishing(params, lines, unset.Keys, out)
      && PartOf(unset, params)
  {
    hide Parse, Repeats, ValueOf, Opened, SectionAt, HeaderLine, PairLine, Merging, Filled, Finishing, IsLine;
    hide Shape, RestTail, GoodParams, GoodPairs, Laid;
    var section: Option<string> := None;
    out, unset := [], params;
    NothingMerged(params);
    NoLines(params, params);
    NothingLaid(params);
    assert lines[..0] == [];
    EmptyLines();
    for i := 0 to |lines|
      invariant section == SectionAt(lines[..i])
      invariant GoodParams(params) ==>
        Merging(params, lines[..i], unset, out) && Laid(params, lines[..i], out) && Shape(params, lines[..i], unset, out)
    {
      assert lines[..i + 1] == lines[..i] + [lines[i]];
      Snoc(lines[..i], lines[i]);
      out, unset := RewriteLine(params, lines[..i], lines[i], section, out, unset);
      if Parse(lines[i]).Header? {
        section := Some(Parse(lines[i]).section);
      }
    }
    assert lines[..|lines|] == lines;
    head, left := out, unset;
    out, rest := WriteRest(section, unset, out);
    if GoodParams(params) {
      LeftOver(params, lines, left, head, rest);
      EndOfLines(params, lines, left, head, out);
      UnsetIsPart(params, lines, left, head);
    }
    if section.Some? {
      unset := unset - {section.value};
    }
  }

  /** Some of the sections of params. */
  ghost predicate PartOf(unset: Params, params: Params) {
    forall s :: s in unset ==> s in params && unset[s] == params[s]
  }

  lemma UnsetIsPart(params: Params, lines: seq<string>, unset: Params, out: seq<string>)
    requires Merging(params, lines, unset, out)
    ensures unset.Keys <= params.Keys
  {
    hide Written, ValueOf, Opened, SectionAt;
  }

  lemma NoLines(params: Params, unset: Params)
    ensures Shape(params, [], unset, [])
  {
  }

  lemma EmptyLines()
    ensures SectionAt([]) == None
  {
  }

  /** What is written at the end of a section, in terms of the lines so far. */
  lemma LeftOver(params: Params, lines: seq<string>, unset: Params, out: seq<string>, rest: seq<string>)
    requires GoodParams(params) && Merging(params, lines, unset, out) && Leftover(SectionAt(lines), unset, out, rest)
    ensures RestTail(params, lines, unset, rest)
    ensures var s := SectionAt(lines);
      if s.Some? && s.value in unset then Filled(out, out + rest, unset[s.value]) else out + rest == out
  {
    hide Written, Filled, ValueOf, SectionAt, Opened, GoodKey, GoodValue, PairTail;
    OpenIsPending(params, lines, unset);
  }

  /** The keys left over in the current section, with an empty line after them. */
  ghost predicate Leftover(section: Option<string>, unset: Params, out: seq<string>, rest: seq<string>) {
    if section.Some? && section.value in unset then
      GoodPairs(unset[section.value]) ==>
        && rest != [] && rest[|rest| - 1] == "\n"
        && PairTail(unset[section.value], rest[..|rest| - 1])
        && Filled(out, out + rest, unset[section.value])
    else rest == []
  }

  method WriteRest(section: Option<string>, unset: Params, out: seq<string>)
    returns (filled: seq<string>, ghost rest: seq<string>)
    ensures filled == out + rest && Leftover(section, unset, out, rest)
  {
    hide Filled, PairTail, GoodPairs;
    filled, rest := out, [];
    if section.Some? && section.value in unset {
      filled, rest := WritePairs(unset[section.value], out);
      if GoodPairs(unset[section.value]) {
        FilledThenBlank(out, filled, unset[section.value]);
      }
      filled, rest := filled + ["\n"], rest + ["\n"];
      assert filled == out + rest && rest[..|rest| - 1] + ["\n"] == rest;
    }
  }

  /** The body of the loop. */
  method RewriteLine(params: Params, ghost lines: seq<string>, line: string, section: Option<string>,
      out: seq<string>, unset: Params)
      returns (out': seq<string>, unset': Params)
    requires section == SectionAt(lines)
    ensures (GoodParams(params) && Merging(params, lines, unset, out) && Laid(params, lines, out) &&
             Shape(params, lines, unset, out)) ==>
      && Merging(params, lines + [line], unset', out')
      && Laid(params, lines + [line], out')
      && Shape(params, lines + [line], unset', out')
  {
    hide Parse, Repeats, ValueOf, Opened, SectionAt, HeaderLine, PairLine, Filled, IsLine, Written, Shape, Leftover;
    hide GoodParams, Laid;
    ghost var good := GoodParams(params) && Merging(params, lines, unset, out) && Laid(params, lines, out) &&
      Shape(params, lines, unset, out);
    match Parse(line)
    case Header(s) =>
      var filled, rest := WriteRest(section, unset, out);
      if good {
        HeaderKeepsAll(params, lines, unset, out, rest, line);
      }
      unset' := if section.Some? then unset - {section.value} else unset;
      out' := filled + [HeaderLine(s)];
    case Pair(k, _) =>
      if section.Some? && section.value in unset && k in unset[section.value] {
        if good {
          ReplaceKeepsAll(params, lines, unset, out, line, section.value, k);
        }
        out' := out + [PairLine(k, unset[section.value][k])];
        unset' := unset[section.value := unset[section.value] - {k}];
      } else {
        if good {
          CopyKeepsAll(params, lines, unset, out, line);
        }
        out', unset' := out + [line], unset;
      }
    case Other =>
      if good {
        CopyKeepsAll(params, lines, unset, out, line);
      }
      out', unset' := out + [line], unset;
  }

  lemma HeaderKeepsAll(params: Params, lines: seq<string>, unset: Params, out: seq<string>, rest: seq<string>,
      line: string)
    requires GoodParams(params) && Merging(params, lines, unset, out) && Shape(params, lines, unset, out)
    requires Laid(params, lines, out)
    requires Parse(line).Header? && Leftover(SectionAt(lines), unset, out, rest)
    ensures var unset' := if SectionAt(lines).Some? then unset - {SectionAt(lines).value} else unset;
      var out' := out + rest + [HeaderLine(Parse(line).section)];
      && Merging(params, lines + [line], unset', out')
      && Laid(params, lines + [line], out')
      && Shape(params, lines + [line], unset', out')
  {
    hide Repeats, ValueOf, Opened, SectionAt, HeaderLine, Filled, Written, Shape, Leftover, RestTail, GoodParams, Parse;
    hide Laid;
    assert IsLine("\n");
    hide IsLine;
    LeftOver(params, lines, unset, out, rest);
    HeaderLaid(params, lines, unset, out, rest, line);
    HeaderStep(params, lines, unset, out, out + rest, line);
    HeaderIsGood(line);
    HeaderIsLine(Parse(line).section);
    if AllLines(lines) {
      ShapeOfLines(params, lines, unset, out);
      RestIsLines(params, lines, unset, rest);
    }
    ShapeWritten(params, lines, unset, if SectionAt(lines).Some? then unset - {SectionAt(lines).value} else unset,
      out + rest + [HeaderLine(Parse(line).section)], line);
  }

  lemma HeaderLaid(params: Params, lines: seq<string>, unset: Params, out: seq<string>, rest: seq<string>, line: string)
    requires GoodParams(params) && Merging(params, lines, unset, out) && Laid(params, lines, out)
    requires Parse(line).Header? && RestTail(params, lines, unset, rest)
    ensures Laid(params, lines + [line], out + rest + [HeaderLine(Parse(line).section)])
  {
    hide Written, RestTail, Laid, HeaderLine, SectionAt, ForeignFrom, Headers, GoodSection;
    var section, header := SectionAt(lines), [HeaderLine(Parse(line).section)];
    HeaderIsGood(line);
    assert !Copied(params, lines, line) && !Foreign(params, section, line);
    hide Parse, Copied, Foreign, GoodParams;
    SameSectionAt(params, lines, unset, out);
    RestAdds(params, lines, unset, rest);
    ForeignAppend(params, section, rest, header);
    HeadersAppend(rest, header);
    HeaderNotForeign(params, NextAll(section, rest), Parse(line).section);
    assert out + rest + header == out + (rest + header);
    HeaderIsLine(Parse(line).section);
    SamePlace(NextAll(section, rest), section, HeaderLine(Parse(line).section), line);
    LaidWritten(params, lines, out, line, rest, HeaderLine(Parse(line).section));
  }

  lemma SamePlace(s1: Option<string>, s2: Option<string>, a: string, b: string)
    requires Parse(a) == Parse(b) && Parse(a).Header?
    ensures PlaceOf(s1, a) == PlaceOf(s2, b)
  {
    hide Parse;
  }

  lemma RestIsLines(params: Params, lines: seq<string>, unset: Params, rest: seq<string>)
    requires RestTail(params, lines, unset, rest)
    ensures AllLines(rest)
  {
    assert IsLine("\n");
    hide IsLine, PairLine, OpenOnce;
    if rest != [] {
      var pairs := rest[..|rest| - 1];
      assert forall i :: 0 <= i < |pairs| ==> rest[i] == pairs[i];
    }
  }

  lemma ReplaceKeepsAll(params: Params, lines: seq<string>, unset: Params, out: seq<string>, line: string, s: string,
      k: string)
    requires GoodParams(params) && Merging(params, lines, unset, out) && Shape(params, lines, unset, out)
    requires Laid(params, lines, out)
    requires SectionAt(lines) == Some(s) && s in unset && IsKey(line, k) && k in unset[s]
    ensures var unset' := unset[s := unset[s] - {k}];
      var out' := out + [PairLine(k, unset[s][k])];
      && Merging(params, lines + [line], unset', out')
      && Laid(params, lines + [line], out')
      && Shape(params, lines + [line], unset', out')
  {
    ReplaceLaid(params, lines, unset, out, line, s, k);
    hide Laid;
    hide Repeats, ValueOf, Opened, SectionAt, PairLine, Written, Shape, IsLine, Parse;
    ReplaceStep(params, lines, unset, out, line, s, k);
    PairIsLine(k, unset[s][k]);
    if AllLines(lines) {
      ShapeOfLines(params, lines, unset, out);
    }
    ShapeWritten(params, lines, unset, unset[s := unset[s] - {k}], out + [PairLine(k, unset[s][k])], line);
  }

  lemma ReplaceLaid(params: Params, lines: seq<string>, unset: Params, out: seq<string>, line: string, s: string,
      k: string)
    requires GoodParams(params) && Merging(params, lines, unset, out) && Laid(params, lines, out)
    requires SectionAt(lines) == Some(s) && s in unset && IsKey(line, k) && k in unset[s]
    ensures Laid(params, lines + [line], out + [PairLine(k, unset[s][k])])
  {
    OpenIsPending(params, lines, unset);
    hide Laid, ForeignFrom, Headers, SectionAt, Parse, ValueOf, Opened, Written, PairLine;
    var written := PairLine(k, unset[s][k]);
    PairIsLine(k, unset[s][k]);
    SameSectionAt(params, lines, unset, out);
    OneLine(params, SectionAt(lines), written);
    assert NextAll(SectionAt(lines), []) == SectionAt(lines) && [] + [written] == [written];
    LaidWritten(params, lines, out, line, [], written);
  }

  lemma CopyKeepsAll(params: Params, lines: seq<string>, unset: Params, out: seq<string>, line: string)
    requires Merging(params, lines, unset, out) && Laid(params, lines, out) && Shape(params, lines, unset, out)
    requires !Parse(line).Header?
    requires SectionAt(lines).Some? && SectionAt(lines).value in unset && Parse(line).Pair? ==>
      Parse(line).key !in unset[SectionAt(lines).value]
    ensures Merging(params, lines + [line], unset, out + [line]) && Laid(params, lines + [line], out + [line])
    ensures Shape(params, lines + [line], unset, out + [line])
  {
    hide Merging, Shape, IsLine, Parse, SectionAt, Laid;
    SameSectionAt(params, lines, unset, out);
    LaidCopy(params, lines, out, line);
    CopyStep(params, lines, unset, out, line);
    if AllLines(lines) {
      ShapeOfLines(params, lines, unset, out);
    }
    ShapeCopied(params, lines, unset, out, line);
  }

  /** The sections that the file does not have. */
  method WriteSections(unset: Params, out: seq<string>, ghost params: Params, ghost lines: seq<string>)
    returns (r: seq<string>, ghost tail: seq<string>)
    ensures r == out + tail
    ensures GoodParams(params) && Finishing(params, lines, unset.Keys, out) && PartOf(unset, params) ==>
      Finishing(params, lines, {}, r) && SectionTail(params, unset.Keys, tail)
  {
    hide Repeats, ValueOf, Opened, HeaderLine, PairLine, Filled, PairTail, Finishing, SectionTail, GoodParams;
    ghost var good := GoodParams(params) && Finishing(params, lines, unset.Keys, out) && PartOf(unset, params);
    r, tail := out, [];
    var todo := unset.Keys;
    NoSections(params);
    assert unset.Keys - todo == {};
    while todo != {}
      invariant todo <= unset.Keys && r == out + tail
      invariant good ==> Finishing(params, lines, todo, r) && SectionTail(params, unset.Keys - todo, tail)
      decreases todo
    {
      var s :| s in todo;
      assert unset.Keys - (todo - {s}) == unset.Keys - todo + {s};
      if unset[s] != map[] {
        var filled, pairs := WritePairs(unset[s], r + [HeaderLine(s)]);
        if good {
          SectionKeepsAll(params, lines, todo, r, s, filled, pairs, unset.Keys - todo, tail);
        }
        r, tail := filled, tail + [HeaderLine(s)] + pairs;
      } else if good {
        EmptySectionKeepsAll(params, lines, todo, r, s, unset.Keys - todo, tail);
      }
      todo := todo - {s};
    }
    assert unset.Keys - todo == unset.Keys;
  }

  lemma SectionKeepsAll(params: Params, lines: seq<string>, todo: set<string>, out: seq<string>, s: string,
      filled: seq<string>, pairs: seq<string>, done: set<string>, tail: seq<string>)
    requires GoodParams(params) && Finishing(params, lines, todo, out) && SectionTail(params, done, tail)
    requires s in todo && s in params && s !in done && params[s] != map[]
    requires GoodPairs(params[s]) ==> Filled(out + [HeaderLine(s)], filled, params[s]) && PairTail(params[s], pairs)
    ensures Finishing(params, lines, todo - {s}, filled)
    ensures SectionTail(params, done + {s}, tail + [HeaderLine(s)] + pairs)
  {
    hide Finishing, SectionTail, Filled, PairTail, HeaderLine;
    SectionStep(params, lines, todo, out, s, filled);
    SectionTailThen(params, done, tail, s, pairs);
  }

  lemma EmptySectionKeepsAll(params: Params, lines: seq<string>, todo: set<string>, out: seq<string>, s: string,
      done: set<string>, tail: seq<string>)
    requires Finishing(params, lines, todo, out) && SectionTail(params, done, tail)
    requires s in todo && s in params && params[s] == map[]
    ensures Finishing(params, lines, todo - {s}, out)
    ensures SectionTail(params, done + {s}, tail)
  {
    hide Finishing, SectionTail;
    EmptySectionStep(params, lines, todo, out, s);
    EmptySectionThen(params, done, tail, s);
  }

  // ---------- extract_params ----------

  /** cfg is start, overridden by every wanted key that has a value in the lines. */
  ghost predicate Extraction(params: Params, lines: seq<string>, start: Params, cfg: Params) {
    && (forall s, k :: ValueIn(cfg, s, k) ==
          if s in params && k in params[s] && ValueOf(lines, s, k).Some? then ValueOf(lines, s, k)
          else ValueIn(start, s, k))
    && (forall s :: s in cfg && cfg[s] == map[] ==> s in start)
  }

  function ValueIn(cfg: Params, s: string, k: string): Option<string> {
    if s in cfg && k in cfg[s] then Some(cfg[s][k]) else None
  }

  lemma NothingExtracted(params: Params, start: Params)
    ensures Extraction(params, [], start, start)
  {
  }

  method ExtractLines(params: Params, lines: seq<string>, start: Params) returns (cfg: Params)
    ensures Extraction(params, lines, start, cfg)
  {
    hide Parse, SectionAt, Extraction;
    cfg := start;
    NothingExtracted(params, start);
    var section: Option<string> := None;
    assert lines[..0] == [];
    EmptyLines();
    for i := 0 to |lines|
      invariant section == SectionAt(lines[..i])
      invariant Extraction(params, lines[..i], start, cfg)
    {
      assert lines[..i + 1] == lines[..i] + [lines[i]];
      section, cfg := ExtractLine(params, lines[..i], lines[i], section, start, cfg);
    }
    assert lines[..|lines|] == lines;
  }

  function Put(cfg: Params, section: string, key: string, value: string): (r: Params)
    ensures forall s, k :: ValueIn(r, s, k) == if s == section && k == key then Some(value) else ValueIn(cfg, s, k)
    ensures forall s :: s in r && r[s] == map[] ==> s in cfg && cfg[s] == map[]
  {
    var pairs := if section in cfg then cfg[section][key := value] else map[key := value];
    assert key in pairs;
    cfg[section := pairs]
  }

  /** The body of the loop. */
  method ExtractLine(params: Params, ghost lines: seq<string>, line: string, section: Option<string>,
      ghost start: Params, cfg: Params)
      returns (section': Option<string>, cfg': Params)
    requires section == SectionAt(lines) && Extraction(params, lines, start, cfg)
    ensures section' == SectionAt(lines + [line]) && Extraction(params, lines + [line], start, cfg')
  {
    hide Parse, SectionAt, ValueOf, Put, ValueIn, Opened;
    Snoc(lines, line);
    section', cfg' := section, cfg;
    match Parse(line)
    case Header(s) => section' := Some(s);
    case Pair(k, v) =>
      if section.Some? && section.value in params && k in params[section.value] {
        cfg' := Put(cfg, section.value, k, v);
      }
    case Other =>
  }

  // ---------- what a merge means ----------

  /** After a merge, a key of params has its value exactly if it does not repeat in the file or the file
      already gave it that value: a value that is replaced is otherwise hidden by the later line. */
  lemma MergeSetsKey(params: Params, before: string, after: string, s: string, k: string)
    requires Merged(params, before, after) && s in params && k in params[s]
    ensures ValueOf(ReadLines(after), s, k) == Some(params[s][k]) <==>
      !Repeats(ReadLines(before), s, k) || ValueOf(ReadLines(before), s, k) == Some(params[s][k])
  {
  }

  /** Extracting params after a merge gives params back exactly if the last line was not spoiled and every
      key did not repeat or already had its value. */
  lemma ExtractAfterMerge(params: Params, before: string, after: string, cfg: Params)
    requires MergeResult(params, before, after) && Extraction(params, ReadLines(after), map[], cfg)
    ensures cfg == (map s | s in params && params[s] != map[] :: params[s]) <==>
      && !Spoils(params, ReadLines(before))
      && forall s, k :: s in params && k in params[s] ==>
           !Repeats(ReadLines(before), s, k) || ValueOf(ReadLines(before), s, k) == Some(params[s][k])
  {
    hide Repeats, ValueOf, ReadLines, Spoils;
    ExtractedIffValues(params, after, cfg);
    if Spoils(params, ReadLines(before)) {
      var s, k :| Lost(params, before, after, s, k);
    } else {
      assert forall s, k :: ValueOf(ReadLines(after), s, k) == Final(params, ReadLines(before), s, k);
    }
  }

  /** Extraction gives params, without empty sections, exactly if every key has its value in the file. */
  lemma ExtractedIffValues(params: Params, after: string, cfg: Params)
    requires Extraction(params, ReadLines(after), map[], cfg)
    ensures cfg == (map s | s in params && params[s] != map[] :: params[s]) <==>
      forall s, k :: s in params && k in params[s] ==> ValueOf(ReadLines(after), s, k) == Some(params[s][k])
  {
    hide ValueOf, ReadLines;
    var wanted := map s | s in params && params[s] != map[] :: params[s];
    if cfg == wanted {
      forall s, k | s in params && k in params[s] ensures ValueOf(ReadLines(after), s, k) == Some(params[s][k]) {
        assert s in wanted && ValueIn(cfg, s, k) == Some(params[s][k]);
      }
    } else if forall s, k :: s in params && k in params[s] ==> ValueOf(ReadLines(after), s, k) == Some(params[s][k]) {
      AllExtracted(params, after, cfg);
    }
  }

  lemma AllExtracted(params: Params, after: string, cfg: Params)
    requires Extraction(params, ReadLines(after), map[], cfg)
    requires forall s, k :: s in params && k in params[s] ==> ValueOf(ReadLines(after), s, k) == Some(params[s][k])
    ensures cfg == map s | s in params && params[s] != map[] :: params[s]
  {
    hide ValueOf, ReadLines;
    forall s, k | s in params && k in params[s] ensures ValueIn(cfg, s, k) == Some(params[s][k]) {
      assert ValueOf(ReadLines(after), s, k).Some?;
    }
    forall s ensures s in cfg <==> s in params && params[s] != map[] {
      if s in cfg {
        SomeKey(cfg[s]);
        assert forall k :: k in cfg[s] ==> ValueIn(cfg, s, k).Some?;
      }
      if s in params {
        SomeKey(params[s]);
        assert forall k :: k in params[s] ==> ValueIn(cfg, s, k).Some?;
      }
    }
    forall s | s in cfg ensures cfg[s] == params[s] {
      forall k ensures k in cfg[s] <==> k in params[s] {
        assert ValueIn(cfg, s, k).Some? <==> k in cfg[s];
      }
      forall k | k in cfg[s] ensures cfg[s][k] == params[s][k] {
        assert ValueIn(cfg, s, k) == Some(cfg[s][k]);
      }
    }
  }

  /** Whatever else is extracted is what it was before, for any file and any wanted keys outside params. */
  lemma OtherKeysKept(params: Params, before: string, after: string, wanted: Params, cfg0: Params, cfg1: Params)
    requires Merged(params, before, after)
    requires forall s :: s in wanted && s in params ==> wanted[s].Keys !! params[s].Keys
    requires Extraction(wanted, ReadLines(before), map[], cfg0) && Extraction(wanted, ReadLines(after), map[], cfg1)
    ensures forall s, k :: ValueIn(cfg1, s, k) == ValueIn(cfg0, s, k)
  {
    hide Repeats, ValueOf, ReadLines;
    forall s, k ensures ValueIn(cfg1, s, k) == ValueIn(cfg0, s, k) {
      assert ValueOf(ReadLines(after), s, k) == Final(params, ReadLines(before), s, k);
      if s in wanted && k in wanted[s] && s in params {
        assert k !in params[s];
      }
    }
  }

  /** Merging the same parameters once more never spoils a line and changes the meaning of no key, although
      it adds empty lines. */
  lemma MergeAgain(params: Params, before: string, after: string, again: string)
    requires Merged(params, before, after) && MergeResult(params, after, again)
    requires forall s, k :: s in params && k in params[s] ==> !Repeats(ReadLines(before), s, k)
    ensures !Spoils(params, ReadLines(after))
    ensures forall s, k :: ValueOf(ReadLines(again), s, k) == ValueOf(ReadLines(after), s, k)
  {
    hide Repeats, ValueOf, ReadLines;
    MergedIsSafe(params, before, after);
    hide Spoils;
    forall s, k ensures ValueOf(ReadLines(again), s, k) == ValueOf(ReadLines(after), s, k) {
      assert ValueOf(ReadLines(after), s, k) == Final(params, ReadLines(before), s, k);
      assert ValueOf(ReadLines(again), s, k) == Final(params, ReadLines(after), s, k);
    }
  }

  /** After a merge nothing is left to append for the same parameters. */
  lemma MergedIsSafe(params: Params, before: string, after: string)
    requires Merged(params, before, after)
    ensures !Appends(params, ReadLines(after))
  {
    hide Repeats, ValueOf, ReadLines;
    var lines := ReadLines(after);
    forall s, k | s in params && k in params[s] ensures ValueOf(lines, s, k).Some? {
      RepeatedKeyHasValue(ReadLines(before), s, k);
    }
    forall s | s in params && params[s] != map[] ensures Opened(lines, s) > 0 {
      SomeKey(params[s]);
      NeverOpened(lines, s);
    }
  }

  // ---------- where a merge does not do what it should ----------

  /** A key that repeats keeps the value of its last line. */
  lemma RepeatedKeyKeepsLast(after: string)
    requires var before := HeaderLine("s") + PairLine("k", "1") + PairLine("k", "2");
      MergeResult(map["s" := map["k" := "3"]], before, after)
    ensures ValueOf(ReadLines(after), "s", "k") == Some("2")
  {
    assert !Blank('s') && !Blank('k') && !Blank('1') && !Blank('2');
    HeaderIsLine("s");
    PairIsLine("k", "1");
    PairIsLine("k", "2");
    hide Parse, IsLine, ValueOf, Repeats, HeaderLine, PairLine;
    SetTwice(HeaderLine("s"), PairLine("k", "1"), PairLine("k", "2"), "s", "k");
  }

  lemma SetTwice(a: string, b: string, c: string, s: string, k: string)
    requires IsLine(a) && IsLine(b) && IsLine(c) && Parse(a) == Header(s) && IsKey(b, k) && IsKey(c, k)
    ensures var lines := ReadLines(a + b + c);
      AllLines(lines) && Repeats(lines, s, k) && ValueOf(lines, s, k) == Some(Parse(c).value)
  {
    hide Parse, IsLine, ValueOf, SectionAt, Repeats;
    ThreeLines(a, b, c);
    ReadBack([a, b, c]);
    Snoc([], a);
    assert [] + [a] == [a];
    Snoc([a], b);
    assert [a] + [b] == [a, b];
    Snoc([a, b], c);
    RepeatsSnoc([a, b], c, s, k);
    assert [a, b] + [c] == [a, b, c];
  }

  lemma ThreeLines(a: string, b: string, c: string)
    ensures Concat([a, b, c]) == a + b + c
  {
    hide Concat;
    assert [a, b, c] == [a] + [b, c] && [b, c] == [b] + [c] && [c] == [c] + [];
    ConcatCons(a, [b, c]);
    ConcatCons(b, [c]);
    ConcatCons(c, []);
    NoText();
  }

  lemma TwoLines(a: string, b: string)
    ensures Concat([a, b]) == a + b
  {
    hide Concat;
    assert [a, b] == [a] + [b] && [b] == [b] + [];
    ConcatCons(a, [b]);
    ConcatCons(b, []);
    NoText();
  }

  lemma NoText()
    ensures Concat([]) == ""
  {
  }

  /** A file that ends in a pair without a newline is spoiled by any new key of that pair's section: the
      pair swallows it. */
  lemma OpenPairSpoils(after: string)
    requires MergeResult(map["s" := map["c" := "d"]], HeaderLine("s") + "a = b", after)
    ensures ValueOf(ReadLines(after), "s", "c") != Some("d")
  {
    var params: Params := map["s" := map["c" := "d"]];
    var before := HeaderLine("s") + "a = b";
    ExampleLines();
    hide Parse, ValueOf, Repeats, ReadLines, HeaderLine, IsLine, IsOpenLine, AllBlank, Spoils;
    OpenPairAtEnd(params, HeaderLine("s"), "a = b", "s", "c");
    var s, k :| Lost(params, before, after, s, k);
  }

  lemma ExampleLines()
    ensures IsLine(HeaderLine("s")) && Parse(HeaderLine("s")) == Header("s")
    ensures Parse("a = b") == Pair("a", "b") && IsOpenLine("a = b") && !AllBlank("a = b")
  {
    assert !Blank('s') && !Blank('a') && !Blank('b');
    assert !Blank("a = b"[0]);
    HeaderIsLine("s");
    hide Parse, HeaderLine, IsLine;
    assert "a" + " = " + "b" == "a = b";
    OpenPair("a", "b");
  }

  lemma OpenPair(k: string, v: string)
    requires GoodKey(k) && GoodValue(v)
    ensures Parse(k + " = " + v) == Pair(k, v)
  {
    hide Parse;
    PairIsLine(k, v);
    ParseNewline(k + " = " + v);
  }

  lemma OpenPairAtEnd(params: Params, a: string, x: string, s: string, k: string)
    requires IsLine(a) && IsOpenLine(x) && !AllBlank(x) && Parse(a) == Header(s) && Parse(x).Pair?
    requires s in params && k in params[s] && !IsKey(x, k) && Parse(x).key !in params[s]
    ensures Spoils(params, ReadLines(a + x))
  {
    hide Parse, IsLine, IsOpenLine, ValueOf, SectionAt, Opened, AllBlank;
    var lines := [a, x];
    TwoLines(a, x);
    ReadBack(lines);
    OpenIsNoLine(x);
    Snoc([], a);
    assert [] + [a] == [a];
    Snoc([a], x);
    assert [a] + [x] == lines && lines[..1] == [a];
    EmptyMeans(s, k);
    assert ValueOf(lines, s, k).None? && OpenOnce(params, lines);
  }

  lemma EmptyMeans(s: string, k: string)
    ensures Opened([], s) == 0 && ValueOf([], s, k) == None
  {
  }
}
