/** What merge_params appends, and what becomes of a last line that lacks its newline. */
module IniTail {
  import opened Wrappers
  import opened IniLine
  import opened IniFile
  import opened IniMerge
  import opened IniGlue
  import opened IniLayout

  // ---------- when a file is spoiled ----------

  /** A pair or a header is the first thing to be written after these lines. */
  predicate Appends(params: Params, lines: seq<string>) {
    if OpenOnce(params, lines) then
      exists k :: k in params[SectionAt(lines).value] && ValueOf(lines, SectionAt(lines).value, k).None?
    else
      exists s :: s in params && params[s] != map[] && Opened(lines, s) == 0
  }

  /** The last line has no newline, is not blank and is copied, and something is appended directly to it. */
  predicate Spoils(params: Params, lines: seq<string>) {
    lines != [] &&
    var n := |lines| - 1;
    && !IsLine(lines[n])
    && !AllBlank(lines[n])
    && Copied(params, lines[..n], lines[n])
    && Appends(params, lines)
  }

  // ---------- what is written ----------

  /** The lines that add the sections in done. */
  ghost predicate SectionTail(params: Params, done: set<string>, tail: seq<string>) {
    && done <= params.Keys
    && (forall i :: 0 <= i < |tail| ==>
          IsLine(tail[i]) && (Parse(tail[i]).Header? ==> Parse(tail[i]).section in done))
    && (tail == [] <==> forall s :: s in done ==> params[s] == map[])
    && (tail != [] ==> exists s :: Leads(params, done, tail, s))
    && (forall section :: ForeignFrom(params, section, tail) == [])
    && OnceEach(params, done, Headers(tail))
  }

  /** Every section in done that has keys, once. */
  ghost predicate OnceEach(params: Params, done: set<string>, names: seq<string>) {
    && (forall s :: s in names <==> s in done && s in params && params[s] != map[])
    && (forall i, j :: 0 <= i < j < |names| ==> names[i] != names[j])
  }

  /** The tail starts with the header of s and has no other one. */
  ghost predicate Leads(params: Params, done: set<string>, tail: seq<string>, s: string) {
    && tail != [] && s in done && s in params && params[s] != map[] && tail[0] == HeaderLine(s)
    && forall i :: 0 < i < |tail| ==> Parse(tail[i]) != Header(s)
  }

  lemma NoSections(params: Params)
    ensures SectionTail(params, {}, [])
  {
  }

  lemma SectionTailThen(params: Params, done: set<string>, tail: seq<string>, s: string, pairs: seq<string>)
    requires GoodParams(params) && SectionTail(params, done, tail) && s in params && s !in done
    requires params[s] != map[] && PairTail(params[s], pairs)
    ensures SectionTail(params, done + {s}, tail + [HeaderLine(s)] + pairs)
  {
    hide ForeignFrom, Headers, NextAll;
    SectionNotForeign(params, done, tail, s, pairs);
    hide OnceEach, Parse, IsLine, HeaderLine, PairTail, GoodParams;
    TailLines(params, done, tail, s, pairs);
    TailLeads(params, done, tail, s, pairs);
    assert tail + [HeaderLine(s)] + pairs != [];
  }

  lemma TailLines(params: Params, done: set<string>, tail: seq<string>, s: string, pairs: seq<string>)
    requires GoodParams(params) && SectionTail(params, done, tail) && s in params && s !in done
    requires params[s] != map[] && PairTail(params[s], pairs)
    ensures var tail' := tail + [HeaderLine(s)] + pairs;
      forall i :: 0 <= i < |tail'| ==>
        && IsLine(tail'[i])
        && (Parse(tail'[i]).Header? ==> Parse(tail'[i]).section in done + {s})
        && (i != |tail| ==> Parse(tail'[i]) != Header(s))
  {
    hide Parse, IsLine, HeaderLine, PairLine, GoodSection, GoodKey, GoodValue, ForeignFrom, Headers, OnceEach, Leads;
    var tail' := tail + [HeaderLine(s)] + pairs;
    HeaderIsLine(s);
    PairsAreNoHeaders(params[s], pairs);
    forall i | 0 <= i < |tail'|
      ensures IsLine(tail'[i])
      ensures Parse(tail'[i]).Header? ==> Parse(tail'[i]).section in done + {s}
      ensures i != |tail| ==> Parse(tail'[i]) != Header(s)
    {
      if i > |tail| {
        assert tail'[i] == pairs[i - |tail| - 1];
      }
    }
  }

  lemma TailLeads(params: Params, done: set<string>, tail: seq<string>, s: string, pairs: seq<string>)
    requires GoodParams(params) && SectionTail(params, done, tail) && s in params && s !in done
    requires params[s] != map[] && PairTail(params[s], pairs)
    ensures exists s0 :: Leads(params, done + {s}, tail + [HeaderLine(s)] + pairs, s0)
  {
    hide Parse, IsLine, HeaderLine, PairTail, GoodParams, ForeignFrom, Headers, OnceEach;
    var tail' := tail + [HeaderLine(s)] + pairs;
    TailLines(params, done, tail, s, pairs);
    if tail == [] {
      assert Leads(params, done + {s}, tail', s);
    } else {
      var s0 :| Leads(params, done, tail, s0);
      PairsElsewhere(params, s, s0, pairs);
      forall i | 0 < i < |tail'| ensures Parse(tail'[i]) != Header(s0) {
        if i >= |tail| {
          assert tail'[i] == ([HeaderLine(s)] + pairs)[i - |tail|];
        }
      }
      assert Leads(params, done + {s}, tail', s0);
    }
  }

  lemma PairsElsewhere(params: Params, s: string, s0: string, pairs: seq<string>)
    requires GoodParams(params) && s in params && PairTail(params[s], pairs) && s != s0
    ensures forall i :: 0 <= i < |[HeaderLine(s)] + pairs| ==> Parse(([HeaderLine(s)] + pairs)[i]) != Header(s0)
  {
    hide Parse, IsLine, HeaderLine, PairTail, GoodPairs, GoodSection;
    HeaderIsLine(s);
    PairsAreNoHeaders(params[s], pairs);
  }

  lemma SectionNotForeign(params: Params, done: set<string>, tail: seq<string>, s: string, pairs: seq<string>)
    requires GoodParams(params) && s in params && s !in done && params[s] != map[]
    requires PairTail(params[s], pairs) && OnceEach(params, done, Headers(tail))
    requires forall section :: ForeignFrom(params, section, tail) == []
    ensures forall section :: ForeignFrom(params, section, tail + [HeaderLine(s)] + pairs) == []
    ensures OnceEach(params, done + {s}, Headers(tail + [HeaderLine(s)] + pairs))
  {
    hide Parse, IsLine, HeaderLine, PairLine, GoodSection, GoodKey, GoodValue, ForeignFrom, Headers, NextAll;
    PairsNotForeign(params, s, params[s], pairs);
    forall section ensures ForeignFrom(params, section, tail + [HeaderLine(s)] + pairs) == [] {
      ForeignAppend(params, section, tail + [HeaderLine(s)], pairs);
      ForeignAppend(params, section, tail, [HeaderLine(s)]);
      NextAppend(section, tail, [HeaderLine(s)]);
      HeaderNotForeign(params, NextAll(section, tail), s);
    }
    HeadersAppend(tail + [HeaderLine(s)], pairs);
    HeadersAppend(tail, [HeaderLine(s)]);
    HeaderNotForeign(params, None, s);
    assert Headers(tail + [HeaderLine(s)] + pairs) == Headers(tail) + [s];
  }

  lemma EmptySectionThen(params: Params, done: set<string>, tail: seq<string>, s: string)
    requires SectionTail(params, done, tail) && s in params && params[s] == map[]
    ensures SectionTail(params, done + {s}, tail)
  {
    hide Parse, IsLine, HeaderLine;
    if tail != [] {
      var s0 :| Leads(params, done, tail, s0);
      assert Leads(params, done + {s}, tail, s0);
    }
  }

  lemma PairsAreNoHeaders(vals: map<string, string>, pairs: seq<string>)
    requires GoodPairs(vals) && PairTail(vals, pairs)
    ensures forall i :: 0 <= i < |pairs| ==> Parse(pairs[i]).Pair?
  {
    hide Parse, IsLine, PairLine, GoodKey, GoodValue;
    forall i | 0 <= i < |pairs| ensures Parse(pairs[i]).Pair? {
      var k :| k in vals && pairs[i] == PairLine(k, vals[k]);
      PairIsLine(k, vals[k]);
    }
  }

  /** What has been written for the lines of the file: whole lines, but for a copy of the last one. */
  ghost predicate Shape(params: Params, lines: seq<string>, unset: Params, out: seq<string>) {
    if lines == [] then out == []
    else
      var n := |lines| - 1;
      AllLines(lines[..n]) ==>
        if Copied(params, lines[..n], lines[n]) then
          && out != []
          && out[|out| - 1] == lines[n]
          && AllLines(out[..|out| - 1])
          && Merging(params, lines[..n], unset, out[..|out| - 1])
          && Laid(params, lines[..n], out[..|out| - 1])
        else AllLines(out)
  }

  lemma ShapeOfLines(params: Params, lines: seq<string>, unset: Params, out: seq<string>)
    requires Shape(params, lines, unset, out) && AllLines(lines)
    ensures AllLines(out)
  {
    hide IsLine, Copied, Merging;
  }

  /** Copying a line that is not replaced. */
  lemma ShapeCopied(params: Params, lines: seq<string>, unset: Params, out: seq<string>, line: string)
    requires Merging(params, lines, unset, out) && Laid(params, lines, out)
    requires (AllLines(lines) ==> AllLines(out)) && !Parse(line).Header?
    requires SectionAt(lines).Some? && SectionAt(lines).value in unset && Parse(line).Pair? ==>
      Parse(line).key !in unset[SectionAt(lines).value]
    ensures Shape(params, lines + [line], unset, out + [line])
  {
    hide Parse, IsLine, Written, ValueOf, Opened, SectionAt;
    assert (lines + [line])[..|lines|] == lines && (out + [line])[..|out|] == out;
    OpenIsPending(params, lines, unset);
    assert Copied(params, lines, line);
  }

  /** A section that is open for the first time is one that is still pending. */
  lemma OpenIsPending(params: Params, lines: seq<string>, unset: Params)
    requires Pending(params, lines, unset)
    ensures OpenOnce(params, lines) <==> SectionAt(lines).Some? && SectionAt(lines).value in unset
  {
    hide ValueOf, Parse;
    if SectionAt(lines).Some? {
      OpenSection(lines, SectionAt(lines).value);
    }
  }

  /** Writing whole lines for a header or a pair that is replaced. */
  lemma ShapeWritten(params: Params, lines: seq<string>, unset: Params, unset': Params, out': seq<string>,
      line: string)
    requires Pending(params, lines, unset) && (AllLines(lines) ==> AllLines(out'))
    requires Parse(line).Header? || (
      && SectionAt(lines).Some? && SectionAt(lines).value in unset
      && Parse(line).Pair? && Parse(line).key in unset[SectionAt(lines).value])
    ensures Shape(params, lines + [line], unset', out')
  {
    hide Parse, IsLine, ValueOf, Opened, SectionAt, Merging;
    assert (lines + [line])[..|lines|] == lines;
    OpenIsPending(params, lines, unset);
    assert !Copied(params, lines, line);
  }

  /** What is written at the end of the current section. */
  ghost predicate RestTail(params: Params, lines: seq<string>, unset: Params, rest: seq<string>) {
    if OpenOnce(params, lines) then
      var s := SectionAt(lines).value;
      && s in unset
      && rest != []
      && rest[|rest| - 1] == "\n"
      && PairTail(unset[s], rest[..|rest| - 1])
    else rest == []
  }

  // ---------- reading on ----------

  /** What follows these two lists of lines is read in the same way. */
  ghost predicate Alike(a: seq<string>, b: seq<string>) {
    && SectionAt(a) == SectionAt(b)
    && forall s, k :: ValueOf(a, s, k) == ValueOf(b, s, k)
  }

  lemma {:induction false} AlikeThen(a: seq<string>, b: seq<string>, tail: seq<string>)
    requires Alike(a, b)
    ensures Alike(a + tail, b + tail)
    decreases |tail|
  {
    hide Parse, SectionAt, ValueOf;
    if tail == [] {
      assert a + tail == a && b + tail == b;
    } else {
      Snoc(a, tail[0]);
      Snoc(b, tail[0]);
      AlikeThen(a + [tail[0]], b + [tail[0]], tail[1..]);
      assert a + [tail[0]] + tail[1..] == a + tail && b + [tail[0]] + tail[1..] == b + tail;
    }
  }

  lemma AlikeLines(a: seq<string>, x: string, y: string)
    requires Parse(x) == Parse(y)
    ensures Alike(a + [x], a + [y])
  {
    hide Parse, SectionAt, ValueOf;
    Snoc(a, x);
    Snoc(a, y);
  }

  lemma AlikeOther(a: seq<string>, x: string)
    requires Parse(x).Other?
    ensures Alike(a + [x], a)
  {
    hide Parse, SectionAt, ValueOf;
    Snoc(a, x);
  }

  /** Lines that neither set the key nor open a section. */
  lemma {:induction false} KeptByOthers(a: seq<string>, tail: seq<string>, s: string, k: string)
    requires forall i :: 0 <= i < |tail| ==> !Parse(tail[i]).Header? && !IsKey(tail[i], k)
    ensures ValueOf(a + tail, s, k) == ValueOf(a, s, k)
    decreases |tail|
  {
    hide Parse, SectionAt, ValueOf;
    if tail == [] {
      assert a + tail == a;
    } else {
      Snoc(a, tail[0]);
      KeptByOthers(a + [tail[0]], tail[1..], s, k);
      assert a + [tail[0]] + tail[1..] == a + tail;
    }
  }

  /** Lines outside the section, none of which opens it. */
  lemma {:induction false} KeptOutside(a: seq<string>, tail: seq<string>, s: string, k: string)
    requires tail != [] && !Parse(tail[0]).Header? ==> SectionAt(a) != Some(s)
    requires forall i :: 0 <= i < |tail| ==> Parse(tail[i]) != Header(s)
    ensures ValueOf(a + tail, s, k) == ValueOf(a, s, k)
    decreases |tail|
  {
    hide Parse, SectionAt, ValueOf, Opened;
    if tail == [] {
      assert a + tail == a;
    } else {
      assert Parse(tail[0]) != Header(s);
      Snoc(a, tail[0]);
      KeptOutside(a + [tail[0]], tail[1..], s, k);
      assert a + [tail[0]] + tail[1..] == a + tail;
    }
  }

  // ---------- the outcome of a merge ----------

  /** Every key has the value of params if it is one of its keys and does not repeat, and otherwise the
      value that it had. */
  ghost predicate Merged(params: Params, before: string, after: string) {
    forall s, k :: ValueOf(ReadLines(after), s, k) == Final(params, ReadLines(before), s, k)
  }

  /** A key of params that does not repeat in the file and still does not have its value. */
  ghost predicate Lost(params: Params, before: string, after: string, s: string, k: string) {
    && s in params && k in params[s]
    && !Repeats(ReadLines(before), s, k)
    && ValueOf(ReadLines(after), s, k) != Some(params[s][k])
  }

  /** The parts of what a merge writes for the lines of a file. */
  ghost predicate Parts(params: Params, lines: seq<string>, unset: Params, head: seq<string>, rest: seq<string>,
      tail: seq<string>) {
    && Merging(params, lines, unset, head)
    && Laid(params, lines, head)
    && Shape(params, lines, unset, head)
    && RestTail(params, lines, unset, rest)
    && SectionTail(params, Unopened(lines, unset), tail)
  }

  /** Something is appended and does not start with an empty line exactly if Appends says so. */
  lemma AppendsMeans(params: Params, lines: seq<string>, unset: Params, rest: seq<string>, tail: seq<string>)
    requires GoodParams(params) && Pending(params, lines, unset) && RestTail(params, lines, unset, rest)
    requires SectionTail(params, Unopened(lines, unset), tail)
    ensures Appends(params, lines) <==> rest + tail != [] && (rest + tail)[0] != "\n"
    ensures rest + tail != [] ==>
      (rest + tail)[0] != "" && ((rest + tail)[0] == "\n" || !Blank((rest + tail)[0][0]))
  {
    hide Parse, IsLine, ValueOf, Opened, SectionAt, GoodKey, GoodValue, RestTail, PairTail, SectionTail;
    if OpenOnce(params, lines) {
      RestMeans(params, lines, unset, rest);
      assert (rest + tail)[0] == rest[0];
    } else {
      SectionTailMeans(params, lines, unset, tail);
      assert rest + tail == tail by { NoRest(params, lines, unset, rest); }
    }
  }

  lemma NoRest(params: Params, lines: seq<string>, unset: Params, rest: seq<string>)
    requires !OpenOnce(params, lines) && RestTail(params, lines, unset, rest)
    ensures rest == []
  {
  }

  lemma RestMeans(params: Params, lines: seq<string>, unset: Params, rest: seq<string>)
    requires GoodParams(params) && Pending(params, lines, unset) && RestTail(params, lines, unset, rest)
    requires OpenOnce(params, lines)
    ensures rest != [] && rest[0] != "" && (rest[0] == "\n" || !Blank(rest[0][0]))
    ensures Appends(params, lines) <==> rest[0] != "\n"
    ensures rest[0] == "\n" <==> unset[SectionAt(lines).value] == map[]
  {
    hide Parse, IsLine, ValueOf, Opened, SectionAt, GoodValue;
    var s := SectionAt(lines).value;
    if unset[s] != map[] {
      var pairs := rest[..|rest| - 1];
      assert rest[0] == pairs[0];
      var k :| k in unset[s] && pairs[0] == PairLine(k, unset[s][k]);
      assert |rest[0]| > 1 && rest[0][0] == k[0] && !Blank(k[0]);
    } else {
      assert rest == ["\n"];
    }
  }

  lemma SectionTailMeans(params: Params, lines: seq<string>, unset: Params, tail: seq<string>)
    requires GoodParams(params) && Pending(params, lines, unset) && !OpenOnce(params, lines)
    requires SectionTail(params, Unopened(lines, unset), tail)
    ensures tail != [] ==> tail[0] != "" && tail[0] != "\n" && !Blank(tail[0][0])
    ensures tail != [] ==> exists s :: Leads(params, unset.Keys, tail, s) && SectionAt(lines) != Some(s)
    ensures Appends(params, lines) <==> tail != []
  {
    hide Parse, IsLine, ValueOf, Opened, SectionAt, GoodKey, GoodValue;
    if tail != [] {
      var done := Unopened(lines, unset);
      var s :| Leads(params, done, tail, s);
      assert tail[0][0] == '[' && |tail[0]| > 1;
      assert Leads(params, unset.Keys, tail, s);
    } else {
      forall s | s in params && Opened(lines, s) == 0 ensures params[s] == map[] {
        OpenSection(lines, s);
      }
    }
  }

  /** The text that is written, as lines that can be read back: x is the copy of an open last line. */
  lemma GluedText(a: seq<string>, x: string, t: seq<string>)
    requires AllLines(a) && IsOpenLine(x) && t != [] && AllLines(t)
    ensures ReadLines(Concat(a + [x] + t)) == a + [x + t[0]] + t[1..]
  {
    var lines := a + [x + t[0]] + t[1..];
    OpenThenLine(x, t[0]);
    hide IsLine, IsOpenLine, ReadLines, Concat;
    GluedConcat(a, x, t);
    ReadBack(lines);
  }

  lemma OpenThenLine(x: string, line: string)
    requires IsOpenLine(x) && IsLine(line)
    ensures IsLine(x + line)
  {
    assert forall i :: 0 <= i < |line| ==> (x + line)[|x| + i] == line[i];
  }

  lemma GluedConcat(a: seq<string>, x: string, t: seq<string>)
    requires t != []
    ensures Concat(a + [x] + t) == Concat(a + [x + t[0]] + t[1..])
  {
    hide Concat;
    assert a + [x] + t == a + ([x] + t) && a + [x + t[0]] + t[1..] == a + ([x + t[0]] + t[1..]);
    ConcatAppend(a, [x] + t);
    ConcatAppend(a, [x + t[0]] + t[1..]);
    ConcatCons(x, t);
    ConcatCons(x + t[0], t[1..]);
    ConcatCons(t[0], t[1..]);
    assert [t[0]] + t[1..] == t;
    assert x + (t[0] + Concat(t[1..])) == (x + t[0]) + Concat(t[1..]);
  }

  lemma ConcatCons(line: string, lines: seq<string>)
    ensures Concat([line] + lines) == line + Concat(lines)
  {
    assert ([line] + lines)[1..] == lines;
  }

  lemma TailsAreLines(params: Params, lines: seq<string>, unset: Params, head: seq<string>, rest: seq<string>,
      tail: seq<string>)
    requires GoodParams(params) && Parts(params, lines, unset, head, rest, tail)
    ensures AllLines(rest + tail)
  {
    hide Parse, Merging, Shape, GoodKey, GoodValue, HeaderLine, PairLine, Laid, ForeignFrom, Headers, OnceEach, Leads;
    hide SetsOneOf, OpenOnce, SectionAt, Unopened;
    assert IsLine("\n");
    hide IsLine;
    if OpenOnce(params, lines) {
      var pairs := rest[..|rest| - 1];
      assert forall i :: 0 <= i < |pairs| ==> rest[i] == pairs[i];
    }
  }

  /** An empty line, or blanks before what is appended, do no harm. */
  lemma HarmlessGlue(a: seq<string>, x: string, t: seq<string>)
    requires t != [] && t[0] != ""
    requires t[0] == "\n" || (AllBlank(x) && !Blank(t[0][0]))
    ensures Alike(a + [x + t[0]] + t[1..], a + [x] + t)
  {
    hide Alike;
    assert a + [x] + t == a + [x] + [t[0]] + t[1..];
    if t[0] == "\n" {
      ParseNewline(x);
      BlankLineIsOther();
      AlikeLines(a, x + "\n", x);
      AlikeOther(a + [x], "\n");
      AlikeTrans(a + [x + t[0]], a + [x], a + [x] + [t[0]]);
    } else {
      ParseAfterBlanks(x, t[0]);
      BlankIsOther(x);
      AlikeLines(a, x + t[0], t[0]);
      AlikeOther(a, x);
      AlikeThen(a + [x], a, [t[0]]);
      AlikeTrans(a + [x + t[0]], a + [t[0]], a + [x] + [t[0]]);
    }
    AlikeThen(a + [x + t[0]], a + [x] + [t[0]], t[1..]);
  }

  lemma AlikeTrans(a: seq<string>, b: seq<string>, c: seq<string>)
    requires Alike(a, b) && (Alike(b, c) || Alike(c, b))
    ensures Alike(a, c)
  {
  }

  lemma BlankIsOther(x: string)
    requires AllBlank(x)
    ensures Parse(x).Other?
  {
    assert x + "" == x;
    SkipOf(x, "");
  }

  /** A pair appended directly to something that is neither blank nor a header is lost. */
  lemma PairLost(params: Params, lines: seq<string>, unset: Params, head: seq<string>, x: string, rest: seq<string>,
      tail: seq<string>)
    returns (s: string, k: string)
    requires GoodParams(params) && Merging(params, lines, unset, head)
    requires !AllBlank(x) && NoBreak(x) && SectionMatch(x).None?
    requires RestTail(params, lines, unset, rest) && OpenOnce(params, lines) && unset[SectionAt(lines).value] != map[]
    requires SectionTail(params, unset.Keys - {SectionAt(lines).value}, tail)
    ensures s in unset && k in unset[s]
    ensures ValueOf(head + [x + rest[0]] + rest[1..] + tail, s, k) != Some(params[s][k])
  {
    hide Parse, IsLine, ValueOf, Opened, SectionAt, SectionMatch, PairLine, GoodKey, GoodValue, Repeats;
    s := SectionAt(lines).value;
    var pairs := rest[..|rest| - 1];
    assert rest == pairs + ["\n"] && rest[0] == pairs[0];
    k :| k in unset[s] && pairs[0] == PairLine(k, unset[s][k]);
    var v := unset[s][k];
    var line := x + PairLine(k, v);
    GluedPair(x, k, v);
    Snoc(head, line);
    assert ValueOf(head, s, k) == None;
    assert ValueOf(head + [line], s, k) != Some(v);
    OtherPairs(unset[s], pairs, k);
    KeptByOthers(head + [line], rest[1..], s, k);
    StartsWithHeader(params, unset.Keys - {s}, tail);
    KeptOutside(head + [line] + rest[1..], tail, s, k);
  }

  lemma StartsWithHeader(params: Params, done: set<string>, tail: seq<string>)
    requires GoodParams(params) && SectionTail(params, done, tail)
    ensures tail != [] ==> Parse(tail[0]).Header?
  {
    hide Parse, IsLine, HeaderLine, GoodSection, GoodPairs;
    if tail != [] {
      var s :| Leads(params, done, tail, s);
      HeaderIsLine(s);
    }
  }

  lemma OtherPairs(vals: map<string, string>, pairs: seq<string>, k: string)
    requires GoodPairs(vals) && PairTail(vals, pairs) && pairs != [] && k in vals && pairs[0] == PairLine(k, vals[k])
    ensures var after := (pairs + ["\n"])[1..];
      forall i :: 0 <= i < |after| ==> !Parse(after[i]).Header? && !IsKey(after[i], k)
  {
    hide Parse, IsLine, PairLine, GoodKey, GoodValue;
    var after := (pairs + ["\n"])[1..];
    forall i | 0 <= i < |after| ensures !Parse(after[i]).Header? && !IsKey(after[i], k) {
      if i < |pairs| - 1 {
        assert after[i] == pairs[i + 1];
        var k' :| k' in vals && pairs[i + 1] == PairLine(k', vals[k']);
        PairIsLine(k', vals[k']);
      } else {
        BlankLineIsOther();
      }
    }
  }

  /** So are the keys of a section whose header is appended directly to it. */
  lemma HeaderLost(params: Params, lines: seq<string>, unset: Params, head: seq<string>, x: string, tail: seq<string>,
      s: string)
    returns (k: string)
    requires GoodParams(params) && Merging(params, lines, unset, head)
    requires !AllBlank(x) && SectionMatch(x).None?
    requires Leads(params, unset.Keys, tail, s) && SectionAt(lines) != Some(s)
    ensures s in unset && k in params[s]
    ensures ValueOf(head + [x + tail[0]] + tail[1..], s, k) != Some(params[s][k])
  {
    hide Parse, IsLine, ValueOf, Opened, SectionAt, SectionMatch, HeaderLine, GoodSection, GoodPairs, Repeats;
    var line := x + HeaderLine(s);
    SomeKey(params[s]);
    k :| k in params[s];
    GluedHeader(x, s);
    Snoc(head, line);
    NeverOpened(lines, s);
    assert ValueOf(head, s, k) == None;
    KeptOutside(head + [line], tail[1..], s, k);
  }

  lemma SomeKey(m: map<string, string>)
    ensures m == map[] || exists k :: k in m
  {
    if forall k :: k !in m {
      assert m == map[];
    }
  }

  /** Everything written for the lines of the file is a whole line, or the last one is an open copy. */
  lemma HeadShape(params: Params, lines: seq<string>, unset: Params, head: seq<string>)
    requires LinesOfText(lines) && Shape(params, lines, unset, head)
    ensures AllLines(head) ==> !Spoils(params, lines)
    ensures !AllLines(head) ==>
      var n := |lines| - 1;
      && lines != [] && IsOpenLine(lines[n]) && Copied(params, lines[..n], lines[n])
      && head != [] && head == head[..|head| - 1] + [lines[n]] && AllLines(head[..|head| - 1])
      && Merging(params, lines[..n], unset, head[..|head| - 1])
      && Laid(params, lines[..n], head[..|head| - 1])
  {
    hide IsOpenLine, Merging, Appends, Copied, Laid;
    if lines != [] {
      var n := |lines| - 1;
      assert AllLines(lines[..n]);
      if IsLine(lines[n]) {
        ShapeOfLines(params, lines, unset, head);
      }
      hide IsLine;
    }
  }

  /** The lines of the new file, if x is an open copy of the last line. */
  lemma OpenOutcome(params: Params, lines: seq<string>, unset: Params, a: seq<string>, x: string,
      rest: seq<string>, tail: seq<string>)
    returns (after: seq<string>)
    requires GoodParams(params) && Parts(params, lines, unset, a + [x], rest, tail)
    requires AllLines(a) && IsOpenLine(x)
    ensures after == ReadLines(Concat(a + [x] + (rest + tail)))
    ensures var t := rest + tail;
      after == if t == [] then a + [x] else a + [x + t[0]] + t[1..]
    ensures AllBlank(x) || !Appends(params, lines) ==> Alike(after, a + [x] + (rest + tail))
  {
    var t := rest + tail;
    TailsAreLines(params, lines, unset, a + [x], rest, tail);
    hide Merging, Shape, IsOpenLine, Appends;
    if t == [] {
      assert a + [x] + t == a + [x];
      after := a + [x];
      ReadBack(after);
    } else {
      after := a + [x + t[0]] + t[1..];
      GluedText(a, x, t);
      AppendsMeans(params, lines, unset, rest, tail);
      hide IsLine;
      if AllBlank(x) || !Appends(params, lines) {
        HarmlessGlue(a, x, t);
      }
    }
  }

  /** Without a spoiled last line every key has the value it should have. */
  lemma MergeSucceeds(params: Params, before: string, unset: Params, head: seq<string>, rest: seq<string>,
      tail: seq<string>)
    requires GoodParams(params) && Parts(params, ReadLines(before), unset, head, rest, tail)
    requires Finishing(params, ReadLines(before), {}, head + (rest + tail)) && !Spoils(params, ReadLines(before))
    ensures Merged(params, before, Concat(head + (rest + tail)))
  {
    hide IsLine, Merging, ReadLines, Copied, Appends, AllBlank, RestTail, SectionTail, Repeats, ValueOf;
    var lines := ReadLines(before);
    TextHasLines(before);
    HeadShape(params, lines, unset, head);
    if AllLines(head) {
      TailsAreLines(params, lines, unset, head, rest, tail);
      ReadBack(head + (rest + tail));
    } else {
      var n := |head| - 1;
      OpenIsNoLine(lines[|lines| - 1]);
      var after := OpenOutcome(params, lines, unset, head[..n], head[n], rest, tail);
    }
  }

  lemma OpenIsUnbroken(x: string)
    requires IsOpenLine(x) && '\r' !in x
    ensures NoBreak(x)
  {
    assert forall i :: 0 <= i < |x| ==> x[i] in x;
  }

  lemma {:induction false} LineWithin(text: string, n: nat)
    requires n < |ReadLines(text)|
    ensures forall c :: c in ReadLines(text)[n] ==> c in text
  {
    var m := LineLength(text);
    hide LineLength;
    assert forall c :: c in text[..m] ==> c in text;
    assert forall c :: c in text[m..] ==> c in text;
    if n > 0 {
      LineWithin(text[m..], n - 1);
    }
  }

  /** What is appended directly to something that is neither blank nor a header is lost. */
  lemma LosesKey(params: Params, lines: seq<string>, unset: Params, a: seq<string>, x: string, rest: seq<string>,
      tail: seq<string>)
    returns (s: string, k: string)
    requires GoodParams(params) && Merging(params, lines, unset, a) && Pending(params, lines + [x], unset)
    requires !AllBlank(x) && NoBreak(x) && !Parse(x).Header?
    requires RestTail(params, lines + [x], unset, rest) && Appends(params, lines + [x])
    requires SectionTail(params, Unopened(lines, unset), tail)
    ensures var t := rest + tail;
      && t != [] && s in params && k in params[s]
      && ValueOf(a + [x + t[0]] + t[1..], s, k) != Some(params[s][k])
    ensures ValueOf(lines + [x], s, k).None?
  {
    hide GoodParams, Merging, Pending, AllBlank, RestTail, Appends, SectionTail, ValueOf, OpenOnce, Parse, NoBreak;
    if OpenOnce(params, lines + [x]) {
      s, k := LosesPair(params, lines, unset, a, x, rest, tail);
    } else {
      s, k := LosesSection(params, lines, unset, a, x, rest, tail);
    }
  }

  lemma SameSection(lines: seq<string>, x: string)
    requires !Parse(x).Header?
    ensures SectionAt(lines + [x]) == SectionAt(lines) && SectionMatch(x).None?
    ensures forall s :: Opened(lines + [x], s) == Opened(lines, s)
  {
    hide SectionMatch, KeyMatch, SectionAt, Opened;
    Snoc(lines, x);
  }

  lemma LosesPair(params: Params, lines: seq<string>, unset: Params, a: seq<string>, x: string, rest: seq<string>,
      tail: seq<string>)
    returns (s: string, k: string)
    requires GoodParams(params) && Merging(params, lines, unset, a) && Pending(params, lines + [x], unset)
    requires !AllBlank(x) && NoBreak(x) && !Parse(x).Header?
    requires RestTail(params, lines + [x], unset, rest) && Appends(params, lines + [x])
    requires SectionTail(params, Unopened(lines, unset), tail)
    requires OpenOnce(params, lines + [x])
    ensures var t := rest + tail;
      && t != [] && s in params && k in params[s]
      && ValueOf(a + [x + t[0]] + t[1..], s, k) != Some(params[s][k])
    ensures ValueOf(lines + [x], s, k).None?
  {
    hide Merging, Appends, AllBlank, SectionTail, ValueOf, SectionAt, PairTail, Parse, SectionMatch, Opened, GoodParams;
    SameSection(lines, x);
    RestMeans(params, lines + [x], unset, rest);
    s, k := PairLost(params, lines, unset, a, x, rest, tail);
    assert a + [x + rest[0]] + rest[1..] + tail == a + [x + (rest + tail)[0]] + (rest + tail)[1..];
  }

  lemma LosesSection(params: Params, lines: seq<string>, unset: Params, a: seq<string>, x: string, rest: seq<string>,
      tail: seq<string>)
    returns (s: string, k: string)
    requires GoodParams(params) && Merging(params, lines, unset, a) && Pending(params, lines + [x], unset)
    requires !AllBlank(x) && NoBreak(x) && !Parse(x).Header?
    requires RestTail(params, lines + [x], unset, rest) && Appends(params, lines + [x])
    requires SectionTail(params, Unopened(lines, unset), tail)
    requires !OpenOnce(params, lines + [x])
    ensures var t := rest + tail;
      && t != [] && s in params && k in params[s]
      && ValueOf(a + [x + t[0]] + t[1..], s, k) != Some(params[s][k])
    ensures ValueOf(lines + [x], s, k).None?
  {
    hide Merging, Appends, AllBlank, SectionTail, ValueOf, SectionAt, PairTail, Parse, SectionMatch, Opened, GoodParams;
    hide OpenOnce, HeaderLine;
    SameSection(lines, x);
    NoRest(params, lines + [x], unset, rest);
    SectionTailMeans(params, lines + [x], unset, tail);
    s :| Leads(params, unset.Keys, tail, s) && SectionAt(lines + [x]) != Some(s);
    k := HeaderLost(params, lines, unset, a, x, tail, s);
    assert rest + tail == tail;
    NotOpened(params, lines + [x], unset, s, k);
  }

  lemma NotOpened(params: Params, lines: seq<string>, unset: Params, s: string, k: string)
    requires Pending(params, lines, unset) && s in unset && SectionAt(lines) != Some(s)
    ensures ValueOf(lines, s, k).None?
  {
    NeverOpened(lines, s);
  }

  /** With one, some key of params that does not repeat has not got its value. */
  lemma MergeFails(params: Params, before: string, unset: Params, head: seq<string>, rest: seq<string>,
      tail: seq<string>)
    returns (s: string, k: string)
    requires GoodParams(params) && Parts(params, ReadLines(before), unset, head, rest, tail)
    requires Spoils(params, ReadLines(before)) && '\r' !in before
    ensures Lost(params, before, Concat(head + (rest + tail)), s, k)
  {
    hide IsLine, Written, Pending, ReadLines, AllBlank, RestTail, SectionTail, Repeats, ValueOf, Shape, SectionAt;
    hide Opened, Appends, GoodParams, Concat, OpenOnce, Laid, Alike, IsOpenLine, LinesOfText;
    var lines := ReadLines(before);
    TextHasLines(before);
    HeadShape(params, lines, unset, head);
    var n := |lines| - 1;
    var x, a := lines[n], head[..|head| - 1];
    var after := OpenOutcome(params, lines, unset, a, x, rest, tail);
    LineWithin(before, n);
    OpenIsUnbroken(x);
    assert lines[..n] + [x] == lines;
    Snoc(lines[..n], x);
    s, k := LosesKey(params, lines[..n], unset, a, x, rest, tail);
    RepeatedKeyHasValue(lines, s, k);
  }

  // ---------- what a merge leaves alone ----------

  /** The foreign lines are those of the file before, in the same order and in the same sections, and nothing
      foreign has been added; every line that was copied is still there, likewise; the headers are those of
      before, followed by one for each section of params that has keys and was not there. */
  ghost predicate Preserved(params: Params, lines: seq<string>, after: seq<string>) {
    && ForeignLines(params, after) == ForeignLines(params, lines)
    && Subsequence(CopiedLines(params, lines), Entries(after))
    && Subsequence(LinePlaces(lines), Places(after))
    && Headers(lines) <= Headers(after)
    && NewSections(params, lines, Headers(after)[|Headers(lines)|..])
  }

  ghost predicate NewSections(params: Params, lines: seq<string>, names: seq<string>) {
    && (forall s :: s in names <==> s in params && params[s] != map[] && Opened(lines, s) == 0)
    && (forall i, j :: 0 <= i < j < |names| ==> names[i] != names[j])
  }

  /** All of this but for a spoiled last line, which is there as the beginning of a longer one. */
  ghost predicate PreservedBut(params: Params, lines: seq<string>, x: string, after: seq<string>) {
    && ForeignLines(params, lines) <= ForeignLines(params, after)
    && Subsequence(CopiedLines(params, lines), Entries(after))
    && Subsequence(LinePlaces(lines), Places(after))
    && Headers(lines) <= Headers(after)
    && exists i :: 0 <= i < |after| && x <= after[i]
  }

  lemma AddedPreserves(params: Params, lines: seq<string>, base: seq<string>, t: seq<string>)
    requires Laid(params, lines, base) && NewSections(params, lines, Headers(t))
    requires ForeignFrom(params, SectionAt(base), t) == []
    ensures Preserved(params, lines, base + t)
  {
    hide ForeignFrom, ForeignLines, Headers, CopiedLines, Entries, EntriesFrom, Subsequence, NewSections, SectionAt;
    hide Places, PlacesFrom, LinePlaces;
    SubsequenceAll(LinePlaces(lines), Places(base), PlacesFrom(SectionAt(base), t));
    AppendLines(params, base, t);
    SubsequenceAll(CopiedLines(params, lines), Entries(base), EntriesFrom(SectionAt(base), t));
    assert Headers(base + t)[|Headers(lines)|..] == Headers(t);
  }

  /** Nothing that is written at the end is foreign, and its headers are the new sections. */
  lemma TailAdds(params: Params, lines: seq<string>, unset: Params, rest: seq<string>, tail: seq<string>)
    requires GoodParams(params) && Pending(params, lines, unset) && RestTail(params, lines, unset, rest)
    requires SectionTail(params, Unopened(lines, unset), tail)
    ensures ForeignFrom(params, SectionAt(lines), rest + tail) == [] && Headers(rest) == []
    ensures forall section :: ForeignFrom(params, section, tail) == []
    ensures NewSections(params, lines, Headers(tail)) && Headers(rest + tail) == Headers(tail)
  {
    hide ForeignFrom, Headers, Parse, ValueOf, GoodKey, GoodValue, IsLine, NextAll, SectionAt, Opened, PairLine;
    ForeignAppend(params, SectionAt(lines), rest, tail);
    HeadersAppend(rest, tail);
    TailIsNew(params, lines, unset, Headers(tail));
    RestAdds(params, lines, unset, rest);
  }

  lemma RestAdds(params: Params, lines: seq<string>, unset: Params, rest: seq<string>)
    requires GoodParams(params) && Pending(params, lines, unset) && RestTail(params, lines, unset, rest)
    ensures ForeignFrom(params, SectionAt(lines), rest) == [] && Headers(rest) == []
  {
    hide ForeignFrom, Headers, Parse, ValueOf, GoodKey, GoodValue, IsLine, NextAll, SectionAt, Opened, PairLine;
    if OpenOnce(params, lines) {
      var s, pairs := SectionAt(lines).value, rest[..|rest| - 1];
      assert rest == pairs + ["\n"];
      PairsNotForeign(params, s, unset[s], pairs);
      ForeignAppend(params, Some(s), pairs, ["\n"]);
      HeadersAppend(pairs, ["\n"]);
      BlankNotForeign(params, Some(s));
    } else {
      NothingForeign(params, SectionAt(lines));
    }
  }

  lemma NothingForeign(params: Params, section: Option<string>)
    ensures ForeignFrom(params, section, []) == [] && Headers([]) == []
  {
  }

  lemma TailIsNew(params: Params, lines: seq<string>, unset: Params, names: seq<string>)
    requires Pending(params, lines, unset) && OnceEach(params, Unopened(lines, unset), names)
    ensures NewSections(params, lines, names)
  {
    hide ValueOf, Parse;
    forall s ensures s in Unopened(lines, unset) <==> s in params && Opened(lines, s) == 0 {
      OpenSection(lines, s);
    }
  }

  /** A newline after an open last line is not another line. */
  lemma LaidNewline(params: Params, lines: seq<string>, a: seq<string>, x: string)
    requires Laid(params, lines, a + [x]) && IsOpenLine(x)
    ensures Laid(params, lines, a + [x + "\n"]) && SectionAt(a + [x + "\n"]) == SectionAt(a + [x])
  {
    var section := SectionAt(a);
    ParseNewline(x);
    NewlineIsBlank(x);
    assert Text(x + "\n") == x == Text(x);
    assert PlaceOf(section, x + "\n") == PlaceOf(section, x);
    hide LinePlaces, PlaceOf, Places, PlacesFrom;
    AlikeLines(a, x + "\n", x);
    hide Parse, SectionAt, AllBlank, Text, IsOpenLine, CopiedLines, Subsequence;
    assert Foreign(params, section, x + "\n") <==> Foreign(params, section, x);
    hide Foreign, Alike;
    AppendLines(params, a, [x]);
    AppendLines(params, a, [x + "\n"]);
    OneLine(params, section, x);
    OneLine(params, section, x + "\n");
  }

  lemma NewlineIsBlank(x: string)
    ensures AllBlank(x + "\n") <==> AllBlank(x)
  {
    assert Blank('\n');
    assert forall i :: 0 <= i < |x| ==> (x + "\n")[i] == x[i];
  }

  /** An open blank last line is not missed. */
  lemma LaidBlank(params: Params, lines: seq<string>, a: seq<string>, x: string)
    requires Laid(params, lines, a) && IsOpenLine(x) && AllBlank(x)
    ensures Laid(params, lines + [x], a) && SectionAt(lines + [x]) == SectionAt(lines)
  {
    BlankIsOther(x);
    OpenIsNoLine(x);
    AlikeOther(lines, x);
    assert !Foreign(params, SectionAt(lines), x);
    hide Parse, SectionAt, AllBlank, Text, IsOpenLine, IsLine, Subsequence, Foreign, Copied, Headers, ForeignFrom;
    hide LinePlaces, PlaceOf, Places, PlacesFrom;
    assert LinePlaces(lines) + [] == LinePlaces(lines);
    AppendLines(params, lines, [x]);
    OneLine(params, SectionAt(lines), x);
    CopiedSnoc(params, lines, x);
    assert CopiedLines(params, lines) + [] == CopiedLines(params, lines);
    assert Headers(lines) + [] == Headers(lines) && ForeignLines(params, lines) + [] == ForeignLines(params, lines);
  }

  /** Blanks in front of a pair or a header make no difference. */
  lemma BlanksBefore(params: Params, section: Option<string>, x: string, t: seq<string>)
    requires t != [] && Parse(x + t[0]) == Parse(t[0]) && !Parse(t[0]).Other?
    requires ForeignFrom(params, section, t) == [] && !AllBlank(t[0])
    ensures ForeignFrom(params, section, [x + t[0]] + t[1..]) == []
    ensures Headers([x + t[0]] + t[1..]) == Headers(t)
  {
    hide Parse, AllBlank, Text;
    var t' := [x + t[0]] + t[1..];
    assert t'[0] == x + t[0] && t'[1..] == t[1..];
    assert !Foreign(params, section, t[0]);
    assert !Foreign(params, section, t'[0]);
    assert Next(section, t'[0]) == Next(section, t[0]);
  }

  lemma FirstParses(params: Params, lines: seq<string>, unset: Params, rest: seq<string>, tail: seq<string>)
    requires GoodParams(params) && Pending(params, lines, unset) && RestTail(params, lines, unset, rest)
    requires SectionTail(params, Unopened(lines, unset), tail) && rest + tail != [] && (rest + tail)[0] != "\n"
    ensures !Parse((rest + tail)[0]).Other? && !AllBlank((rest + tail)[0])
  {
    AppendsMeans(params, lines, unset, rest, tail);
    hide Parse, IsLine, ValueOf, Opened, SectionAt, GoodKey, GoodValue, PairLine, HeaderLine, ForeignFrom, Headers;
    if OpenOnce(params, lines) {
      var s, pairs := SectionAt(lines).value, rest[..|rest| - 1];
      assert pairs != [] && (rest + tail)[0] == pairs[0];
      var k :| k in unset[s] && pairs[0] == PairLine(k, unset[s][k]);
      PairIsLine(k, unset[s][k]);
    } else {
      assert rest + tail == tail;
      StartsWithHeader(params, Unopened(lines, unset), tail);
    }
  }

  /** Without a spoiled last line a merge leaves everything but the keys of params alone. */
  lemma MergePreserves(params: Params, before: string, unset: Params, head: seq<string>, rest: seq<string>,
      tail: seq<string>)
    requires GoodParams(params) && Parts(params, ReadLines(before), unset, head, rest, tail)
    requires !Spoils(params, ReadLines(before))
    ensures Preserved(params, ReadLines(before), ReadLines(Concat(head + (rest + tail))))
  {
    hide IsLine, Written, Pending, ReadLines, Copied, Appends, AllBlank, RestTail, SectionTail, Laid, Preserved, Shape;
    hide SectionAt, GoodParams, Concat;
    var lines := ReadLines(before);
    TextHasLines(before);
    HeadShape(params, lines, unset, head);
    TailAdds(params, lines, unset, rest, tail);
    SameSectionAt(params, lines, unset, head);
    if AllLines(head) {
      TailsAreLines(params, lines, unset, head, rest, tail);
      ReadBack(head + (rest + tail));
      AddedPreserves(params, lines, head, rest + tail);
    } else {
      var n := |head| - 1;
      OpenIsNoLine(lines[|lines| - 1]);
      var after := OpenOutcome(params, lines, unset, head[..n], head[n], rest, tail);
      OpenPreserves(params, lines, unset, head[..n], head[n], rest, tail, after);
    }
  }

  lemma SameSectionAt(params: Params, lines: seq<string>, unset: Params, out: seq<string>)
    requires Merging(params, lines, unset, out)
    ensures SectionAt(out) == SectionAt(lines)
  {
  }

  lemma OpenPreserves(params: Params, lines: seq<string>, unset: Params, a: seq<string>, x: string, rest: seq<string>,
      tail: seq<string>, after: seq<string>)
    requires GoodParams(params) && Parts(params, lines, unset, a + [x], rest, tail)
    requires lines != [] && x == lines[|lines| - 1] && IsOpenLine(x)
    requires var m := lines[..|lines| - 1]; Laid(params, m, a) && Merging(params, m, unset, a)
    requires var t := rest + tail;
      after == if t == [] then a + [x] else a + [x + t[0]] + t[1..]
    requires AllBlank(x) || !Appends(params, lines)
    ensures Preserved(params, lines, after)
  {
    hide IsLine, Written, Pending, Appends, AllBlank, RestTail, SectionTail, Laid, Preserved, Shape, SectionAt, GoodParams;
    hide IsOpenLine, Headers, ForeignFrom, NewSections, Parse;
    var m, t := lines[..|lines| - 1], rest + tail;
    assert m + [x] == lines;
    SameSectionAt(params, lines, unset, a + [x]);
    SameSectionAt(params, m, unset, a);
    TailAdds(params, lines, unset, rest, tail);
    AppendsMeans(params, lines, unset, rest, tail);
    if t == [] {
      assert a + [x] + t == a + [x];
      AddedPreserves(params, lines, a + [x], t);
    } else if t[0] == "\n" {
      NewlineFirst(params, lines, unset, rest, tail);
      LaidNewline(params, lines, a, x);
      AddedPreserves(params, lines, a + [x + "\n"], tail);
    } else {
      FirstParses(params, lines, unset, rest, tail);
      ParseAfterBlanks(x, t[0]);
      LaidBlank(params, m, a, x);
      BlanksBefore(params, SectionAt(a), x, t);
      assert after == a + ([x + t[0]] + t[1..]);
      AddedPreserves(params, lines, a, [x + t[0]] + t[1..]);
    }
  }

  lemma NewlineFirst(params: Params, lines: seq<string>, unset: Params, rest: seq<string>, tail: seq<string>)
    requires GoodParams(params) && Pending(params, lines, unset) && RestTail(params, lines, unset, rest)
    requires SectionTail(params, Unopened(lines, unset), tail) && rest + tail != [] && (rest + tail)[0] == "\n"
    ensures (rest + tail)[1..] == tail
  {
    AppendsMeans(params, lines, unset, rest, tail);
    hide Parse, IsLine, ValueOf, Opened, SectionAt, GoodKey, GoodValue, PairLine, HeaderLine, ForeignFrom, Headers;
    if OpenOnce(params, lines) {
      RestMeans(params, lines, unset, rest);
      assert (rest + tail)[0] == rest[0];
      assert rest[..|rest| - 1] == [] && rest == ["\n"];
    } else {
      NoRest(params, lines, unset, rest);
      assert rest + tail == tail;
      SectionTailMeans(params, lines, unset, tail);
    }
  }

  /** With a spoiled last line, everything before that line. */
  lemma SpoiledPreserves(params: Params, before: string, unset: Params, head: seq<string>, rest: seq<string>,
      tail: seq<string>)
    requires GoodParams(params) && Parts(params, ReadLines(before), unset, head, rest, tail)
    requires Spoils(params, ReadLines(before))
    ensures var lines, n := ReadLines(before), |ReadLines(before)| - 1;
      PreservedBut(params, lines[..n], lines[n], ReadLines(Concat(head + (rest + tail))))
  {
    hide IsLine, Written, Pending, ReadLines, AllBlank, RestTail, SectionTail, Shape, SectionAt, Headers, ForeignFrom;
    hide Opened, Appends, GoodParams, Concat, OpenOnce, CopiedLines, Entries, EntriesFrom, ForeignLines, Subsequence;
    hide LinePlaces, PlaceOf, Places, PlacesFrom;
    var lines := ReadLines(before);
    TextHasLines(before);
    HeadShape(params, lines, unset, head);
    var n := |lines| - 1;
    var x, a, t := lines[n], head[..|head| - 1], rest + tail;
    var after := OpenOutcome(params, lines, unset, a, x, rest, tail);
    var more := if t == [] then [x] else [x + t[0]] + t[1..];
    assert after == a + more;
    AppendLines(params, a, more);
    SubsequenceAll(CopiedLines(params, lines[..n]), Entries(a), EntriesFrom(SectionAt(a), more));
    SubsequenceAll(LinePlaces(lines[..n]), Places(a), PlacesFrom(SectionAt(a), more));
    assert x <= after[|a|];
  }
}
