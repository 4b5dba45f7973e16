/** The lines of a file apart from the values of its keys: comments, foreign keys and headers, and what a
    merge does to them. */
module IniLayout {
  import opened Wrappers
  import opened IniLine
  import opened IniFile
  import opened IniMerge

  /** A line without its newline, and the section it belongs to. */
  type Entry = (Option<string>, string)

  function Text(line: string): string {
    if line != "" && line[|line| - 1] == '\n' then line[..|line| - 1] else line
  }

  // ---------- which lines a merge copies ----------

  /** The section at the end of the lines is one of params and has not been opened before. */
  predicate OpenOnce(params: Params, lines: seq<string>) {
    && SectionAt(lines).Some?
    && SectionAt(lines).value in params
    && Opened(lines, SectionAt(lines).value) == 1
  }

  /** After these lines, the line is copied as it is: it is no header, and no pair whose value is replaced. */
  predicate Copied(params: Params, lines: seq<string>, line: string) {
    match Parse(line)
    case Header(_) => false
    case Pair(k, _) =>
      !OpenOnce(params, lines) || k !in params[SectionAt(lines).value] ||
      ValueOf(lines, SectionAt(lines).value, k).Some?
    case Other => true
  }

  /** The lines that are copied, but for blanks at the end of a file without a final newline. */
  function CopiedLines(params: Params, lines: seq<string>): seq<Entry> {
    if lines == [] then []
    else
      var n := |lines| - 1;
      CopiedLines(params, lines[..n]) +
      if Copied(params, lines[..n], lines[n]) && (IsLine(lines[n]) || !AllBlank(lines[n]))
      then [(SectionAt(lines[..n]), Text(lines[n]))] else []
  }

  // ---------- what a file consists of ----------

  /** A line that is neither blank nor a header nor sets a key of params. */
  predicate Foreign(params: Params, section: Option<string>, line: string) {
    !AllBlank(line) &&
    match Parse(line)
    case Header(_) => false
    case Pair(k, _) => !(section.Some? && section.value in params && k in params[section.value])
    case Other => true
  }

  /** The section after a line. */
  function Next(section: Option<string>, line: string): Option<string> {
    if Parse(line).Header? then Some(Parse(line).section) else section
  }

  function NextAll(section: Option<string>, lines: seq<string>): Option<string>
    decreases |lines|
  {
    if lines == [] then section else NextAll(Next(section, lines[0]), lines[1..])
  }

  function ForeignFrom(params: Params, section: Option<string>, lines: seq<string>): seq<Entry>
    decreases |lines|
  {
    if lines == [] then []
    else (if Foreign(params, section, lines[0]) then [(section, Text(lines[0]))] else []) +
         ForeignFrom(params, Next(section, lines[0]), lines[1..])
  }

  /** The foreign lines of a file with their sections. */
  function ForeignLines(params: Params, lines: seq<string>): seq<Entry> {
    ForeignFrom(params, None, lines)
  }

  function EntriesFrom(section: Option<string>, lines: seq<string>): seq<Entry>
    decreases |lines|
  {
    if lines == [] then []
    else (if Parse(lines[0]).Header? then [] else [(section, Text(lines[0]))]) +
         EntriesFrom(Next(section, lines[0]), lines[1..])
  }

  /** All lines of a file but its headers, with their sections. */
  function Entries(lines: seq<string>): seq<Entry> {
    EntriesFrom(None, lines)
  }

  /** The sections that are opened, in order. */
  function Headers(lines: seq<string>): seq<string> {
    if lines == [] then []
    else (if Parse(lines[0]).Header? then [Parse(lines[0]).section] else []) + Headers(lines[1..])
  }

  /** What a line stands for: a header, a key of a section whatever its value, or a text. */
  datatype Place =
    | OpensSection(name: string)
    | SetsKey(section: Option<string>, key: string)
    | Says(section: Option<string>, text: string)

  function PlaceOf(section: Option<string>, line: string): Place {
    match Parse(line)
    case Header(s) => OpensSection(s)
    case Pair(k, _) => SetsKey(section, k)
    case Other => Says(section, Text(line))
  }

  function PlacesFrom(section: Option<string>, lines: seq<string>): seq<Place>
    decreases |lines|
  {
    if lines == [] then [] else [PlaceOf(section, lines[0])] + PlacesFrom(Next(section, lines[0]), lines[1..])
  }

  function Places(lines: seq<string>): seq<Place> {
    PlacesFrom(None, lines)
  }

  /** The places of a file's lines, but for blanks at the end of a file without a final newline. */
  function LinePlaces(lines: seq<string>): seq<Place> {
    if lines == [] then []
    else
      var n := |lines| - 1;
      LinePlaces(lines[..n]) +
      if IsLine(lines[n]) || !AllBlank(lines[n]) then [PlaceOf(SectionAt(lines[..n]), lines[n])] else []
  }

  /** xs is what is left of ys when some of its elements are left out. */
  predicate Subsequence<T(==)>(xs: seq<T>, ys: seq<T>) {
    xs == [] ||
    (ys != [] &&
     if xs[|xs| - 1] == ys[|ys| - 1] then Subsequence(xs[..|xs| - 1], ys[..|ys| - 1])
     else Subsequence(xs, ys[..|ys| - 1]))
  }

  lemma {:induction false} SubsequenceMore<T>(xs: seq<T>, ys: seq<T>, y: T)
    requires Subsequence(xs, ys)
    ensures Subsequence(xs, ys + [y])
    decreases |ys|, 1
  {
    var all := ys + [y];
    assert all[..|all| - 1] == ys;
    if xs != [] && xs[|xs| - 1] == y {
      SubsequenceLess(xs, ys);
    }
  }

  lemma {:induction false} SubsequenceLess<T>(xs: seq<T>, ys: seq<T>)
    requires xs != [] && Subsequence(xs, ys)
    ensures Subsequence(xs[..|xs| - 1], ys)
    decreases |ys|, 0
  {
    var x, y := xs[..|xs| - 1], ys[..|ys| - 1];
    assert ys == y + [ys[|ys| - 1]];
    if xs[|xs| - 1] == ys[|ys| - 1] {
      SubsequenceMore(x, y, ys[|ys| - 1]);
    } else {
      SubsequenceLess(xs, y);
      SubsequenceMore(x, y, ys[|ys| - 1]);
    }
  }

  lemma SubsequenceBoth<T>(xs: seq<T>, ys: seq<T>, y: T)
    requires Subsequence(xs, ys)
    ensures Subsequence(xs + [y], ys + [y])
  {
    assert (xs + [y])[..|xs|] == xs && (ys + [y])[..|ys|] == ys;
  }

  lemma {:induction false} SubsequenceAll<T>(xs: seq<T>, ys: seq<T>, zs: seq<T>)
    requires Subsequence(xs, ys)
    ensures Subsequence(xs, ys + zs)
    decreases |zs|
  {
    if zs == [] {
      assert ys + zs == ys;
    } else {
      SubsequenceMore(xs, ys, zs[0]);
      SubsequenceAll(xs, ys + [zs[0]], zs[1..]);
      assert ys + [zs[0]] + zs[1..] == ys + zs;
    }
  }

  // ---------- appending ----------

  lemma {:induction false} NextAppend(section: Option<string>, a: seq<string>, b: seq<string>)
    ensures NextAll(section, a + b) == NextAll(NextAll(section, a), b)
    decreases |a|
  {
    hide Next;
    if a == [] {
      assert a + b == b;
    } else {
      assert (a + b)[0] == a[0] && (a + b)[1..] == a[1..] + b;
      NextAppend(Next(section, a[0]), a[1..], b);
    }
  }

  lemma {:induction false} ForeignAppend(params: Params, section: Option<string>, a: seq<string>, b: seq<string>)
    ensures ForeignFrom(params, section, a + b) ==
      ForeignFrom(params, section, a) + ForeignFrom(params, NextAll(section, a), b)
    decreases |a|
  {
    hide Next, Foreign, Text;
    if a == [] {
      assert a + b == b;
    } else {
      assert (a + b)[0] == a[0] && (a + b)[1..] == a[1..] + b;
      ForeignAppend(params, Next(section, a[0]), a[1..], b);
    }
  }

  lemma {:induction false} EntriesAppend(section: Option<string>, a: seq<string>, b: seq<string>)
    ensures EntriesFrom(section, a + b) == EntriesFrom(section, a) + EntriesFrom(NextAll(section, a), b)
    decreases |a|
  {
    hide Next, Text, Parse;
    if a == [] {
      assert a + b == b;
    } else {
      assert (a + b)[0] == a[0] && (a + b)[1..] == a[1..] + b;
      EntriesAppend(Next(section, a[0]), a[1..], b);
    }
  }

  lemma {:induction false} PlacesAppend(section: Option<string>, a: seq<string>, b: seq<string>)
    ensures PlacesFrom(section, a + b) == PlacesFrom(section, a) + PlacesFrom(NextAll(section, a), b)
    decreases |a|
  {
    hide Next, PlaceOf;
    if a == [] {
      assert a + b == b;
    } else {
      assert (a + b)[0] == a[0] && (a + b)[1..] == a[1..] + b;
      PlacesAppend(Next(section, a[0]), a[1..], b);
    }
  }

  lemma {:induction false} HeadersAppend(a: seq<string>, b: seq<string>)
    ensures Headers(a + b) == Headers(a) + Headers(b)
  {
    hide Parse;
    if a == [] {
      assert a + b == b;
    } else {
      assert (a + b)[0] == a[0] && (a + b)[1..] == a[1..] + b;
      HeadersAppend(a[1..], b);
    }
  }

  lemma {:induction false} SectionIsNext(lines: seq<string>)
    ensures SectionAt(lines) == NextAll(None, lines)
  {
    hide Parse;
    if lines != [] {
      var n := |lines| - 1;
      SectionIsNext(lines[..n]);
      NextAppend(None, lines[..n], [lines[n]]);
      assert lines == lines[..n] + [lines[n]];
      OneLine(map[], NextAll(None, lines[..n]), lines[n]);
    }
  }

  lemma OneLine(params: Params, section: Option<string>, line: string)
    ensures NextAll(section, [line]) == Next(section, line)
    ensures ForeignFrom(params, section, [line]) == if Foreign(params, section, line) then [(section, Text(line))] else []
    ensures EntriesFrom(section, [line]) == if Parse(line).Header? then [] else [(section, Text(line))]
    ensures Headers([line]) == if Parse(line).Header? then [Parse(line).section] else []
    ensures PlacesFrom(section, [line]) == [PlaceOf(section, line)]
  {
    hide Parse, AllBlank, Text, Foreign, PlaceOf;
    assert [line][1..] == [];
  }

  /** What one more line adds, or several. */
  lemma AppendLines(params: Params, lines: seq<string>, more: seq<string>)
    ensures ForeignLines(params, lines + more) == ForeignLines(params, lines) + ForeignFrom(params, SectionAt(lines), more)
    ensures Entries(lines + more) == Entries(lines) + EntriesFrom(SectionAt(lines), more)
    ensures Headers(lines + more) == Headers(lines) + Headers(more)
    ensures Places(lines + more) == Places(lines) + PlacesFrom(SectionAt(lines), more)
  {
    hide ForeignFrom, EntriesFrom, Headers, PlacesFrom;
    SectionIsNext(lines);
    PlacesAppend(None, lines, more);
    ForeignAppend(params, None, lines, more);
    EntriesAppend(None, lines, more);
    HeadersAppend(lines, more);
  }

  lemma CopiedSnoc(params: Params, lines: seq<string>, line: string)
    ensures CopiedLines(params, lines + [line]) == CopiedLines(params, lines) +
      if Copied(params, lines, line) && (IsLine(line) || !AllBlank(line)) then [(SectionAt(lines), Text(line))] else []
    ensures LinePlaces(lines + [line]) == LinePlaces(lines) +
      if IsLine(line) || !AllBlank(line) then [PlaceOf(SectionAt(lines), line)] else []
  {
    hide Copied, IsLine, AllBlank, Text, SectionAt, PlaceOf;
    assert (lines + [line])[..|lines|] == lines;
  }

  // ---------- what the loop keeps ----------

  /** The foreign lines and the headers are those of the lines so far; all copied lines are there, and all
      lines have kept their places. */
  ghost predicate Laid(params: Params, lines: seq<string>, out: seq<string>) {
    && ForeignLines(params, out) == ForeignLines(params, lines)
    && Headers(out) == Headers(lines)
    && Subsequence(CopiedLines(params, lines), Entries(out))
    && Subsequence(LinePlaces(lines), Places(out))
  }

  lemma NothingLaid(params: Params)
    ensures Laid(params, [], [])
  {
  }

  lemma LaidCopy(params: Params, lines: seq<string>, out: seq<string>, line: string)
    requires Laid(params, lines, out) && SectionAt(out) == SectionAt(lines) && !Parse(line).Header?
    ensures Laid(params, lines + [line], out + [line])
  {
    hide Parse, Foreign, Copied, IsLine, AllBlank, Text, SectionAt, PlaceOf, Places, PlacesFrom, LinePlaces;
    hide ForeignLines, ForeignFrom, Entries, EntriesFrom, Headers, CopiedLines, Subsequence, Next;
    AppendLines(params, lines, [line]);
    AppendLines(params, out, [line]);
    OneLine(params, SectionAt(lines), line);
    CopiedSnoc(params, lines, line);
    assert CopiedLines(params, lines) + [] == CopiedLines(params, lines) && LinePlaces(lines) + [] == LinePlaces(lines);
    assert Headers(lines) + [] == Headers(lines) && Headers(out) + [] == Headers(out);
    SubsequenceMore(CopiedLines(params, lines), Entries(out), (SectionAt(lines), Text(line)));
    SubsequenceBoth(CopiedLines(params, lines), Entries(out), (SectionAt(lines), Text(line)));
    SubsequenceMore(LinePlaces(lines), Places(out), PlaceOf(SectionAt(lines), line));
    SubsequenceBoth(LinePlaces(lines), Places(out), PlaceOf(SectionAt(lines), line));
  }

  /** Lines that are written for a line that is not copied, the last of them in its place. */
  lemma LaidWritten(params: Params, lines: seq<string>, out: seq<string>, line: string, front: seq<string>, last: string)
    requires Laid(params, lines, out) && SectionAt(out) == SectionAt(lines) && !Copied(params, lines, line)
    requires !Foreign(params, SectionAt(lines), line) && ForeignFrom(params, SectionAt(lines), front + [last]) == []
    requires Headers(front + [last]) == if Parse(line).Header? then [Parse(line).section] else []
    requires PlaceOf(NextAll(SectionAt(lines), front), last) == PlaceOf(SectionAt(lines), line)
    ensures Laid(params, lines + [line], out + (front + [last]))
  {
    hide Parse, Foreign, Copied, IsLine, AllBlank, Text, SectionAt, PlaceOf, Places, PlacesFrom, LinePlaces, NextAll;
    hide ForeignLines, ForeignFrom, Entries, EntriesFrom, Headers, CopiedLines, Subsequence, Next;
    var more := front + [last];
    AppendLines(params, lines, [line]);
    AppendLines(params, out, more);
    OneLine(params, SectionAt(lines), line);
    CopiedSnoc(params, lines, line);
    assert CopiedLines(params, lines) + [] == CopiedLines(params, lines) && LinePlaces(lines) + [] == LinePlaces(lines);
    assert ForeignLines(params, out) + [] == ForeignLines(params, out);
    SubsequenceAll(CopiedLines(params, lines), Entries(out), EntriesFrom(SectionAt(out), more));
    PlacesAppend(SectionAt(out), front, [last]);
    OneLine(params, NextAll(SectionAt(lines), front), last);
    var place := PlaceOf(SectionAt(lines), line);
    var places := Places(out) + PlacesFrom(SectionAt(out), front);
    SubsequenceAll(LinePlaces(lines), Places(out), PlacesFrom(SectionAt(out), front));
    SubsequenceMore(LinePlaces(lines), places, place);
    SubsequenceBoth(LinePlaces(lines), places, place);
    assert Places(out + more) == places + [place];
  }

  /** Pairs of params and an empty line add nothing foreign. */
  lemma {:induction false} PairsNotForeign(params: Params, s: string, vals: map<string, string>, tail: seq<string>)
    requires s in params && vals.Keys <= params[s].Keys && GoodPairs(vals)
    requires forall i :: 0 <= i < |tail| ==> SetsOneOf(vals, tail[i])
    ensures ForeignFrom(params, Some(s), tail) == [] && Headers(tail) == [] && NextAll(Some(s), tail) == Some(s)
  {
    hide Parse, GoodKey, GoodValue, AllBlank, PairLine, Text;
    if tail != [] {
      assert SetsOneOf(vals, tail[0]);
      var k :| k in vals && tail[0] == PairLine(k, vals[k]);
      PairIsLine(k, vals[k]);
      assert forall i :: 0 <= i < |tail[1..]| ==> tail[1..][i] == tail[i + 1];
      PairsNotForeign(params, s, vals, tail[1..]);
    }
  }

  lemma BlankNotForeign(params: Params, section: Option<string>)
    ensures ForeignFrom(params, section, ["\n"]) == [] && Headers(["\n"]) == [] && NextAll(section, ["\n"]) == section
  {
    assert Blank('\n');
    BlankLineIsOther();
    hide Parse, Blank;
    OneLine(params, section, "\n");
  }

  lemma HeaderNotForeign(params: Params, section: Option<string>, s: string)
    requires GoodSection(s)
    ensures ForeignFrom(params, section, [HeaderLine(s)]) == [] && Headers([HeaderLine(s)]) == [s]
    ensures NextAll(section, [HeaderLine(s)]) == Some(s)
  {
    HeaderIsLine(s);
    hide Parse, HeaderLine, AllBlank;
    OneLine(params, section, HeaderLine(s));
  }
}
