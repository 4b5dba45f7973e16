/** Lines of an ini file and the two patterns that configutils.py matches them against, at the level of characters. */
module IniLine {
  import opened Wrappers

  /** What \s matches in a text pattern. */
  predicate Blank(c: char) {
    var n := c as int;
    || 9 <= n <= 13 || 28 <= n <= 32 || n == 0x85 || n == 0xA0 || n == 0x1680 || 0x2000 <= n <= 0x200A
    || n == 0x2028 || n == 0x2029 || n == 0x202F || n == 0x205F || n == 0x3000
  }

  predicate AllBlank(s: string) {
    forall i :: 0 <= i < |s| ==> Blank(s[i])
  }

  predicate NoBlank(s: string) {
    forall i :: 0 <= i < |s| ==> !Blank(s[i])
  }

  predicate NoBreak(s: string) {
    forall i :: 0 <= i < |s| ==> s[i] != '\n' && s[i] != '\r'
  }

  function SkipBlanks(s: string): string {
    if s != "" && Blank(s[0]) then SkipBlanks(s[1..]) else s
  }

  /** The length of the run of non-blanks that s starts with. */
  function RunLength(s: string): (n: nat)
    ensures n <= |s|
  {
    if s == "" || Blank(s[0]) then 0 else 1 + RunLength(s[1..])
  }

  function UpToBreak(s: string): string {
    if s == "" || s[0] == '\n' || s[0] == '\r' then "" else [s[0]] + UpToBreak(s[1..])
  }

  // ---------- \s*\[\s*(\S+)\s*] ----------

  /** Giving back characters of the run s[..n] until the next one is a closing bracket. */
  function SectionEnd(s: string, n: nat): (k: nat)
    requires n <= |s|
    ensures k < n || k == 0
    ensures k > 0 ==> s[k] == ']'
  {
    if n < 2 then 0 else if s[n - 1] == ']' then n - 1 else SectionEnd(s, n - 1)
  }

  /** The name and the closing bracket, at the start of s. */
  function NameMatch(s: string): Option<string> {
    var n := RunLength(s);
    var rest := SkipBlanks(s[n..]);
    if n > 0 && rest != "" && rest[0] == ']' then Some(s[..n])
    else if SectionEnd(s, n) > 0 then Some(s[..SectionEnd(s, n)])
    else None
  }

  function SectionMatch(line: string): Option<string> {
    var open := SkipBlanks(line);
    if open == "" || open[0] != '[' then None else NameMatch(SkipBlanks(open[1..]))
  }

  // ---------- \s*(\S+)\s*=\s*(\S[^\r\n]*) ----------

  /** The value after an equals sign that s must start with. */
  function ValueMatch(s: string): Option<string> {
    if s == "" || s[0] != '=' then None
    else
      var v := SkipBlanks(s[1..]);
      if v == "" then None else Some(UpToBreak(v))
  }

  /** The longest key within the run s[..n] that is directly followed by an equals sign and a value. */
  function KeyEnd(s: string, n: nat): (k: nat)
    requires n <= |s|
    ensures k < n || k == 0
    ensures k > 0 ==> ValueMatch(s[k..]).Some?
  {
    if n < 2 then 0 else if ValueMatch(s[n - 1..]).Some? then n - 1 else KeyEnd(s, n - 1)
  }

  function KeyMatch(line: string): Option<(string, string)> {
    var s := SkipBlanks(line);
    var n := RunLength(s);
    if n == 0 then None
    else if ValueMatch(SkipBlanks(s[n..])).Some? then Some((s[..n], ValueMatch(SkipBlanks(s[n..])).value))
    else if KeyEnd(s, n) > 0 then Some((s[..KeyEnd(s, n)], ValueMatch(s[KeyEnd(s, n)..]).value))
    else None
  }

  datatype Line = Header(section: string) | Pair(key: string, value: string) | Other

  /** How both programs read a line: a section header, else a key with a value, else neither. */
  function Parse(line: string): Line {
    if SectionMatch(line).Some? then Header(SectionMatch(line).value)
    else if KeyMatch(line).Some? then Pair(KeyMatch(line).value.0, KeyMatch(line).value.1)
    else Other
  }

  // ---------- the patterns as decompositions of the line ----------

  /** The ways in which SECPAT can match: blanks, a bracket, blanks, a name, blanks, a bracket, anything. */
  predicate SplitsAsSection(line: string, b1: string, b2: string, name: string, b3: string, rest: string) {
    && line == b1 + ("[" + (b2 + (name + (b3 + ("]" + rest)))))
    && AllBlank(b1) && AllBlank(b2) && AllBlank(b3) && name != "" && NoBlank(name)
  }

  /** The ways in which KEYPAT can match: blanks, a key, blanks, an equals sign, blanks, and a value up to
      the end of the line. */
  predicate SplitsAsPair(line: string, b1: string, key: string, b2: string, b3: string, value: string, rest: string) {
    && line == b1 + (key + (b2 + ("=" + (b3 + (value + rest)))))
    && AllBlank(b1) && AllBlank(b2) && AllBlank(b3) && key != "" && NoBlank(key)
    && value != "" && !Blank(value[0]) && NoBreak(value)
    && (rest == "" || rest[0] == '\n' || rest[0] == '\r')
  }

  lemma {:induction false} SkipOf(b: string, s: string)
    requires AllBlank(b) && (s == "" || !Blank(s[0]))
    ensures SkipBlanks(b + s) == s
  {
    if b == "" {
      assert b + s == s;
    } else {
      assert (b + s)[1..] == b[1..] + s;
      SkipOf(b[1..], s);
    }
  }

  lemma {:induction false} SkipSplits(s: string) returns (b: string)
    ensures AllBlank(b) && s == b + SkipBlanks(s)
    ensures SkipBlanks(s) == "" || !Blank(SkipBlanks(s)[0])
  {
    if s != "" && Blank(s[0]) {
      var b' := SkipSplits(s[1..]);
      b := [s[0]] + b';
      assert s == [s[0]] + s[1..];
    } else {
      b := "";
    }
  }

  lemma {:induction false} RunOf(a: string, b: string)
    requires NoBlank(a) && (b == "" || Blank(b[0]))
    ensures RunLength(a + b) == |a|
  {
    if a == "" {
      assert a + b == b;
    } else {
      assert (a + b)[1..] == a[1..] + b;
      RunOf(a[1..], b);
    }
  }

  lemma {:induction false} RunSplits(s: string)
    ensures NoBlank(s[..RunLength(s)])
    ensures RunLength(s) < |s| ==> Blank(s[RunLength(s)])
  {
    if s != "" && !Blank(s[0]) {
      RunSplits(s[1..]);
      assert s[..RunLength(s)] == [s[0]] + s[1..][..RunLength(s[1..])];
    }
  }

  lemma {:induction false} BreakSplits(s: string)
    ensures NoBreak(UpToBreak(s)) && |UpToBreak(s)| <= |s| && UpToBreak(s) == s[..|UpToBreak(s)|]
    ensures var rest := s[|UpToBreak(s)|..]; rest == "" || rest[0] == '\n' || rest[0] == '\r'
  {
    if s != "" && s[0] != '\n' && s[0] != '\r' {
      BreakSplits(s[1..]);
    }
  }

  lemma {:induction false} BreakOf(value: string, rest: string)
    requires NoBreak(value) && (rest == "" || rest[0] == '\n' || rest[0] == '\r')
    ensures UpToBreak(value + rest) == value
  {
    if value == "" {
      assert value + rest == rest;
    } else {
      assert (value + rest)[1..] == value[1..] + rest;
      BreakOf(value[1..], rest);
    }
  }

  lemma {:induction false} KeyEndIsLast(s: string, n: nat, j: nat)
    requires 0 < j < n <= |s| && ValueMatch(s[j..]).Some?
    ensures KeyEnd(s, n) >= j
  {
    if j < n - 1 {
      KeyEndIsLast(s, n - 1, j);
    }
  }

  lemma {:induction false} SectionEndIsLast(s: string, n: nat, j: nat)
    requires 0 < j < n <= |s| && s[j] == ']'
    ensures SectionEnd(s, n) >= j
  {
    if j < n - 1 {
      SectionEndIsLast(s, n - 1, j);
    }
  }

  lemma ValueMatchSplits(s: string) returns (b3: string, rest: string)
    requires ValueMatch(s).Some?
    ensures var v := ValueMatch(s).value;
      && s == "=" + (b3 + (v + rest)) && AllBlank(b3)
      && v != "" && !Blank(v[0]) && NoBreak(v)
      && (rest == "" || rest[0] == '\n' || rest[0] == '\r')
  {
    hide SkipBlanks;
    b3 := SkipSplits(s[1..]);
    var v := SkipBlanks(s[1..]);
    BreakSplits(v);
    assert Blank('\n') && Blank('\r');
    assert UpToBreak(v) != "";
    hide UpToBreak;
    rest := v[|UpToBreak(v)|..];
    assert v == UpToBreak(v) + rest;
    assert s == "=" + s[1..];
  }

  lemma ValueMatchOf(b3: string, value: string, rest: string)
    requires AllBlank(b3) && value != "" && !Blank(value[0]) && NoBreak(value)
    requires rest == "" || rest[0] == '\n' || rest[0] == '\r'
    ensures ValueMatch("=" + (b3 + (value + rest))) == Some(value)
  {
    var s := "=" + (b3 + (value + rest));
    assert s[1..] == b3 + (value + rest);
    SkipOf(b3, value + rest);
    BreakOf(value, rest);
  }

  /** A key and a value that KEYPAT yields are one way of matching the pattern. */
  lemma KeyMatchSplits(line: string) returns (b1: string, b2: string, b3: string, rest: string)
    requires KeyMatch(line).Some?
    ensures SplitsAsPair(line, b1, KeyMatch(line).value.0, b2, b3, KeyMatch(line).value.1, rest)
  {
    hide SkipBlanks, RunLength, KeyEnd, ValueMatch;
    b1 := SkipSplits(line);
    var s := SkipBlanks(line);
    var n := RunLength(s);
    RunSplits(s);
    if ValueMatch(SkipBlanks(s[n..])).Some? {
      b2 := SkipSplits(s[n..]);
      b3, rest := ValueMatchSplits(SkipBlanks(s[n..]));
      assert s == s[..n] + s[n..];
    } else {
      b2 := "";
      b3, rest := ValueMatchSplits(s[KeyEnd(s, n)..]);
      CutAtEquals(s, n, KeyEnd(s, n));
    }
  }

  lemma CutAtEquals(s: string, n: nat, k: nat)
    requires k < n <= |s| && NoBlank(s[..n])
    ensures s == s[..k] + ("" + s[k..]) && NoBlank(s[..k])
  {
    assert "" + s[k..] == s[k..];
    assert forall i :: 0 <= i < k ==> s[..k][i] == s[..n][i];
  }

  /** Of all ways of matching KEYPAT, the one taken has the longest key, as greedy matching demands; in
      particular, there is a match whenever there is any way. */
  lemma KeyMatchIsLongest(line: string, b1: string, key: string, b2: string, b3: string, value: string, rest: string)
    requires SplitsAsPair(line, b1, key, b2, b3, value, rest)
    ensures KeyMatch(line).Some? && |key| <= |KeyMatch(line).value.0|
    ensures |key| == |KeyMatch(line).value.0| ==> KeyMatch(line) == Some((key, value))
  {
    var tail := "=" + (b3 + (value + rest));
    SkipOf(b1, key + (b2 + tail));
    ValueMatchOf(b3, value, rest);
    LongestKey(line, key, b2, tail, value);
  }

  lemma LongestKey(line: string, key: string, b2: string, tail: string, value: string)
    requires key != "" && NoBlank(key) && AllBlank(b2) && SkipBlanks(line) == key + (b2 + tail)
    requires tail != "" && tail[0] == '=' && ValueMatch(tail) == Some(value)
    ensures KeyMatch(line).Some? && |key| <= |KeyMatch(line).value.0|
    ensures |key| == |KeyMatch(line).value.0| ==> KeyMatch(line) == Some((key, value))
  {
    hide SkipBlanks, RunLength, KeyEnd, ValueMatch;
    var s := key + (b2 + tail);
    assert s[|key|..] == b2 + tail && s[..|key|] == key;
    if b2 == "" {
      assert b2 + tail == tail;
      RunAtLeast(s, |key| + 1);
      KeyEndIsLast(s, RunLength(s), |key|);
    } else {
      RunOf(key, b2 + tail);
      SkipOf(b2, tail);
    }
  }

  lemma {:induction false} RunAtLeast(s: string, m: nat)
    requires m <= |s| && forall i :: 0 <= i < m ==> !Blank(s[i])
    ensures RunLength(s) >= m
  {
    if m > 0 {
      RunAtLeast(s[1..], m - 1);
    }
  }

  lemma NameMatchSplits(s: string) returns (b3: string, rest: string)
    requires NameMatch(s).Some?
    ensures var name := NameMatch(s).value;
      s == name + (b3 + ("]" + rest)) && AllBlank(b3) && name != "" && NoBlank(name)
  {
    hide SkipBlanks, RunLength, SectionEnd;
    var n := RunLength(s);
    RunSplits(s);
    var after := SkipBlanks(s[n..]);
    if n > 0 && after != "" && after[0] == ']' {
      b3 := SkipSplits(s[n..]);
      rest := after[1..];
      assert after == "]" + rest && s == s[..n] + s[n..];
    } else {
      b3, rest := "", s[SectionEnd(s, n) + 1..];
      CutAtBracket(s, n, SectionEnd(s, n));
    }
  }

  lemma CutAtBracket(s: string, n: nat, k: nat)
    requires 0 < k < n <= |s| && s[k] == ']' && NoBlank(s[..n])
    ensures s == s[..k] + ("" + ("]" + s[k + 1..])) && NoBlank(s[..k])
  {
    assert s[k..] == "]" + s[k + 1..];
    assert "" + s[k..] == s[k..];
    assert forall i :: 0 <= i < k ==> s[..k][i] == s[..n][i];
  }

  /** A section name that SECPAT yields is one way of matching the pattern. */
  lemma SectionMatchSplits(line: string) returns (b1: string, b2: string, b3: string, rest: string)
    requires SectionMatch(line).Some?
    ensures SplitsAsSection(line, b1, b2, SectionMatch(line).value, b3, rest)
  {
    hide SkipBlanks, NameMatch;
    b1 := SkipSplits(line);
    var open := SkipBlanks(line);
    b2 := SkipSplits(open[1..]);
    b3, rest := NameMatchSplits(SkipBlanks(open[1..]));
    assert open == "[" + open[1..];
  }

  /** Of all ways of matching SECPAT, the one taken has the longest name. */
  lemma SectionMatchIsLongest(line: string, b1: string, b2: string, name: string, b3: string, rest: string)
    requires SplitsAsSection(line, b1, b2, name, b3, rest)
    ensures SectionMatch(line).Some? && |name| <= |SectionMatch(line).value|
    ensures |name| == |SectionMatch(line).value| ==> SectionMatch(line) == Some(name)
  {
    hide SkipBlanks, RunLength, SectionEnd;
    var tail := "]" + rest;
    var s := name + (b3 + tail);
    var open := "[" + (b2 + s);
    SkipOf(b1, open);
    assert open[1..] == b2 + s;
    SkipOf(b2, s);
    var n := RunLength(s);
    assert s[|name|..] == b3 + tail && s[..|name|] == name;
    if b3 == "" {
      assert b3 + tail == tail;
      RunAtLeast(s, |name| + 1);
      SectionEndIsLast(s, n, |name|);
    } else {
      RunOf(name, b3 + tail);
      SkipOf(b3, tail);
    }
  }

  // ---------- written lines ----------

  predicate GoodSection(s: string) {
    s != "" && NoBlank(s)
  }

  predicate GoodKey(k: string) {
    k != "" && NoBlank(k) && k[0] != '['
  }

  predicate GoodValue(v: string) {
    v != "" && !Blank(v[0]) && NoBreak(v)
  }

  function HeaderLine(s: string): string {
    "[" + s + "]\n"
  }

  function PairLine(k: string, v: string): string {
    k + " = " + v + "\n"
  }

  /** A header that is written is read back as itself, whatever brackets its name holds. */
  lemma HeaderReadsBack(s: string)
    requires GoodSection(s)
    ensures Parse(HeaderLine(s)) == Header(s)
  {
    var line := HeaderLine(s);
    assert line[1..] == (s + "]") + "\n";
    RunOf(s + "]", "\n");
    assert ((s + "]") + "\n")[|s| + 1..] == "\n";
    assert SkipBlanks("\n") == SkipBlanks("");
    assert SectionEnd((s + "]") + "\n", |s| + 1) == |s|;
  }

  /** A pair that is written is read back as itself. */
  lemma PairReadsBack(k: string, v: string)
    requires GoodKey(k) && GoodValue(v)
    ensures Parse(PairLine(k, v)) == Pair(k, v)
  {
    var line := PairLine(k, v);
    assert line == k + (" = " + v + "\n");
    RunOf(k, " = " + v + "\n");
    assert line[|k|..] == " = " + v + "\n";
    assert line[|k|..][1..] == "= " + v + "\n";
    assert Blank(' ') && !Blank('=');
    assert SkipBlanks(line[|k|..]) == SkipBlanks("= " + v + "\n") == "= " + v + "\n";
    assert ("= " + v + "\n")[1..] == " " + v + "\n";
    assert (" " + v + "\n")[1..] == v + "\n";
    assert SkipBlanks(" " + v + "\n") == SkipBlanks(v + "\n") == v + "\n";
    BreakOf(v, "\n");
    assert ValueMatch("= " + v + "\n") == Some(v);
    assert line[..|k|] == k;
  }

  lemma BlankLineIsOther()
    ensures Parse("\n") == Other
  {
    assert SkipBlanks("\n") == SkipBlanks("");
  }
}
