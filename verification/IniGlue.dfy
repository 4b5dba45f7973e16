/** A last line without a newline: what becomes of it when a merge writes something directly after it. */
module IniGlue {
  import opened Wrappers
  import opened IniLine
  import opened IniFile

  // ---------- a newline after a line does not change how it reads ----------

  lemma {:induction false} SkipNewline(s: string)
    ensures SkipBlanks(s + "\n") == if SkipBlanks(s) == "" then "" else SkipBlanks(s) + "\n"
  {
    if s == "" {
      assert SkipBlanks("" + "\n") == SkipBlanks(("" + "\n")[1..]);
    } else if Blank(s[0]) {
      assert (s + "\n")[1..] == s[1..] + "\n";
      SkipNewline(s[1..]);
    }
  }

  lemma {:induction false} RunNewline(s: string)
    ensures RunLength(s + "\n") == RunLength(s)
  {
    if s != "" {
      assert (s + "\n")[1..] == s[1..] + "\n";
      RunNewline(s[1..]);
    }
  }

  lemma {:induction false} BreakNewline(s: string)
    ensures UpToBreak(s + "\n") == UpToBreak(s)
  {
    if s != "" {
      assert (s + "\n")[1..] == s[1..] + "\n";
      BreakNewline(s[1..]);
    }
  }

  lemma ValueNewline(s: string)
    ensures ValueMatch(s + "\n") == ValueMatch(s)
  {
    if s != "" {
      assert (s + "\n")[1..] == s[1..] + "\n";
      SkipNewline(s[1..]);
      BreakNewline(SkipBlanks(s[1..]));
    }
  }

  lemma {:induction false} KeyEndNewline(s: string, n: nat)
    requires n <= |s|
    ensures KeyEnd(s + "\n", n) == KeyEnd(s, n)
  {
    hide ValueMatch;
    if n >= 2 {
      assert (s + "\n")[n - 1..] == s[n - 1..] + "\n";
      ValueNewline(s[n - 1..]);
      KeyEndNewline(s, n - 1);
    }
  }

  lemma {:induction false} SectionEndNewline(s: string, n: nat)
    requires n <= |s|
    ensures SectionEnd(s + "\n", n) == SectionEnd(s, n)
  {
    if n >= 2 {
      SectionEndNewline(s, n - 1);
    }
  }

  lemma NameNewline(s: string)
    ensures NameMatch(s + "\n") == NameMatch(s)
  {
    hide SkipBlanks, RunLength, SectionEnd;
    var n := RunLength(s);
    RunNewline(s);
    assert (s + "\n")[n..] == s[n..] + "\n" && (s + "\n")[..n] == s[..n];
    SkipNewline(s[n..]);
    SectionEndNewline(s, n);
    assert (s + "\n")[..SectionEnd(s, n)] == s[..SectionEnd(s, n)];
  }

  lemma SectionNewline(line: string)
    ensures SectionMatch(line + "\n") == SectionMatch(line)
  {
    hide SkipBlanks, NameMatch;
    SkipNewline(line);
    var open := SkipBlanks(line);
    if open != "" {
      assert (open + "\n")[1..] == open[1..] + "\n";
      SkipNewline(open[1..]);
      NameNewline(SkipBlanks(open[1..]));
    }
  }

  lemma KeyNewline(line: string)
    ensures KeyMatch(line + "\n") == KeyMatch(line)
  {
    hide SkipBlanks, RunLength, KeyEnd, ValueMatch;
    SkipNewline(line);
    var s := SkipBlanks(line);
    if s != "" {
      var n := RunLength(s);
      RunNewline(s);
      assert (s + "\n")[n..] == s[n..] + "\n" && (s + "\n")[..n] == s[..n];
      SkipNewline(s[n..]);
      ValueNewline(SkipBlanks(s[n..]));
      KeyEndNewline(s, n);
      var k := KeyEnd(s, n);
      assert (s + "\n")[..k] == s[..k] && (s + "\n")[k..] == s[k..] + "\n";
      ValueNewline(s[k..]);
    }
  }

  lemma ParseNewline(line: string)
    ensures Parse(line + "\n") == Parse(line)
  {
    hide SectionMatch, KeyMatch;
    SectionNewline(line);
    KeyNewline(line);
  }

  /** Nor do blanks before it. */
  lemma ParseAfterBlanks(b: string, line: string)
    requires AllBlank(b) && line != "" && !Blank(line[0])
    ensures Parse(b + line) == Parse(line)
  {
    SkipOf(b, line);
  }

  // ---------- anything else before it does ----------

  /** The number of characters that are not blank. */
  function Dense(s: string): nat {
    if s == "" then 0 else (if Blank(s[0]) then 0 else 1) + Dense(s[1..])
  }

  lemma {:induction false} DenseAppend(a: string, b: string)
    ensures Dense(a + b) == Dense(a) + Dense(b)
  {
    if a == "" {
      assert a + b == b;
    } else {
      assert (a + b)[1..] == a[1..] + b;
      DenseAppend(a[1..], b);
    }
  }

  lemma {:induction false} DenseBlank(s: string)
    ensures Dense(s) == 0 <==> AllBlank(s)
  {
    if s != "" {
      DenseBlank(s[1..]);
      assert s == [s[0]] + s[1..];
      if AllBlank(s[1..]) && Blank(s[0]) {
        forall i | 0 <= i < |s| ensures Blank(s[i]) {
          if i > 0 { assert s[i] == s[1..][i - 1]; }
        }
      }
      if AllBlank(s) {
        assert forall i :: 0 <= i < |s[1..]| ==> s[1..][i] == s[i + 1];
      }
    }
  }

  /** How many characters of a line that reads as a pair are not blank. */
  lemma DensePair(b1: string, key: string, b2: string, b3: string, value: string, rest: string)
    requires AllBlank(b1) && AllBlank(b2) && AllBlank(b3) && AllBlank(rest)
    ensures Dense(b1 + (key + (b2 + ("=" + (b3 + (value + rest)))))) == Dense(key) + 1 + Dense(value)
  {
    DenseBlank(b1);
    DenseBlank(b2);
    DenseBlank(b3);
    DenseBlank(rest);
    DenseAppend(value, rest);
    DenseAppend(b3, value + rest);
    DenseAppend("=", b3 + (value + rest));
    DenseAppend(b2, "=" + (b3 + (value + rest)));
    DenseAppend(key, b2 + ("=" + (b3 + (value + rest))));
    DenseAppend(b1, key + (b2 + ("=" + (b3 + (value + rest)))));
    assert Dense("=") == 1 by { assert "="[1..] == "" && !Blank('='); }
  }

  /** A pair written directly after something that is not blank is not read back as that pair. */
  lemma GluedPair(x: string, k: string, v: string)
    requires !AllBlank(x) && NoBreak(x) && GoodKey(k) && GoodValue(v)
    ensures Parse(x + PairLine(k, v)) != Pair(k, v)
  {
    hide SectionMatch, KeyMatch;
    var line := x + PairLine(k, v);
    if Parse(line) == Pair(k, v) {
      var b1, b2, b3, rest := KeyMatchSplits(line);
      OnlyLastBreak(x, k, v);
      DenseSplit(line, b1, k, b2, b3, v, rest);
      DenseLine(k, v);
      hide PairLine, SplitsAsPair, Dense;
      DenseAppend(x, PairLine(k, v));
      DenseBlank(x);
    }
  }

  lemma DenseSplit(line: string, b1: string, k: string, b2: string, b3: string, v: string, rest: string)
    requires SplitsAsPair(line, b1, k, b2, b3, v, rest)
    requires line[|line| - 1] == '\n' && NoBreak(line[..|line| - 1])
    ensures Dense(line) == Dense(k) + 1 + Dense(v)
  {
    hide Dense, Blank;
    var front := b1 + (k + (b2 + ("=" + b3)));
    assert line == front + (v + rest);
    RestIsNewline(line, front, v, rest);
    DensePair(b1, k, b2, b3, v, rest);
  }

  lemma DenseLine(k: string, v: string)
    ensures Dense(PairLine(k, v)) == Dense(k) + 1 + Dense(v)
  {
    assert Blank('\n') && Blank(' ');
    hide Dense, Blank;
    assert PairLine(k, v) == "" + (k + (" " + ("=" + (" " + (v + "\n")))));
    DensePair("", k, " ", " ", v, "\n");
  }

  lemma OnlyLastBreak(x: string, k: string, v: string)
    requires NoBreak(x) && GoodKey(k) && GoodValue(v)
    ensures var line := x + PairLine(k, v);
      line[|line| - 1] == '\n' && NoBreak(line[..|line| - 1])
  {
    var line := x + PairLine(k, v);
    assert Blank('\n') && Blank('\r');
    assert line[..|line| - 1] == x + k + " = " + v;
  }

  lemma RestIsNewline(line: string, front: string, v: string, rest: string)
    requires line != "" && line[|line| - 1] == '\n' && NoBreak(line[..|line| - 1]) && NoBreak(v)
    requires v != "" && line == front + (v + rest) && (rest == "" || rest[0] == '\n' || rest[0] == '\r')
    ensures AllBlank(rest)
  {
    assert Blank('\n');
    if |rest| > 1 {
      BreakWithin(line, |front| + |v|);
    }
  }

  lemma BreakWithin(line: string, n: nat)
    requires n < |line| - 1 && NoBreak(line[..|line| - 1])
    ensures line[n] != '\n' && line[n] != '\r'
  {
    assert line[..|line| - 1][n] == line[n];
  }

  /** A header written directly after something that is not blank and no header is not read back as that
      header. */
  lemma GluedHeader(x: string, s: string)
    requires !AllBlank(x) && SectionMatch(x).None? && GoodSection(s)
    ensures Parse(x + HeaderLine(s)) != Header(s)
  {
    hide SectionMatch, KeyMatch;
    var line := x + HeaderLine(s);
    if Parse(line) == Header(s) {
      var b1, b2, b3, rest := SectionMatchSplits(line);
      NameCannotBe(x, s, line, b1, b2, b3, rest);
    }
  }

  lemma NameCannotBe(x: string, s: string, line: string, b1: string, b2: string, b3: string, rest: string)
    requires !AllBlank(x) && SectionMatch(x).None? && GoodSection(s) && line == x + HeaderLine(s)
    requires SplitsAsSection(line, b1, b2, s, b3, rest)
    ensures SectionMatch(line) != Some(s)
  {
    hide SectionMatch;
    var q := |b1| + 1 + |b2|;
    var n := |x|;
    assert line[n] == '[' && line[n + 1 + |s|] == ']' && line[n + 1..n + 1 + |s|] == s && line[q..q + |s|] == s;
    BracketIsWithin(x, s, line, b1, b2, b3, rest);
    var name := line[q..n + 1 + |s|];
    LongerName(line, s, q, n);
    assert line == b1 + ("[" + (b2 + (name + ("" + ("]" + line[n + 2 + |s|..])))));
    SectionMatchIsLongest(line, b1, b2, name, "", line[n + 2 + |s|..]);
  }

  /** The bracket of the header that was written is a character of the name that was read. */
  lemma BracketIsWithin(x: string, s: string, line: string, b1: string, b2: string, b3: string, rest: string)
    requires !AllBlank(x) && SectionMatch(x).None? && GoodSection(s) && line == x + HeaderLine(s)
    requires SplitsAsSection(line, b1, b2, s, b3, rest)
    ensures |b1| + 1 + |b2| <= |x| < |b1| + 1 + |b2| + |s|
  {
    hide SectionMatch;
    var q := |b1| + 1 + |b2|;
    var p := q + |s| + |b3|;
    assert !Blank('[');
    SplitAt(line, b1, b2, s, b3, rest);
    BlankPrefix(x, HeaderLine(s), b1);
    assert line[|x|] == '[';
    if p < |x| {
      assert x[..p + 1] == line[..p + 1];
      BracketBefore(x, b1, b2, s, b3);
    }
  }

  lemma SplitAt(line: string, b1: string, b2: string, s: string, b3: string, rest: string)
    requires SplitsAsSection(line, b1, b2, s, b3, rest)
    ensures var q := |b1| + 1 + |b2|;
      var p := q + |s| + |b3|;
      && p < |line| && line[..|b1|] == b1 && line[p] == ']' && line[..p + 1] == b1 + "[" + b2 + s + b3 + "]"
      && (forall i :: |b1| < i < q ==> Blank(line[i]))
      && (forall i :: q + |s| <= i < p ==> Blank(line[i]))
  {
    var q := |b1| + 1 + |b2|;
    var p := q + |s| + |b3|;
    assert forall i :: |b1| < i < q ==> line[i] == b2[i - |b1| - 1];
    assert forall i :: q + |s| <= i < p ==> line[i] == b3[i - q - |s|];
  }

  lemma BlankPrefix(x: string, y: string, b: string)
    requires !AllBlank(x) && AllBlank(b) && |b| <= |x + y| && (x + y)[..|b|] == b
    ensures |b| < |x|
  {
    var i :| 0 <= i < |x| && !Blank(x[i]);
    if i < |b| {
      assert b[i] == x[i];
    }
  }

  lemma BracketBefore(x: string, b1: string, b2: string, s: string, b3: string)
    requires AllBlank(b1) && AllBlank(b2) && AllBlank(b3) && GoodSection(s)
    requires var front := b1 + "[" + b2 + s + b3 + "]";
      |front| <= |x| && x[..|front|] == front
    ensures SectionMatch(x).Some?
  {
    hide SectionMatch;
    var rest := x[|b1| + 1 + |b2| + |s| + |b3| + 1..];
    assert x == b1 + ("[" + (b2 + (s + (b3 + ("]" + rest)))));
    SectionMatchIsLongest(x, b1, b2, s, b3, rest);
  }

  lemma LongerName(line: string, s: string, q: nat, n: nat)
    requires q <= n < q + |s| && n + 1 + |s| < |line| && NoBlank(s)
    requires line[q..q + |s|] == s && line[n + 1..n + 1 + |s|] == s
    ensures NoBlank(line[q..n + 1 + |s|])
  {
    forall i | q <= i < n + 1 + |s| ensures !Blank(line[i]) {
      if i < q + |s| {
        assert line[i] == line[q..q + |s|][i - q];
      } else {
        assert line[i] == line[n + 1..n + 1 + |s|][i - n - 1];
      }
    }
  }
}
