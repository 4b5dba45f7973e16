/** merge_params and extract_params (configutils.py): rewriting an ini file line by line, and reading it back. */
module IniFile {
  import opened Wrappers
  import opened IniLine

  type Params = map<string, map<string, string>>

  // ---------- a text and its lines ----------

  /** The length of the first line, its newline included. */
  function LineLength(text: string): (n: nat)
    requires text != ""
    ensures 0 < n <= |text| && (n < |text| ==> text[n - 1] == '\n')
    ensures forall i :: 0 <= i < n - 1 ==> text[i] != '\n'
  {
    if text[0] == '\n' || |text| == 1 then 1 else 1 + LineLength(text[1..])
  }

  /** readlines, once line ends have been translated: every line keeps its newline. */
  function ReadLines(text: string): seq<string> {
    if text == "" then [] else [text[..LineLength(text)]] + ReadLines(text[LineLength(text)..])
  }

  function Concat(lines: seq<string>): string {
    if lines == [] then "" else lines[0] + Concat(lines[1..])
  }

  predicate IsLine(line: string) {
    line != "" && line[|line| - 1] == '\n' && forall i :: 0 <= i < |line| - 1 ==> line[i] != '\n'
  }

  predicate AllLines(lines: seq<string>) {
    forall i :: 0 <= i < |lines| ==> IsLine(lines[i])
  }

  predicate Terminated(text: string) {
    text == "" || text[|text| - 1] == '\n'
  }

  /** What readlines can yield: only the last line may lack its newline, and it is not empty then. */
  predicate LinesOfText(lines: seq<string>) {
    forall i :: 0 <= i < |lines| ==> IsLine(lines[i]) || (i == |lines| - 1 && IsOpenLine(lines[i]))
  }

  predicate IsOpenLine(line: string) {
    line != "" && forall i :: 0 <= i < |line| ==> line[i] != '\n'
  }

  lemma FirstLine(text: string)
    requires text != ""
    ensures var n := LineLength(text);
      && (IsLine(text[..n]) || (n == |text| && IsOpenLine(text)))
      && (IsLine(text[..n]) ==> (Terminated(text) <==> Terminated(text[n..])))
      && text == text[..n] + text[n..]
  {
    hide LineLength, IsLine, IsOpenLine, Terminated;
    var n := LineLength(text);
    LengthOfFirst(text, n);
    if text[n - 1] == '\n' {
      TerminatedRest(text, n);
    } else {
      assert text[..n] == text;
      OpenIsNoLine(text);
    }
  }

  lemma TerminatedRest(text: string, n: nat)
    requires 0 < n <= |text| && text[n - 1] == '\n'
    ensures Terminated(text) <==> Terminated(text[n..])
  {
  }

  lemma LengthOfFirst(text: string, n: nat)
    requires text != "" && n == LineLength(text)
    ensures text[n - 1] == '\n' ==> IsLine(text[..n])
    ensures text[n - 1] != '\n' ==> n == |text| && IsOpenLine(text)
  {
    hide LineLength;
    var line := text[..n];
    assert forall i :: 0 <= i < n ==> line[i] == text[i];
  }

  /** The lines of a text make up the text, and all end in a newline exactly if the text does. */
  lemma {:induction false} TextHasLines(text: string)
    ensures LinesOfText(ReadLines(text)) && Concat(ReadLines(text)) == text
    ensures AllLines(ReadLines(text)) <==> Terminated(text)
  {
    hide IsLine, IsOpenLine, LineLength, Terminated;
    if text == "" {
      NothingIsTerminated();
    } else {
      FirstLine(text);
      var n := LineLength(text);
      TextHasLines(text[n..]);
      assert ReadLines(text)[1..] == ReadLines(text[n..]);
      OpenIsNoLine(text);
      if n == |text| {
        assert text[..n] == text && ReadLines(text) == [text];
        NothingIsTerminated();
      } else {
        assert ReadLines(text[n..]) != [];
        assert forall i :: 0 < i < |ReadLines(text)| ==> ReadLines(text)[i] == ReadLines(text[n..])[i - 1];
        assert forall i :: 0 <= i < |ReadLines(text[n..])| ==> ReadLines(text[n..])[i] == ReadLines(text)[i + 1];
      }
    }
  }

  lemma OpenIsNoLine(line: string)
    ensures IsOpenLine(line) ==> !IsLine(line) && !Terminated(line)
  {
  }

  lemma LineFirst(line: string, rest: string)
    requires IsLine(line) || (IsOpenLine(line) && rest == "")
    ensures var text := line + rest;
      text != "" && LineLength(text) == |line| && text[..|line|] == line && text[|line|..] == rest
  {
    hide LineLength;
    var text := line + rest;
    assert text[|line| - 1] == line[|line| - 1] && forall i :: 0 <= i < |line| - 1 ==> text[i] == line[i];
    assert LineLength(text) < |text| ==> text[LineLength(text) - 1] == '\n';
  }

  /** What is written as lines is read back as these lines. */
  lemma {:induction false} ReadBack(lines: seq<string>)
    requires LinesOfText(lines)
    ensures ReadLines(Concat(lines)) == lines
  {
    hide IsLine, IsOpenLine, LineLength;
    if lines != [] {
      ReadBack(lines[1..]);
      LineFirst(lines[0], Concat(lines[1..]));
    }
  }

  lemma NothingIsTerminated()
    ensures Terminated("")
  {
  }

  lemma {:induction false} ConcatAppend(a: seq<string>, b: seq<string>)
    ensures Concat(a + b) == Concat(a) + Concat(b)
  {
    if a == [] {
      assert a + b == b;
    } else {
      assert (a + b)[1..] == a[1..] + b;
      ConcatAppend(a[1..], b);
    }
  }

  // ---------- what a list of lines means ----------

  /** The section that a line after these would belong to. */
  function SectionAt(lines: seq<string>): Option<string> {
    if lines == [] then None
    else
      var n := |lines| - 1;
      match Parse(lines[n])
      case Header(s) => Some(s)
      case _ => SectionAt(lines[..n])
  }

  /** How often a section has been opened. */
  function Opened(lines: seq<string>, s: string): nat {
    if lines == [] then 0
    else
      var n := |lines| - 1;
      Opened(lines[..n], s) + if Parse(lines[n]) == Header(s) then 1 else 0
  }

  predicate IsKey(line: string, k: string) {
    Parse(line).Pair? && Parse(line).key == k
  }

  /** The value that extract_params finds: that of the last line with this key in this section. */
  function ValueOf(lines: seq<string>, s: string, k: string): Option<string> {
    if lines == [] then None
    else
      var n := |lines| - 1;
      if IsKey(lines[n], k) && SectionAt(lines[..n]) == Some(s) then Some(Parse(lines[n]).value)
      else ValueOf(lines[..n], s, k)
  }

  /** Line j sets key k in section s. */
  predicate Occurs(lines: seq<string>, s: string, k: string, j: nat)
    requires j < |lines|
  {
    IsKey(lines[j], k) && SectionAt(lines[..j]) == Some(s)
  }

  /** The key occurs twice, or in a section that has been opened before. */
  predicate Repeats(lines: seq<string>, s: string, k: string) {
    exists j :: 0 <= j < |lines| && Occurs(lines, s, k, j) &&
      (Opened(lines[..j], s) > 1 || exists i :: 0 <= i < j && Occurs(lines, s, k, i))
  }

  // ---------- one more line ----------

  lemma Snoc(lines: seq<string>, line: string)
    ensures var all := lines + [line];
      && all[..|lines|] == lines && all[|lines|] == line
      && SectionAt(all) == (if Parse(line).Header? then Some(Parse(line).section) else SectionAt(lines))
      && (forall s :: Opened(all, s) == Opened(lines, s) + if Parse(line) == Header(s) then 1 else 0)
      && (forall s, k :: ValueOf(all, s, k) ==
            if IsKey(line, k) && SectionAt(lines) == Some(s) then Some(Parse(line).value) else ValueOf(lines, s, k))
  {
    var all := lines + [line];
    assert all[..|lines|] == lines;
  }

  lemma PrefixOccurs(lines: seq<string>, n: nat, s: string, k: string)
    requires n <= |lines|
    ensures forall j :: 0 <= j < n ==> lines[..n][..j] == lines[..j]
    ensures forall j :: 0 <= j < n ==> (Occurs(lines[..n], s, k, j) <==> Occurs(lines, s, k, j))
  {
    hide Parse;
    assert forall j :: 0 <= j < n ==> lines[..n][..j] == lines[..j];
  }

  lemma {:induction false} ValueMeansOccurs(lines: seq<string>, s: string, k: string)
    ensures ValueOf(lines, s, k).Some? <==> exists j :: 0 <= j < |lines| && Occurs(lines, s, k, j)
  {
    hide Parse;
    if lines != [] {
      var n := |lines| - 1;
      ValueMeansOccurs(lines[..n], s, k);
      PrefixOccurs(lines, n, s, k);
      if j :| 0 <= j < n && Occurs(lines[..n], s, k, j) {
        assert Occurs(lines, s, k, j);
      }
      if Occurs(lines, s, k, n) {
        assert ValueOf(lines, s, k).Some?;
      }
    }
  }

  lemma {:induction false} OpenSection(lines: seq<string>, s: string)
    ensures SectionAt(lines) == Some(s) ==> Opened(lines, s) > 0
  {
    if lines != [] {
      OpenSection(lines[..|lines| - 1], s);
    }
  }

  lemma RepeatsSnoc(lines: seq<string>, line: string, s: string, k: string)
    ensures Repeats(lines + [line], s, k) <==>
      Repeats(lines, s, k) ||
      (IsKey(line, k) && SectionAt(lines) == Some(s) && (Opened(lines, s) > 1 || ValueOf(lines, s, k).Some?))
  {
    hide Parse;
    var all := lines + [line];
    var n := |lines|;
    assert all[..n] == lines;
    PrefixOccurs(all, n, s, k);
    ValueMeansOccurs(lines, s, k);
    if Repeats(lines, s, k) {
      var j :| 0 <= j < n && Occurs(lines, s, k, j) &&
        (Opened(lines[..j], s) > 1 || exists i :: 0 <= i < j && Occurs(lines, s, k, i));
      assert Occurs(all, s, k, j);
      if i :| 0 <= i < j && Occurs(lines, s, k, i) {
        assert Occurs(all, s, k, i);
      }
      assert Repeats(all, s, k);
    }
    if Repeats(all, s, k) {
      var j :| 0 <= j < n + 1 && Occurs(all, s, k, j) &&
        (Opened(all[..j], s) > 1 || exists i :: 0 <= i < j && Occurs(all, s, k, i));
      if j < n {
        assert Occurs(lines, s, k, j);
        if i :| 0 <= i < j && Occurs(all, s, k, i) {
          assert Occurs(lines, s, k, i);
        }
        assert Repeats(lines, s, k);
      } else if i :| 0 <= i < n && Occurs(all, s, k, i) {
        assert Occurs(lines, s, k, i);
      }
    }
    if Occurs(all, s, k, n) && ValueOf(lines, s, k).Some? {
      var i :| 0 <= i < n && Occurs(lines, s, k, i);
      assert Occurs(all, s, k, i);
    }
  }
}
