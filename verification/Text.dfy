/**
  Strings as the Python sources see them: `str.strip`, `str.splitlines`, `"\n".join`, and the
  newline translation a text-mode read performs.  A string is a sequence of Unicode characters.
 */
module Text {

  /** The line boundaries of `str.splitlines`; "\r\n" counts as one. */
  predicate IsLineBreak(c: char) {
    || c == '\n' || c == '\r' || c == '\U{0B}' || c == '\U{0C}' || c == '\U{1C}' || c == '\U{1D}'
    || c == '\U{1E}' || c == '\U{85}' || c == '\U{2028}' || c == '\U{2029}'
  }

  /** The characters removed by `str.strip()`. */
  predicate IsSpace(c: char) {
    || IsLineBreak(c) || c == ' ' || c == '\t' || c == '\U{1F}' || c == '\U{A0}' || c == '\U{1680}'
    || '\U{2000}' <= c <= '\U{200A}' || c == '\U{202F}' || c == '\U{205F}' || c == '\U{3000}'
  }

  predicate NoBreaks(s: string) {
    forall i :: 0 <= i < |s| ==> !IsLineBreak(s[i])
  }

  predicate Trimmed(s: string) {
    s == "" || (!IsSpace(s[0]) && !IsSpace(s[|s| - 1]))
  }

  function LTrim(s: string): string {
    if s != "" && IsSpace(s[0]) then LTrim(s[1..]) else s
  }

  function RTrim(s: string): string {
    if s != "" && IsSpace(s[|s| - 1]) then RTrim(s[..|s| - 1]) else s
  }

  function Trim(s: string): string {
    RTrim(LTrim(s))
  }

  predicate Blank(s: string) {
    Trim(s) == ""
  }

  function SplitLines(s: string): seq<string> {
    if s == "" then []
    else if IsLineBreak(s[0]) then
      [""] + SplitLines(if "\r\n" <= s then s[2..] else s[1..])
    else
      var rest := SplitLines(s[1..]);
      if rest == [] then [[s[0]]]
      else [[s[0]] + rest[0]] + rest[1..]
  }

  function Join(lines: seq<string>): string {
    if lines == [] then ""
    else if |lines| == 1 then lines[0]
    else lines[0] + "\n" + Join(lines[1..])
  }

  /** What a text-mode read does to the characters on disk. */
  function UniversalNewlines(s: string): string {
    if s == "" then ""
    else if "\r\n" <= s then "\n" + UniversalNewlines(s[2..])
    else if s[0] == '\r' then "\n" + UniversalNewlines(s[1..])
    else [s[0]] + UniversalNewlines(s[1..])
  }

  // ----- case (ASCII letters) -----

  function UpperChar(c: char): char {
    if 'a' <= c <= 'z' then c - 'a' + 'A' else c
  }

  function LowerChar(c: char): char {
    if 'A' <= c <= 'Z' then c - 'A' + 'a' else c
  }

  function Upper(s: string): string {
    seq(|s|, i requires 0 <= i < |s| => UpperChar(s[i]))
  }

  function Lower(s: string): string {
    seq(|s|, i requires 0 <= i < |s| => LowerChar(s[i]))
  }

  /** The two classes and the case pairs by code point. */
  lemma CodePoints(c: char)
    ensures IsLineBreak(c) <==> 10 <= c as int <= 13 || 28 <= c as int <= 30 || c as int in {133, 8232, 8233}
    ensures IsSpace(c) <==> || 9 <= c as int <= 13 || 28 <= c as int <= 32 || 8192 <= c as int <= 8202
                            || c as int in {133, 160, 5760, 8232, 8233, 8239, 8287, 12288}
    ensures LowerChar(c) as int == if 65 <= c as int <= 90 then c as int + 32 else c as int
    ensures UpperChar(c) as int == if 97 <= c as int <= 122 then c as int - 32 else c as int
  {
  }

  lemma LowerIdentity(s: string)
    requires forall i :: 0 <= i < |s| ==> !('A' <= s[i] <= 'Z')
    ensures Lower(s) == s
  {
  }

  // ----- numbers -----

  function Digit(n: nat): char
    requires n < 10
  {
    "0123456789"[n]
  }

  /** A number as Python formats it. */
  function Printed(n: nat): string {
    if n < 10 then [Digit(n)] else Printed(n / 10) + [Digit(n % 10)]
  }

  lemma {:induction false} PrintedDigits(n: nat)
    ensures Printed(n) != "" && forall c :: c in Printed(n) ==> '0' <= c <= '9'
  {
    if n >= 10 {
      PrintedDigits(n / 10);
    }
  }

  // ----- trimming -----

  lemma {:induction false} RTrimShape(s: string)
    ensures |RTrim(s)| <= |s| && RTrim(s) == s[..|RTrim(s)|]
    ensures forall i :: |RTrim(s)| <= i < |s| ==> IsSpace(s[i])
    ensures RTrim(s) != "" ==> !IsSpace(RTrim(s)[|RTrim(s)| - 1])
  {
    hide IsSpace;
    if s != "" && IsSpace(s[|s| - 1]) {
      RTrimShape(s[..|s| - 1]);
    }
  }

  lemma {:induction false} LTrimShape(s: string)
    ensures |LTrim(s)| <= |s| && LTrim(s) == s[|s| - |LTrim(s)|..]
    ensures forall i :: 0 <= i < |s| - |LTrim(s)| ==> IsSpace(s[i])
    ensures LTrim(s) != "" ==> !IsSpace(LTrim(s)[0])
  {
    hide IsSpace;
    if s != "" && IsSpace(s[0]) {
      var t := s[1..];
      LTrimShape(t);
      var k := |t| - |LTrim(t)|;
      assert s[k + 1..] == t[k..];
      forall i | 0 <= i < k + 1 ensures IsSpace(s[i]) {
        if i > 0 {
          assert s[i] == t[i - 1];
        }
      }
    } else {
      assert s[0..] == s;
    }
  }

  lemma TrimShape(s: string)
    ensures Trimmed(Trim(s))
    ensures NoBreaks(s) ==> NoBreaks(Trim(s))
  {
    LTrimShape(s);
    RTrimShape(LTrim(s));
  }

  lemma TrimIdentity(s: string)
    requires Trimmed(s)
    ensures Trim(s) == s
  {
  }

  /** `strip` leaves nothing exactly when every character is whitespace. */
  lemma BlankMeansSpaces(s: string)
    ensures Blank(s) <==> forall i :: 0 <= i < |s| ==> IsSpace(s[i])
    ensures Blank(s) <==> RTrim(s) == ""
  {
    LTrimShape(s);
    RTrimShape(LTrim(s));
    RTrimShape(s);
    if !Blank(s) {
      assert !IsSpace(LTrim(s)[0]);
      assert LTrim(s)[0] == s[|s| - |LTrim(s)|];
    }
  }

  /** Trimming the right end does not change what `strip` yields. */
  lemma {:induction false} TrimOfRTrim(s: string)
    ensures Trim(RTrim(s)) == Trim(s)
  {
    hide IsSpace;
    if s != "" && IsSpace(s[|s| - 1]) {
      var t := s[..|s| - 1];
      TrimOfRTrim(t);
      TrimSnoc(t, s[|s| - 1]);
      assert s == t + [s[|s| - 1]];
    }
  }

  lemma {:induction false} TrimSnoc(t: string, c: char)
    requires IsSpace(c)
    ensures Trim(t + [c]) == Trim(t)
  {
    hide IsSpace;
    if t == "" {
      assert LTrim([c]) == LTrim([c][1..]) == "";
      assert t + [c] == [c];
    } else if IsSpace(t[0]) {
      TrimSnoc(t[1..], c);
      assert (t + [c])[1..] == t[1..] + [c];
    } else {
      assert (t + [c])[..|t|] == t;
    }
  }

  lemma {:induction false} RTrimConcat(a: string, b: string)
    ensures RTrim(a + b) == if RTrim(b) == "" then RTrim(a) else a + RTrim(b)
  {
    hide IsSpace;
    if b == "" {
      assert a + b == a;
    } else if IsSpace(b[|b| - 1]) {
      RTrimConcat(a, b[..|b| - 1]);
      assert (a + b)[..|a + b| - 1] == a + b[..|b| - 1];
    }
  }

  // ----- splitting and joining -----

  lemma {:induction false} SplitLinesNoBreaks(s: string)
    ensures forall l :: l in SplitLines(s) ==> NoBreaks(l)
    ensures s != "" ==> SplitLines(s) != []
  {
    if s == "" {
    } else if IsLineBreak(s[0]) {
      SplitLinesNoBreaks(if "\r\n" <= s then s[2..] else s[1..]);
    } else {
      SplitLinesNoBreaks(s[1..]);
      var rest := SplitLines(s[1..]);
      if rest != [] {
        assert NoBreaks(rest[0]);
      }
    }
  }

  /** A line without boundaries followed by one is exactly the first line. */
  lemma {:induction false} SplitLinesBreak(l: string, c: char, t: string)
    requires NoBreaks(l) && IsLineBreak(c) && c != '\r'
    ensures SplitLines(l + [c] + t) == [l] + SplitLines(t)
  {
    var s := l + [c] + t;
    if l == "" {
      assert s[0] == c && s[1..] == t;
    } else {
      SplitLinesBreak(l[1..], c, t);
      assert s[1..] == l[1..] + [c] + t;
      assert [s[0]] + l[1..] == l;
    }
  }

  lemma SplitLinesFirst(l: string, t: string)
    requires NoBreaks(l)
    ensures SplitLines(l + "\n" + t) == [l] + SplitLines(t)
  {
    SplitLinesBreak(l, '\n', t);
  }

  /** `splitlines` undoes a join followed by one "\n". */
  lemma {:induction false} SplitJoin(lines: seq<string>)
    requires lines != [] && forall l :: l in lines ==> NoBreaks(l)
    ensures SplitLines(Join(lines) + "\n") == lines
  {
    var first, rest := lines[0], lines[1..];
    if rest == [] {
      SplitLinesFirst(first, "");
      assert first + "\n" + "" == first + "\n";
    } else {
      SplitJoin(rest);
      hide SplitLines, NoBreaks;
      SplitLinesFirst(first, Join(rest) + "\n");
      assert Join(lines) + "\n" == first + "\n" + (Join(rest) + "\n");
    }
  }

  lemma {:induction false} JoinConcat(a: seq<string>, b: seq<string>)
    requires b != []
    ensures Join(a + b) == if a == [] then Join(b) else Join(a) + "\n" + Join(b)
  {
    if a == [] {
      assert a + b == b;
    } else {
      var rest := a[1..];
      JoinConcat(rest, b);
      JoinHead(a[0], rest + b);
      assert a + b == [a[0]] + (rest + b);
      if rest != [] {
        JoinHead(a[0], rest);
        assert a == [a[0]] + rest;
        hide Join;
      }
    }
  }

  lemma JoinHead(l: string, rest: seq<string>)
    requires rest != []
    ensures Join([l] + rest) == l + "\n" + Join(rest)
  {
    assert ([l] + rest)[1..] == rest;
  }

  /** A text-mode read's newline translation moves no line boundary. */
  lemma {:induction false} UniversalSplit(s: string)
    ensures SplitLines(UniversalNewlines(s)) == SplitLines(s)
    ensures s != "" ==> UniversalNewlines(s) != ""
    ensures s != "" ==> (UniversalNewlines(s)[0] == '\n' <==> s[0] == '\n' || s[0] == '\r')
  {
    if s == "" {
    } else if "\r\n" <= s {
      UniversalSplit(s[2..]);
      assert UniversalNewlines(s)[1..] == UniversalNewlines(s[2..]);
    } else {
      UniversalSplit(s[1..]);
      assert UniversalNewlines(s)[1..] == UniversalNewlines(s[1..]);
    }
  }

  // ----- right-trimming a block of lines -----

  /** The lines left once trailing whitespace, whole blank lines included, is removed. */
  function TrimTail(lines: seq<string>): seq<string> {
    if lines == [] then []
    else
      var last := lines[|lines| - 1];
      if RTrim(last) == "" then TrimTail(lines[..|lines| - 1])
      else lines[..|lines| - 1] + [RTrim(last)]
  }

  /** `"\n".join(lines).rstrip()` works line by line. */
  lemma {:induction false} RTrimJoin(lines: seq<string>)
    ensures RTrim(Join(lines)) == Join(TrimTail(lines))
  {
    if lines == [] {
    } else if |lines| == 1 {
      assert lines[..0] == [];
    } else {
      var init, last := lines[..|lines| - 1], lines[|lines| - 1];
      assert lines == init + [last];
      JoinConcat(init, [last]);
      RTrimConcat(Join(init) + "\n", last);
      if RTrim(last) == "" {
        RTrimConcat(Join(init), "\n");
        assert RTrim("\n") == RTrim("\n"[..0]) == "";
        RTrimJoin(init);
      } else {
        JoinConcat(init, [RTrim(last)]);
      }
    }
  }

  lemma {:induction false} TrimTailShape(lines: seq<string>)
    ensures |TrimTail(lines)| <= |lines|
    ensures forall i :: 0 <= i < |TrimTail(lines)| ==> Trim(TrimTail(lines)[i]) == Trim(lines[i])
    ensures forall i :: |TrimTail(lines)| <= i < |lines| ==> Blank(lines[i])
    ensures TrimTail(lines) != [] ==> Solid(TrimTail(lines)[|TrimTail(lines)| - 1])
  {
    if lines != [] {
      var init, last := lines[..|lines| - 1], lines[|lines| - 1];
      BlankMeansSpaces(last);
      if RTrim(last) == "" {
        TrimTailShape(init);
        assert forall i :: 0 <= i < |init| ==> init[i] == lines[i];
      } else {
        TrimOfRTrim(last);
        RTrimShape(last);
      }
    }
  }

  /** Not blank, and without trailing whitespace. */
  predicate Solid(line: string) {
    RTrim(line) == line != ""
  }

  lemma {:induction false} TrimTailNoBreaks(lines: seq<string>)
    requires forall l :: l in lines ==> NoBreaks(l)
    ensures forall l :: l in TrimTail(lines) ==> NoBreaks(l)
  {
    if lines != [] {
      var init, last := lines[..|lines| - 1], lines[|lines| - 1];
      RTrimShape(last);
      assert last in lines;
      TrimTailNoBreaks(init);
      assert forall l :: l in init ==> l in lines;
    }
  }

  lemma TrimTailFixed(lines: seq<string>)
    requires lines == [] || Solid(lines[|lines| - 1])
    ensures TrimTail(lines) == lines
  {
    if lines != [] {
      assert lines == lines[..|lines| - 1] + [lines[|lines| - 1]];
    }
  }
}
