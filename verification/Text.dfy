/** The Python string operations the scripts lean on: whitespace stripping, line splitting and
    joining, case folding against ASCII needles, and decimal rendering of issue numbers. */
module Text {

  datatype Option<+T> = None | Some(value: T)

  function OrElse<T>(a: Option<T>, b: Option<T>): Option<T> { if a.Some? then a else b }

  lemma Assoc<T>(a: seq<T>, b: seq<T>, c: seq<T>)
    ensures (a + b) + c == a + (b + c)
  {
  }

  // ---------------------------------------------------------------- characters

  /** The boundaries str.splitlines recognises. */
  predicate IsLineBreak(c: char) {
    '\n' <= c <= '\r' || '\U{1c}' <= c <= '\U{1e}' || c == '\U{85}' || c == '\U{2028}' || c == '\U{2029}'
  }

  /** str.isspace, which is also what \s matches. Every line break is a space. */
  predicate IsSpace(c: char) {
    || '\t' <= c <= '\r' || '\U{1c}' <= c <= ' ' || c == '\U{85}' || c == '\U{a0}' || c == '\U{1680}'
    || '\U{2000}' <= c <= '\U{200a}' || c == '\U{2028}' || c == '\U{2029}' || c == '\U{202f}'
    || c == '\U{205f}' || c == '\U{3000}'
  }

  predicate IsDigit(c: char) { '0' <= c <= '9' }

  predicate IsLetter(c: char) { 'A' <= c <= 'Z' || 'a' <= c <= 'z' }

  /** \w, for ASCII text. */
  predicate IsWord(c: char) { IsLetter(c) || IsDigit(c) || c == '_' }

  /** str.lower as far as a comparison with an ASCII needle can see it. */
  function LowerChar(c: char): char {
    if 'A' <= c <= 'Z' then c - 'A' + 'a' else if c == '\U{212a}' then 'k' else c
  }

  /** str.upper, character by character, for the letters a task id pattern can match. */
  function UpperChar(c: char): char {
    if 'a' <= c <= 'z' then c - 'a' + 'A'
    else if c == '\U{17f}' then 'S'
    else if c == '\U{131}' then 'I'
    else c
  }

  function Lower(s: string): (r: string)
    ensures |r| == |s|
    ensures forall i :: 0 <= i < |s| ==> r[i] == LowerChar(s[i])
  {
    seq(|s|, i requires 0 <= i < |s| => LowerChar(s[i]))
  }

  function Upper(s: string): (r: string)
    ensures |r| == |s|
    ensures forall i :: 0 <= i < |s| ==> r[i] == UpperChar(s[i])
  {
    seq(|s|, i requires 0 <= i < |s| => UpperChar(s[i]))
  }

  /** The word in small letters or capitals; the Kelvin sign is a capital k too. */
  predicate AnyCase(p: string, word: string) {
    |p| == |word| && forall k :: 0 <= k < |p| ==> IsCaseOf(p[k], word[k])
  }

  predicate IsCaseOf(c: char, small: char) {
    c == small || ('a' <= small <= 'z' && c == small - 'a' + 'A') || (small == 'k' && c == '\U{212a}')
  }

  lemma SameCase(p: string, word: string)
    requires forall k :: 0 <= k < |word| ==> !('A' <= word[k] <= 'Z') && word[k] < '\U{80}'
    ensures Lower(p) == word <==> AnyCase(p, word)
  {
    if Lower(p) == word {
      forall k | 0 <= k < |p| ensures IsCaseOf(p[k], word[k]) { assert LowerChar(p[k]) == word[k]; }
    }
  }

  /** Capitals hold no small letter, and are the same text but for the case. */
  lemma UpperFolds(s: string)
    ensures forall c :: c in Upper(s) ==> !('a' <= c <= 'z')
    ensures (forall c :: c in s ==> c < '\U{80}') ==> Lower(Upper(s)) == Lower(s)
  {
    var u := Upper(s);
    forall c | c in u ensures !('a' <= c <= 'z') {
      var i :| 0 <= i < |u| && u[i] == c;
      assert u[i] == UpperChar(s[i]);
    }
    if forall c :: c in s ==> c < '\U{80}' {
      forall i | 0 <= i < |s| ensures Lower(u)[i] == Lower(s)[i] { assert s[i] in s && u[i] == UpperChar(s[i]); }
    }
  }

  /** needle in s. */
  predicate Contains(s: string, needle: string) {
    exists i :: 0 <= i <= |s| && needle <= s[i..]
  }

  // ---------------------------------------------------------------- strip

  function LStrip(s: string): string {
    if s != [] && IsSpace(s[0]) then LStrip(s[1..]) else s
  }

  function RStrip(s: string): string {
    if s != [] && IsSpace(s[|s| - 1]) then RStrip(s[..|s| - 1]) else s
  }

  function Strip(s: string): string { RStrip(LStrip(s)) }

  predicate Blank(s: string) { forall c :: c in s ==> IsSpace(c) }

  predicate NoBreaks(s: string) { forall c :: c in s ==> !IsLineBreak(c) }

  predicate Stripped(s: string) {
    s == [] || (!IsSpace(s[0]) && !IsSpace(s[|s| - 1]))
  }

  lemma OneMoreCut(s: string, t: string, k: nat)
    requires 0 < k <= |s| && IsSpace(s[0]) && s[1..] == s[1..][..k - 1] + t && Blank(s[1..][..k - 1])
    ensures s == s[..k] + t && Blank(s[..k])
  {
    var cut := s[1..][..k - 1];
    hide IsSpace;
    assert s[..k] == [s[0]] + cut;
    assert s == [s[0]] + (cut + t);
  }

  /** What str.lstrip removes is the longest blank prefix. */
  lemma {:induction false} LStripCut(s: string)
    ensures |LStrip(s)| <= |s| && s == s[..|s| - |LStrip(s)|] + LStrip(s)
    ensures Blank(s[..|s| - |LStrip(s)|])
    ensures LStrip(s) == [] || !IsSpace(LStrip(s)[0])
  {
    if s != [] && IsSpace(s[0]) {
      LStripCut(s[1..]);
      var t := LStrip(s);
      hide LStrip, Blank, IsSpace;
      OneMoreCut(s, t, |s| - |t|);
    }
  }

  /** What str.rstrip removes is the longest blank suffix. */
  lemma {:induction false} RStripCut(s: string)
    ensures RStrip(s) <= s && Blank(s[|RStrip(s)|..])
    ensures RStrip(s) == [] || !IsSpace(RStrip(s)[|RStrip(s)| - 1])
  {
    if s != [] && IsSpace(s[|s| - 1]) {
      RStripCut(s[..|s| - 1]);
      assert s[|RStrip(s)|..] == s[..|s| - 1][|RStrip(s)|..] + [s[|s| - 1]];
    }
  }

  /** No visible character falls off the end. */
  lemma {:induction false} RStripKeeps(s: string, j: nat)
    requires j < |s| && !IsSpace(s[j])
    ensures j < |RStrip(s)|
  {
    if IsSpace(s[|s| - 1]) { RStripKeeps(s[..|s| - 1], j); }
  }

  lemma {:induction false} LStripOfBlankPrefix(indent: string, s: string)
    requires Blank(indent)
    ensures LStrip(indent + s) == LStrip(s)
  {
    if indent == [] {
      assert indent + s == s;
    } else {
      assert (indent + s)[1..] == indent[1..] + s;
      assert forall c :: c in indent[1..] ==> c in indent;
      LStripOfBlankPrefix(indent[1..], s);
      assert indent[0] in indent;
    }
  }

  lemma {:induction false} RStripOfBlankSuffix(s: string, tail: string)
    requires Blank(tail)
    ensures RStrip(s + tail) == RStrip(s)
  {
    if tail == [] {
      assert s + tail == s;
    } else {
      var n := |tail| - 1;
      assert (s + tail)[..|s + tail| - 1] == s + tail[..n];
      assert forall c :: c in tail[..n] ==> c in tail;
      RStripOfBlankSuffix(s, tail[..n]);
      assert tail[n] in tail;
    }
  }

  /** Strip finds the one stripped core of a text, wherever the blank edges were cut. */
  lemma {:induction false} StripCore(left: string, core: string, right: string)
    requires Blank(left) && Blank(right) && Stripped(core)
    ensures Strip(left + core + right) == core
  {
    assert left + core + right == left + (core + right);
    LStripOfBlankPrefix(left, core + right);
    if core == [] {
      assert core + right == right + [] == right;
      LStripOfBlankPrefix(right, []);
    } else {
      assert (core + right)[0] == core[0];
      RStripOfBlankSuffix(core, right);
    }
  }

  lemma {:induction false} StripParts(s: string) returns (left: string, right: string)
    ensures s == left + Strip(s) + right && Blank(left) && Blank(right) && Stripped(Strip(s))
  {
    LStripCut(s);
    RStripCut(LStrip(s));
    var core := Strip(s);
    hide LStrip, RStrip, Blank;
    left, right := s[..|s| - |LStrip(s)|], LStrip(s)[|core|..];
    assert LStrip(s) == core + right;
    assert left + core + right == left + (core + right);
    if core != [] { assert core[0] == LStrip(s)[0]; }
  }

  /** Blank edges added to a text do not change what strip returns. */
  lemma {:induction false} StripPadded(left: string, s: string, right: string)
    requires Blank(left) && Blank(right)
    ensures Strip(left + s + right) == Strip(s)
  {
    var l, r := StripParts(s);
    assert left + s + right == (left + l) + Strip(s) + (r + right);
    StripCore(left + l, Strip(s), r + right);
  }

  lemma StripOf(core: string)
    requires Stripped(core)
    ensures Strip(core) == core && Strip([' '] + core) == core
  {
    assert [] + core + [] == core && [' '] + core + [] == [' '] + core;
    StripCore([], core, []);
    StripCore([' '], core, []);
  }

  lemma {:induction false} StripIdempotent(s: string)
    ensures Strip(Strip(s)) == Strip(s)
  {
    var l, r := StripParts(s);
    assert [] + Strip(s) + [] == Strip(s);
    StripCore([], Strip(s), []);
  }

  // ---------------------------------------------------------------- separators

  function FirstOf(s: string, c: char): (k: nat)
    ensures k <= |s| && c !in s[..k]
    ensures k < |s| <==> c in s
    ensures k < |s| ==> s[k] == c
  {
    if s == [] || s[0] == c then 0
    else
      var k := FirstOf(s[1..], c) + 1;
      assert s[..k] == [s[0]] + s[1..][..k - 1];
      k
  }

  /** str.split(c). */
  function SplitOn(s: string, c: char): (r: seq<string>)
    ensures r != []
    decreases |s|
  {
    var k := FirstOf(s, c);
    if k == |s| then [s] else [s[..k]] + SplitOn(s[k + 1..], c)
  }

  /** c.join(parts). */
  function JoinOn(parts: seq<string>, c: char): string {
    if parts == [] then [] else if |parts| == 1 then parts[0] else parts[0] + [c] + JoinOn(parts[1..], c)
  }

  lemma {:induction false} FirstAfter(a: string, c: char, rest: string)
    requires c !in a
    ensures FirstOf(a + [c] + rest, c) == |a|
  {
    if a == [] {
      assert a + [c] + rest == [c] + rest;
    } else {
      assert a[0] in a;
      assert (a + [c] + rest)[1..] == a[1..] + [c] + rest;
      FirstAfter(a[1..], c, rest);
    }
  }

  // ---------------------------------------------------------------- lines

  /** Index of the first line break, or the length of the text. */
  function LineEnd(s: string): (k: nat)
    ensures k <= |s| && NoBreaks(s[..k])
    ensures k < |s| ==> IsLineBreak(s[k])
  {
    if s == [] || IsLineBreak(s[0]) then 0
    else
      var k := LineEnd(s[1..]) + 1;
      assert s[..k] == [s[0]] + s[1..][..k - 1];
      k
  }

  lemma {:induction false} LineEndShort(s: string, i: nat)
    requires i < |s| && IsLineBreak(s[i])
    ensures LineEnd(s) < |s|
  {
    if i > 0 && !IsLineBreak(s[0]) { LineEndShort(s[1..], i - 1); }
  }

  function BreakWidth(s: string, k: nat): (w: nat)
    requires k < |s|
    ensures 1 <= w && k + w <= |s|
  {
    if s[k] == '\r' && k + 1 < |s| && s[k + 1] == '\n' then 2 else 1
  }

  /** str.splitlines: a trailing line break opens no further line. */
  function SplitLines(s: string): seq<string>
    decreases |s|
  {
    if s == [] then []
    else
      var k := LineEnd(s);
      if k == |s| then [s] else [s[..k]] + SplitLines(s[k + BreakWidth(s, k)..])
  }

  predicate AllNoBreaks(lines: seq<string>) {
    forall i :: 0 <= i < |lines| ==> NoBreaks(lines[i])
  }

  lemma {:induction false} SplitLinesNoBreaks(s: string)
    ensures AllNoBreaks(SplitLines(s))
    decreases |s|
  {
    if s != [] {
      var k := LineEnd(s);
      if k < |s| { SplitLinesNoBreaks(s[k + BreakWidth(s, k)..]); }
      else { assert s[..k] == s; }
    }
  }

  lemma {:induction false} LineEndAt(line: string, rest: string)
    requires NoBreaks(line)
    requires rest == [] || IsLineBreak(rest[0])
    ensures LineEnd(line + rest) == |line|
  {
    if line == [] {
      assert line + rest == rest;
    } else {
      assert (line + rest)[1..] == line[1..] + rest;
      assert forall c :: c in line[1..] ==> c in line;
      assert (line + rest)[0] == line[0] && line[0] in line;
      LineEndAt(line[1..], rest);
    }
  }

  /** Splitting off a first line that is ended by a newline. */
  lemma {:induction false} SplitFirst(line: string, rest: string)
    requires NoBreaks(line)
    ensures SplitLines(line + "\n" + rest) == [line] + SplitLines(rest)
  {
    var s := line + "\n" + rest;
    assert s == line + ("\n" + rest);
    LineEndAt(line, "\n" + rest);
    assert s[|line|] == '\n' && BreakWidth(s, |line|) == 1;
    assert s[..|line|] == line && s[|line| + 1..] == rest;
  }

  lemma {:induction false} SplitSingle(line: string)
    requires NoBreaks(line)
    ensures SplitLines(line) == if line == [] then [] else [line]
  {
    if line != [] {
      assert line + [] == line;
      LineEndAt(line, []);
    }
  }

  /** splitlines undoes join when the joined text is closed by a newline. */
  lemma {:induction false} SplitJoinedClosed(lines: seq<string>)
    requires lines != [] && AllNoBreaks(lines)
    ensures SplitLines(JoinOn(lines, '\n') + "\n") == lines
  {
    hide NoBreaks;
    if |lines| == 1 {
      assert lines[0] + "\n" == lines[0] + "\n" + [];
      SplitFirst(lines[0], []);
      assert lines == [lines[0]] + [];
    } else {
      assert JoinOn(lines, '\n') + "\n" == lines[0] + "\n" + (JoinOn(lines[1..], '\n') + "\n");
      SplitFirst(lines[0], JoinOn(lines[1..], '\n') + "\n");
      SplitJoinedClosed(lines[1..]);
    }
  }

  /** It also undoes a join left open, when the last line is not empty. */
  lemma {:induction false} SplitJoinedOpen(lines: seq<string>)
    requires lines != [] && AllNoBreaks(lines) && lines[|lines| - 1] != []
    ensures SplitLines(JoinOn(lines, '\n')) == lines
  {
    hide SplitLines, NoBreaks;
    if |lines| == 1 {
      SplitSingle(lines[0]);
    } else {
      assert lines[1..][|lines[1..]| - 1] == lines[|lines| - 1];
      SplitFirst(lines[0], JoinOn(lines[1..], '\n'));
      SplitJoinedOpen(lines[1..]);
      assert lines == [lines[0]] + lines[1..];
    }
  }

  /** A trailing empty line becomes the closing newline of the lines before it. */
  lemma {:induction false} JoinTrailingEmpty(lines: seq<string>)
    requires lines != []
    ensures JoinOn(lines + [[]], '\n') == JoinOn(lines, '\n') + "\n"
  {
    if |lines| == 1 {
      assert (lines + [[]])[1..] == [[]];
    } else {
      assert (lines + [[]])[1..] == lines[1..] + [[]];
      JoinTrailingEmpty(lines[1..]);
      assert lines[0] + "\n" + (JoinOn(lines[1..], '\n') + "\n") == lines[0] + "\n" + JoinOn(lines[1..], '\n') + "\n";
    }
  }

  predicate EndsWithNewline(s: string) { s != [] && s[|s| - 1] == '\n' }

  lemma {:induction false} JoinOpenEnd(lines: seq<string>)
    requires lines != [] && AllNoBreaks(lines) && lines[|lines| - 1] != []
    ensures JoinOn(lines, '\n') != [] && !EndsWithNewline(JoinOn(lines, '\n'))
  {
    if |lines| == 1 {
      var last := lines[0];
      assert last[|last| - 1] in last;
    } else {
      JoinOpenEnd(lines[1..]);
    }
  }

  /** "\n".join with the source's optional closing newline. */
  function JoinText(lines: seq<string>, closed: bool): string {
    if closed then JoinOn(lines, '\n') + "\n" else JoinOn(lines, '\n')
  }

  /** Reading joined lines back gives them again, up to a trailing empty line that turned into the
      closing newline; joining what was read gives the same text. */
  lemma ReadBack(lines: seq<string>, closed: bool) returns (again: seq<string>)
    requires AllNoBreaks(lines) && lines != [] && lines != [[]]
    ensures again == SplitLines(JoinText(lines, closed)) && again != []
    ensures again == lines || again + [[]] == lines
    ensures JoinText(again, EndsWithNewline(JoinText(lines, closed))) == JoinText(lines, closed)
  {
    again := SplitLines(JoinText(lines, closed));
    if closed {
      SplitJoinedClosed(lines);
    } else if lines[|lines| - 1] != [] {
      SplitJoinedOpen(lines);
      JoinOpenEnd(lines);
    } else {
      var short := lines[..|lines| - 1];
      assert short + [[]] == lines;
      JoinTrailingEmpty(short);
      SplitJoinedClosed(short);
    }
  }
}
