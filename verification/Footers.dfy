/** Task references in titles and bodies: how the runner derives a task id, the pull request body it
    prints, and the two independent readers of that body (the watcher's and the dispatcher's). */
module Footers {
  import opened Text

  // ---------------------------------------------------------------- decimal numbers

  function Digits(n: nat): (r: string)
    ensures r != [] && AllDigits(r)
  {
    if n < 10 then [(48 + n) as char] else Digits(n / 10) + [(48 + n % 10) as char]
  }

  predicate AllDigits(s: string) { forall i :: 0 <= i < |s| ==> IsDigit(s[i]) }

  /** int() on ASCII digits. */
  function NatOf(s: string): nat
    requires AllDigits(s)
  {
    if s == [] then 0 else 10 * NatOf(s[..|s| - 1]) + (s[|s| - 1] as int - 48)
  }

  lemma {:induction false} NatOfDigits(n: nat)
    ensures NatOf(Digits(n)) == n
  {
    if n >= 10 {
      NatOfDigits(n / 10);
      assert Digits(n)[..|Digits(n)| - 1] == Digits(n / 10);
    }
  }

  // ---------------------------------------------------------------- scanning

  /** Text up to the first newline; unlike splitlines, ^ and $ and . of a pattern see only this one. */
  function FirstLine(s: string): (r: string)
    ensures r <= s && '\n' !in r
    ensures |r| < |s| ==> s[|r|] == '\n'
  {
    if s == [] || s[0] == '\n' then [] else [s[0]] + FirstLine(s[1..])
  }

  function AfterLine(s: string): (r: Option<string>)
    ensures r.Some? ==> |r.value| < |s|
    ensures r.None? <==> FirstLine(s) == s
  {
    var line := FirstLine(s);
    if |line| < |s| then Some(s[|line| + 1..]) else None
  }

  function TakeDigits(s: string): (r: string)
    ensures r <= s && AllDigits(r)
    ensures |r| < |s| ==> !IsDigit(s[|r|])
  {
    if s != [] && IsDigit(s[0]) then [s[0]] + TakeDigits(s[1..]) else []
  }

  function TakeLetters(s: string): (r: string)
    ensures r <= s && AllLetters(r)
    ensures |r| < |s| ==> !IsLetter(s[|r|])
  {
    if s != [] && IsLetter(s[0]) then [s[0]] + TakeLetters(s[1..]) else []
  }

  predicate AllLetters(s: string) { forall i :: 0 <= i < |s| ==> IsLetter(s[i]) }

  /** A reference [A-Za-z]+-\d+ at the start of the text. */
  datatype Ref = Ref(letters: string, digits: string, rest: string)

  function RefAt(s: string): (r: Option<Ref>)
    ensures r.Some? ==>
              && r.value.letters != [] && AllLetters(r.value.letters)
              && r.value.digits != [] && AllDigits(r.value.digits)
              && s == r.value.letters + "-" + r.value.digits + r.value.rest
  {
    var letters := TakeLetters(s);
    if letters == [] || |letters| == |s| || s[|letters|] != '-' then None
    else
      var tail := s[|letters| + 1..];
      var digits := TakeDigits(tail);
      if digits == [] then None
      else
        assert s == letters + "-" + digits + tail[|digits|..];
        Some(Ref(letters, digits, tail[|digits|..]))
  }

  lemma {:induction false} TakeDigitsOf(digits: string, rest: string)
    requires AllDigits(digits) && (rest == [] || !IsDigit(rest[0]))
    ensures TakeDigits(digits + rest) == digits
  {
    if digits == [] {
      assert digits + rest == rest;
    } else {
      assert (digits + rest)[1..] == digits[1..] + rest;
      TakeDigitsOf(digits[1..], rest);
    }
  }

  lemma {:induction false} TakeLettersOf(letters: string, rest: string)
    requires AllLetters(letters) && (rest == [] || !IsLetter(rest[0]))
    ensures TakeLetters(letters + rest) == letters
  {
    if letters == [] {
      assert letters + rest == rest;
    } else {
      assert (letters + rest)[1..] == letters[1..] + rest;
      TakeLettersOf(letters[1..], rest);
    }
  }

  lemma RefAtOf(letters: string, digits: string, rest: string)
    requires letters != [] && AllLetters(letters) && digits != [] && AllDigits(digits)
    requires rest == [] || !IsDigit(rest[0])
    ensures RefAt(letters + "-" + digits + rest) == Some(Ref(letters, digits, rest))
  {
    var s := letters + "-" + digits + rest;
    var tail := "-" + digits + rest;
    assert s == letters + tail;
    assert tail[0] == '-' && s[|letters|] == '-' && s[|letters| + 1..] == digits + rest && (digits + rest)[|digits|..] == rest;
    TakeLettersOf(letters, tail);
    TakeDigitsOf(digits, rest);
    hide *;
    RefAtParts(s, letters, digits, rest);
  }

  lemma RefAtParts(s: string, letters: string, digits: string, rest: string)
    requires letters != [] && TakeLetters(s) == letters && |letters| < |s| && s[|letters|] == '-'
    requires digits != [] && TakeDigits(s[|letters| + 1..]) == digits && s[|letters| + 1..][|digits|..] == rest
    ensures RefAt(s) == Some(Ref(letters, digits, rest))
  {
    hide TakeLetters, TakeDigits, AllLetters, AllDigits;
  }

  // ---------------------------------------------------------------- the runner

  /** A canonical task id: upper-case letters, a dash, digits. */
  ghost predicate Canonical(id: string) {
    exists letters, digits :: CanonicalParts(id, letters, digits)
  }

  predicate CanonicalParts(id: string, letters: string, digits: string) {
    && id == letters + "-" + digits
    && letters != [] && (forall i :: 0 <= i < |letters| ==> 'A' <= letters[i] <= 'Z')
    && digits != [] && AllDigits(digits)
  }

  /** \[([A-Za-z]+-\d+)\], leftmost. */
  function BracketRef(s: string): (r: Option<Ref>)
    ensures r.Some? ==> r.value.letters != [] && AllLetters(r.value.letters) && r.value.digits != [] && AllDigits(r.value.digits)
  {
    if s == [] then None
    else
      var ref := if s[0] == '[' then RefAt(s[1..]) else None;
      if ref.Some? && ref.value.rest != [] && ref.value.rest[0] == ']' then ref else BracketRef(s[1..])
  }

  /** \b([A-Za-z]+-\d+)\b, leftmost; inWord says whether the character before the text is a word one. */
  function WordRef(s: string, inWord: bool): (r: Option<Ref>)
    ensures r.Some? ==> r.value.letters != [] && AllLetters(r.value.letters) && r.value.digits != [] && AllDigits(r.value.digits)
  {
    if s == [] then None
    else
      var ref := if inWord then None else RefAt(s);
      if ref.Some? && (ref.value.rest == [] || !IsWord(ref.value.rest[0])) then ref
      else WordRef(s[1..], IsWord(s[0]))
  }

  function RefId(ref: Ref): string { Upper(ref.letters) + "-" + ref.digits }

  /** extract_task_id: brackets in the title, then the body, then the title, then the issue number. */
  function ExtractTaskId(number: nat, title: string, body: string): string {
    var bracket := BracketRef(title);
    if bracket.Some? then RefId(bracket.value)
    else
      var inBody := WordRef(body, false);
      if inBody.Some? then RefId(inBody.value)
      else
        var inTitle := WordRef(title, false);
        if inTitle.Some? then RefId(inTitle.value) else "ISSUE-" + Digits(number)
  }

  lemma ExtractedIsCanonical(number: nat, title: string, body: string)
    ensures Canonical(ExtractTaskId(number, title, body))
  {
    var refs := [BracketRef(title), WordRef(body, false), WordRef(title, false)];
    if refs[0].Some? { RefIdCanonical(refs[0].value); }
    else if refs[1].Some? { RefIdCanonical(refs[1].value); }
    else if refs[2].Some? { RefIdCanonical(refs[2].value); }
    else { assert CanonicalParts("ISSUE-" + Digits(number), "ISSUE", Digits(number)); }
  }

  lemma RefIdCanonical(ref: Ref)
    requires ref.letters != [] && AllLetters(ref.letters) && ref.digits != [] && AllDigits(ref.digits)
    ensures Canonical(RefId(ref))
  {
    assert CanonicalParts(RefId(ref), Upper(ref.letters), ref.digits);
  }

  function IssueLine(number: nat): string { "Task-Issue: #" + Digits(number) }

  function Footer(id: string, number: nat): string {
    "Task-ID: " + id + "\n" + IssueLine(number)
  }

  function Preamble(id: string, mode: string): seq<string> {
    ["Implements " + id + ".", "", "Validation:", "- validation-mode: " + mode, ""]
  }

  function PrBody(id: string, number: nat, mode: string): string {
    JoinOn(Preamble(id, mode) + [Footer(id, number)], '\n')
  }

  // ---------------------------------------------------------------- the dispatcher's reader

  /** ^Task[- ]ID:\s*([A-Za-z]+-\d+)\s*$ at the start of a line; \s may run over line ends. */
  function DispatchIdAt(s: string): Option<string> {
    if "Task-ID:" <= s || "Task ID:" <= s then
      var ref := RefAt(LStrip(s[8..]));
      if ref.Some? && Blank(FirstLine(ref.value.rest)) then Some(RefId(ref.value)) else None
    else None
  }

  /** ^Task-Issue:\s*#?(\d+)\s*$ at the start of a line. */
  function DispatchIssueAt(s: string): Option<nat> {
    if "Task-Issue:" <= s then
      var t := LStrip(s[11..]);
      var u := if t != [] && t[0] == '#' then t[1..] else t;
      var digits := TakeDigits(u);
      if digits != [] && Blank(FirstLine(u[|digits|..])) then Some(NatOf(digits)) else None
    else None
  }

  function DispatchId(body: string): Option<string>
    decreases |body|
  {
    if DispatchIdAt(body).Some? then DispatchIdAt(body)
    else match AfterLine(body) case None => None case Some(rest) => DispatchId(rest)
  }

  function DispatchIssue(body: string): Option<nat>
    decreases |body|
  {
    if DispatchIssueAt(body).Some? then DispatchIssueAt(body)
    else match AfterLine(body) case None => None case Some(rest) => DispatchIssue(rest)
  }

  datatype FooterError = MissingId | IdMismatch(found: string) | MissingIssue | IssueMismatch(found_: nat) | NotFinal

  datatype FooterEvaluation = FooterEvaluation(id: Option<string>, issue: Option<nat>, errors: seq<FooterError>, matches: bool)

  predicate EndsWith(s: string, tail: string) { |tail| <= |s| && s[|s| - |tail|..] == tail }

  /** evaluate_pr_footer. */
  method EvaluatePrFooter(body: string, id: string, number: nat) returns (r: FooterEvaluation)
    ensures r.id == DispatchId(body) && r.issue == DispatchIssue(body)
    ensures r.matches <==> DispatchId(body) == Some(id) && DispatchIssue(body) == Some(number)
    ensures r.errors == [] <==> r.matches && EndsWith(Strip(body), Footer(id, number))
    ensures NotFinal in r.errors <==> r.matches && !EndsWith(Strip(body), Footer(id, number))
    ensures MissingId in r.errors <==> r.id.None?
    ensures MissingIssue in r.errors <==> r.issue.None?
    ensures forall other :: IdMismatch(other) in r.errors <==> r.id == Some(other) && other != id
    ensures forall other :: IssueMismatch(other) in r.errors <==> r.issue == Some(other) && other != number
  {
    hide DispatchId, DispatchIssue, EndsWith;
    var footerId, footerIssue := DispatchId(body), DispatchIssue(body);
    var errors := [];
    if footerId.None? {
      errors := errors + [MissingId];
    } else if footerId.value != id {
      errors := errors + [IdMismatch(footerId.value)];
    }
    if footerIssue.None? {
      errors := errors + [MissingIssue];
    } else if footerIssue.value != number {
      errors := errors + [IssueMismatch(footerIssue.value)];
    }
    var matches := footerId == Some(id) && footerIssue == Some(number);
    if matches && !EndsWith(Strip(body), Footer(id, number)) {
      errors := errors + [NotFinal];
    }
    return FooterEvaluation(footerId, footerIssue, errors, matches);
  }

  // ---------------------------------------------------------------- the watcher's reader

  /** Case folding of a pattern under re.IGNORECASE, for ASCII pattern text. */
  function Fold(c: char): char {
    if 'A' <= c <= 'Z' then c - 'A' + 'a'
    else if c == '\U{212a}' then 'k'
    else if c == '\U{17f}' then 's'
    else if c == '\U{130}' || c == '\U{131}' then 'i'
    else c
  }

  predicate FoldPrefix(needle: string, s: string) {
    |needle| <= |s| && forall i :: 0 <= i < |needle| ==> Fold(s[i]) == needle[i]
  }

  predicate IsTab(c: char) { c == ' ' || c == '\t' }

  function TabStrip(s: string): (r: string)
    ensures |r| <= |s|
  {
    if s != [] && IsTab(s[0]) then TabStrip(s[1..]) else s
  }

  predicate AllTabs(s: string) { forall i :: 0 <= i < |s| ==> IsTab(s[i]) }

  function TakeFoldLetters(s: string): (r: string)
    ensures r <= s
  {
    if s != [] && 'a' <= Fold(s[0]) <= 'z' then [s[0]] + TakeFoldLetters(s[1..]) else []
  }

  predicate IsIdTail(c: char) { IsDigit(c) || 'a' <= Fold(c) <= 'z' || c == '-' }

  function TakeIdTail(s: string): (r: string)
    ensures r <= s
  {
    if s != [] && IsIdTail(s[0]) then [s[0]] + TakeIdTail(s[1..]) else []
  }

  /** ^[ \t]*Task-ID:[ \t]*([A-Za-z]+-[0-9][0-9A-Za-z-]*)[ \t]*$ on one line, ignoring case. */
  function WatcherIdLine(line: string): Option<string> {
    var t := TabStrip(line);
    if !FoldPrefix("task-id:", t) then None
    else
      var u := TabStrip(t[8..]);
      var letters := TakeFoldLetters(u);
      if letters == [] || |u| < |letters| + 2 || u[|letters|] != '-' || !IsDigit(u[|letters| + 1]) then None
      else
        var tail := TakeIdTail(u[|letters| + 1..]);
        if AllTabs(u[|letters| + 1 + |tail|..]) then Some(Upper(letters + "-" + tail)) else None
  }

  /** ^[ \t]*Task-Issue:[ \t]*#?([0-9]+)[ \t]*$ on one line, ignoring case. */
  function WatcherIssueLine(line: string): Option<nat> {
    var t := TabStrip(line);
    if !FoldPrefix("task-issue:", t) then None
    else
      var u := TabStrip(t[11..]);
      var v := if u != [] && u[0] == '#' then u[1..] else u;
      var digits := TakeDigits(v);
      if digits != [] && AllTabs(v[|digits|..]) then Some(NatOf(digits)) else None
  }

  /** The last footer wins. */
  function WatcherFooterId(body: string): Option<string>
    decreases |body|
  {
    var later := match AfterLine(body) case None => None case Some(rest) => WatcherFooterId(rest);
    if later.Some? then later else WatcherIdLine(FirstLine(body))
  }

  function WatcherIssue(body: string): Option<nat>
    decreases |body|
  {
    var later := match AfterLine(body) case None => None case Some(rest) => WatcherIssue(rest);
    if later.Some? then later else WatcherIssueLine(FirstLine(body))
  }

  predicate Boundary(s: string, e: nat)
    requires 0 < e <= |s|
  {
    IsWord(s[e - 1]) != (e < |s| && IsWord(s[e]))
  }

  /** Last word boundary of s at or before e and not before lo; 0 when there is none. */
  function LastBoundary(s: string, lo: nat, e: nat): (r: nat)
    requires 0 < lo && e <= |s|
    ensures r <= e
  {
    if e < lo then 0 else if Boundary(s, e) then e else LastBoundary(s, lo, e - 1)
  }

  /** \b([A-Za-z]+-[0-9][0-9A-Za-z-]*)\b, leftmost. */
  function WatcherTitleId(s: string, inWord: bool): Option<string> {
    if s == [] then None
    else
      var letters := if inWord then [] else TakeLetters(s);
      var end :=
        if letters == [] || |s| < |letters| + 2 || s[|letters|] != '-' || !IsDigit(s[|letters| + 1]) then 0
        else LastBoundary(s, |letters| + 2, |letters| + 1 + |TakePlainTail(s[|letters| + 1..])|);
      if end > 0 then Some(Upper(s[..end])) else WatcherTitleId(s[1..], IsWord(s[0]))
  }

  function TakePlainTail(s: string): (r: string)
    ensures r <= s
  {
    if s != [] && (IsDigit(s[0]) || IsLetter(s[0]) || s[0] == '-') then [s[0]] + TakePlainTail(s[1..]) else []
  }

  /** parse_task_id: the last footer, else the first reference anywhere in the text. */
  function WatcherId(text: string): Option<string> {
    if WatcherFooterId(text).Some? then WatcherFooterId(text) else WatcherTitleId(text, false)
  }

  // ---------------------------------------------------------------- round trip

  lemma {:induction false} FirstLineOf(line: string, rest: string)
    requires '\n' !in line
    ensures FirstLine(line + "\n" + rest) == line && FirstLine(line) == line
    ensures AfterLine(line + "\n" + rest) == Some(rest) && AfterLine(line) == None
  {
    if line != [] {
      assert (line + "\n" + rest)[1..] == line[1..] + "\n" + rest;
      assert line == [line[0]] + line[1..];
      FirstLineOf(line[1..], rest);
    }
    assert (line + "\n" + rest)[|line| + 1..] == rest;
  }

  /** A line that starts with another letter than T is passed over by all four readers. */
  lemma SkipLine(line: string, rest: string)
    requires '\n' !in line
    requires line == [] || line[0] == '-' || line[0] == 'I' || line[0] == 'V'
    ensures var s := line + "\n" + rest;
            && DispatchId(s) == DispatchId(rest) && DispatchIssue(s) == DispatchIssue(rest)
            && (WatcherFooterId(rest).Some? ==> WatcherFooterId(s) == WatcherFooterId(rest))
            && (WatcherIssue(rest).Some? ==> WatcherIssue(s) == WatcherIssue(rest))
  {
    var s := line + "\n" + rest;
    FirstLineOf(line, rest);
    assert s[0] == if line == [] then '\n' else line[0];
    assert !("Task-ID:" <= s) && !("Task ID:" <= s) && !("Task-Issue:" <= s) by {
      assert "Task-ID:"[0] == "Task ID:"[0] == "Task-Issue:"[0] == 'T';
    }
  }

  lemma IdChars(letters: string, digits: string)
    requires CanonicalParts(letters + "-" + digits, letters, digits)
    ensures var id := letters + "-" + digits;
            && '\n' !in id && Upper(id) == id && Upper(letters) == letters
            && !IsSpace(id[0]) && AllLetters(letters)
  {
    var id := letters + "-" + digits;
    forall i | 0 <= i < |id| ensures id[i] != '\n' && UpperChar(id[i]) == id[i] {
      if i < |letters| { assert id[i] == letters[i]; }
      else if i > |letters| { assert id[i] == digits[i - |letters| - 1]; }
    }
    assert id[0] == letters[0];
  }

  lemma {:induction false} TakeFoldLettersOf(letters: string, rest: string)
    requires forall i :: 0 <= i < |letters| ==> 'A' <= letters[i] <= 'Z'
    requires rest != [] && rest[0] == '-'
    ensures TakeFoldLetters(letters + rest) == letters
  {
    if letters == [] {
      assert letters + rest == rest;
    } else {
      assert (letters + rest)[1..] == letters[1..] + rest;
      TakeFoldLettersOf(letters[1..], rest);
    }
  }

  lemma {:induction false} TakeIdTailOf(digits: string)
    requires AllDigits(digits)
    ensures TakeIdTail(digits) == digits
  {
    if digits != [] { TakeIdTailOf(digits[1..]); }
  }

  lemma AfterSpace(s: string)
    requires s != [] && !IsSpace(s[0])
    ensures TabStrip(" " + s) == s && LStrip(" " + s) == s
  {
    assert (" " + s)[1..] == s;
  }

  lemma WatcherReadsId(letters: string, digits: string)
    requires CanonicalParts(letters + "-" + digits, letters, digits)
    ensures var id := letters + "-" + digits;
            && TakeFoldLetters(id) == letters && TakeIdTail(id[|letters| + 1..]) == digits
            && id[|letters| + 1 + |digits|..] == []
  {
    var id := letters + "-" + digits;
    assert id == letters + ("-" + digits);
    TakeFoldLettersOf(letters, "-" + digits);
    assert id[|letters| + 1..] == digits;
    TakeIdTailOf(digits);
  }

  lemma WatcherReadsIdLine(letters: string, digits: string)
    requires CanonicalParts(letters + "-" + digits, letters, digits)
    ensures WatcherIdLine("Task-ID: " + (letters + "-" + digits)) == Some(letters + "-" + digits)
  {
    var id := letters + "-" + digits;
    var line := "Task-ID: " + id;
    IdChars(letters, digits);
    assert FoldPrefix("task-id:", line);
    assert line[8..] == " " + id;
    assert TabStrip(line) == line;
    hide TakeFoldLetters, TakeIdTail, TabStrip;
    AfterSpace(id);
    WatcherReadsId(letters, digits);
    assert id[|letters|] == '-' && id[|letters| + 1] == digits[0];
  }

  lemma ReadsNumber(number: nat)
    ensures var d := Digits(number);
            && TakeDigits(d) == d && NatOf(d) == number && d[|d|..] == []
            && ("#" + d)[1..] == d && '\n' !in d
  {
    var d := Digits(number);
    assert d + [] == d;
    TakeDigitsOf(d, []);
    NatOfDigits(number);
  }

  lemma IssueLineFacts(number: nat)
    ensures var line := IssueLine(number);
            && line[..11] == "Task-Issue:" && line[11..] == " " + ("#" + Digits(number))
            && '\n' !in line && TabStrip(line) == line
            && FoldPrefix("task-issue:", line) && !FoldPrefix("task-id:", line)
  {
    ReadsNumber(number);
    LabelledLine(Digits(number));
  }

  lemma LabelledLine(d: string)
    requires '\n' !in d
    ensures var line := "Task-Issue: #" + d;
            && line[..11] == "Task-Issue:" && line[11..] == " " + ("#" + d)
            && '\n' !in line && TabStrip(line) == line
            && FoldPrefix("task-issue:", line) && !FoldPrefix("task-id:", line)
  {
    var line := "Task-Issue: #" + d;
    assert "Task-Issue: #"[6] == 's' && "task-id:"[6] == 'd';
    assert line[6] == 's';
  }

  lemma ReadsIssueLine(number: nat)
    ensures WatcherIssueLine(IssueLine(number)) == Some(number)
    ensures DispatchIssueAt(IssueLine(number)) == Some(number)
    ensures WatcherIdLine(IssueLine(number)) == None
  {
    hide TabStrip, LStrip, TakeDigits, NatOf, Digits, IssueLine;
    IssueLineFacts(number);
    AfterSpace("#" + Digits(number));
    ReadsNumber(number);
  }

  lemma DispatchReadsId(letters: string, digits: string, tail: string)
    requires CanonicalParts(letters + "-" + digits, letters, digits)
    requires tail != [] && tail[0] == '\n'
    ensures DispatchId("Task-ID: " + (letters + "-" + digits) + tail) == Some(letters + "-" + digits)
  {
    var id := letters + "-" + digits;
    var s := "Task-ID: " + id + tail;
    IdChars(letters, digits);
    assert FirstLine(tail) == [];
    assert id + tail == letters + "-" + digits + tail;
    RefAtOf(letters, digits, tail);
    hide RefAt, FirstLine, AfterLine, LStrip, CanonicalParts, AllLetters;
    TaggedId(s, id, tail);
    assert (id + tail)[0] == id[0];
    AfterSpace(id + tail);
  }

  lemma TaggedId(s: string, id: string, tail: string)
    requires s == "Task-ID: " + id + tail
    ensures "Task-ID:" <= s && s[8..] == " " + (id + tail)
  {
    assert s == "Task-ID:" + (" " + (id + tail));
  }

  lemma FooterLines(id: string, number: nat)
    requires '\n' !in id
    ensures Footer(id, number) == "Task-ID: " + id + "\n" + IssueLine(number)
    ensures FirstLine(Footer(id, number)) == "Task-ID: " + id
    ensures AfterLine(Footer(id, number)) == Some(IssueLine(number))
    ensures AfterLine(IssueLine(number)) == None && FirstLine(IssueLine(number)) == IssueLine(number)
    ensures DispatchIssueAt(Footer(id, number)) == None
  {
    FirstLineOf("Task-ID: " + id, IssueLine(number));
    IssueLineFacts(number);
    FirstLineOf(IssueLine(number), []);
    assert Footer(id, number)[6] == 'D' && "Task-Issue:"[6] == 's';
  }

  lemma ReadsFooter(letters: string, digits: string, number: nat)
    requires CanonicalParts(letters + "-" + digits, letters, digits)
    ensures var id := letters + "-" + digits;
            var footer := Footer(id, number);
            && DispatchId(footer) == Some(id) && DispatchIssue(footer) == Some(number)
            && WatcherFooterId(footer) == Some(id) && WatcherIssue(footer) == Some(number)
  {
    hide IssueLine, WatcherIdLine, WatcherIssueLine, DispatchIssueAt, DispatchIdAt;
    var id := letters + "-" + digits;
    IdChars(letters, digits);
    FooterLines(id, number);
    ReadsIssueLine(number);
    WatcherReadsIdLine(letters, digits);
    var tail := "\n" + IssueLine(number);
    assert Footer(id, number) == "Task-ID: " + id + tail;
    DispatchReadsId(letters, digits, tail);
  }

  lemma EndsStripped(s: string, tail: string)
    requires tail != [] && Stripped(tail)
    ensures EndsWith(Strip(s + tail), tail)
  {
    LStripKeepsTail(s, tail);
    var t := LStrip(s) + tail;
    assert t[|t| - 1] == tail[|tail| - 1];
    hide LStrip;
  }

  lemma {:induction false} LStripKeepsTail(s: string, tail: string)
    requires tail != [] && !IsSpace(tail[0])
    ensures LStrip(s + tail) == LStrip(s) + tail
  {
    if s == [] {
      assert s + tail == tail;
    } else if IsSpace(s[0]) {
      assert (s + tail)[1..] == s[1..] + tail;
      LStripKeepsTail(s[1..], tail);
    }
  }

  lemma JoinCons(head: string, rest: seq<string>)
    requires rest != []
    ensures JoinOn([head] + rest, '\n') == head + "\n" + JoinOn(rest, '\n')
  {
    assert ([head] + rest)[1..] == rest;
  }

  lemma JoinSix(a: string, b: string, c: string, d: string, e: string, f: string)
    ensures JoinOn([a, b, c, d, e, f], '\n')
         == a + "\n" + (b + "\n" + (c + "\n" + (d + "\n" + (e + "\n" + f))))
  {
    JoinCons(e, [f]);
    assert [e] + [f] == [e, f];
    JoinCons(d, [e, f]);
    assert [d] + [e, f] == [d, e, f];
    JoinCons(c, [d, e, f]);
    assert [c] + [d, e, f] == [c, d, e, f];
    JoinCons(b, [c, d, e, f]);
    assert [b] + [c, d, e, f] == [b, c, d, e, f];
    JoinCons(a, [b, c, d, e, f]);
    assert [a] + [b, c, d, e, f] == [a, b, c, d, e, f];
  }

  /** The body as it is printed, line by line. */
  lemma PrBodyText(id: string, number: nat, mode: string)
    ensures PrBody(id, number, mode)
         == "Implements " + id + "." + "\n" + ("" + "\n" + ("Validation:" + "\n" + ("- validation-mode: " + mode + "\n" + ("" + "\n"
            + ("Task-ID: " + id + "\n" + ("Task-Issue: #" + Digits(number)))))))
  {
    hide Digits;
    var p, footer := Preamble(id, mode), Footer(id, number);
    assert p + [footer] == [p[0], p[1], p[2], p[3], p[4], footer];
    JoinSix(p[0], p[1], p[2], p[3], p[4], footer);
  }

  lemma ReadsBody(id: string, number: nat, mode: string)
    requires '\n' !in id && '\n' !in mode
    requires WatcherFooterId(Footer(id, number)).Some? && WatcherIssue(Footer(id, number)).Some?
    ensures var body, footer := PrBody(id, number, mode), Footer(id, number);
            && DispatchId(body) == DispatchId(footer) && DispatchIssue(body) == DispatchIssue(footer)
            && WatcherFooterId(body) == WatcherFooterId(footer) && WatcherIssue(body) == WatcherIssue(footer)
            && exists front :: body == front + footer
  {
    hide DispatchId, DispatchIssue, WatcherFooterId, WatcherIssue, Footer;
    var p, footer := Preamble(id, mode), Footer(id, number);
    assert p + [footer] == [p[0], p[1], p[2], p[3], p[4], footer];
    JoinSix(p[0], p[1], p[2], p[3], p[4], footer);
    var s4 := p[4] + "\n" + footer;
    var s3 := p[3] + "\n" + s4;
    var s2 := p[2] + "\n" + s3;
    var s1 := p[1] + "\n" + s2;
    SkipLine(p[4], footer);
    SkipLine(p[3], s4);
    SkipLine(p[2], s3);
    SkipLine(p[1], s2);
    SkipLine(p[0], s1);
    var front := p[0] + "\n" + (p[1] + "\n" + (p[2] + "\n" + (p[3] + "\n" + (p[4] + "\n"))));
    assert PrBody(id, number, mode) == front + footer;
  }

  /** The body the runner prints is read back by both readers, for every issue and every validation
      mode that is one line, and the footer stands at the end of the body. */
  lemma PrBodyRoundTrip(number: nat, title: string, issueBody: string, mode: string)
    requires '\n' !in mode
    ensures var id := ExtractTaskId(number, title, issueBody);
            var body := PrBody(id, number, mode);
            && DispatchId(body) == Some(id) && DispatchIssue(body) == Some(number)
            && WatcherId(body) == Some(id) && WatcherIssue(body) == Some(number)
            && EndsWith(Strip(body), Footer(id, number))
  {
    ExtractedIsCanonical(number, title, issueBody);
    hide ExtractTaskId;
    var id := ExtractTaskId(number, title, issueBody);
    var letters, digits :| CanonicalParts(id, letters, digits);
    CanonicalRoundTrip(letters, digits, number, mode);
  }

  lemma CanonicalRoundTrip(letters: string, digits: string, number: nat, mode: string)
    requires CanonicalParts(letters + "-" + digits, letters, digits) && '\n' !in mode
    ensures var id := letters + "-" + digits;
            var body := PrBody(id, number, mode);
            && DispatchId(body) == Some(id) && DispatchIssue(body) == Some(number)
            && WatcherId(body) == Some(id) && WatcherIssue(body) == Some(number)
            && EndsWith(Strip(body), Footer(id, number))
  {
    var id := letters + "-" + digits;
    IdChars(letters, digits);
    ReadsFooter(letters, digits, number);
    ReadsBody(id, number, mode);
    hide PrBody;
    var body, footer := PrBody(id, number, mode), Footer(id, number);
    var front :| body == front + footer;
    FooterEnds(id, number);
    EndsStripped(front, footer);
  }

  lemma FooterEnds(id: string, number: nat)
    ensures Footer(id, number) != [] && Stripped(Footer(id, number))
  {
    var f := Footer(id, number);
    assert f[0] == 'T';
    assert f[|f| - 1] == Digits(number)[|Digits(number)| - 1];
  }
}
