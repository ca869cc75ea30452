/** What the patterns for task references find, said on the positions of the text; and which issue a merged pull
    request is for. */
module References {
  import opened Text
  import opened TaskStatus
  import opened Tracker
  import opened Footers
  import opened Watcher

  // ---------------------------------------------------------------- the runner's patterns

  /** Letters, a dash and digits stand at i, in these many characters. */
  predicate Spells(s: string, i: nat, letters: nat, digits: nat) {
    && letters > 0 && digits > 0 && i + letters + 1 + digits <= |s|
    && AllLetters(s[i..i + letters]) && s[i + letters] == '-' && AllDigits(s[i + letters + 1..i + letters + 1 + digits])
  }

  function SpelledId(s: string, i: nat, letters: nat, digits: nat): string
    requires Spells(s, i, letters, digits)
  {
    Upper(s[i..i + letters]) + "-" + s[i + letters + 1..i + letters + 1 + digits]
  }

  /** In brackets. */
  predicate Bracketed(s: string, i: nat, letters: nat, digits: nat) {
    && i < |s| && s[i] == '[' && Spells(s, i + 1, letters, digits)
    && i + letters + digits + 2 < |s| && s[i + letters + digits + 2] == ']'
  }

  lemma Slices(s: string, a: string, d: string, rest: string)
    requires s == a + "-" + d + rest
    ensures |a| + 1 + |d| <= |s| && s[0..|a|] == a && s[|a|] == '-' && s[|a| + 1..|a| + 1 + |d|] == d && s[|a| + 1 + |d|..] == rest
  {
  }

  lemma RefAtSpells(s: string)
    ensures RefAt(s).Some? ==>
              var r := RefAt(s).value;
              && Spells(s, 0, |r.letters|, |r.digits|) && SpelledId(s, 0, |r.letters|, |r.digits|) == RefId(r)
              && r.rest == s[|r.letters| + 1 + |r.digits|..]
  {
    hide RefAt, AllLetters, AllDigits, Upper;
    if RefAt(s).Some? { Slices(s, RefAt(s).value.letters, RefAt(s).value.digits, RefAt(s).value.rest); }
  }

  lemma SpellsRefAt(s: string, letters: nat, digits: nat)
    requires Spells(s, 0, letters, digits) && (letters + 1 + digits == |s| || !IsDigit(s[letters + 1 + digits]))
    ensures RefAt(s).Some? && |RefAt(s).value.letters| == letters && |RefAt(s).value.digits| == digits
  {
    var a, d, rest := s[0..letters], s[letters + 1..letters + 1 + digits], s[letters + 1 + digits..];
    assert s == a + "-" + d + rest;
    RefAtOf(a, d, rest);
  }

  lemma Shift(s: string, i: nat, k: nat, letters: nat, digits: nat)
    requires k <= |s|
    ensures Spells(s[k..], i, letters, digits) <==> Spells(s, k + i, letters, digits)
    ensures Spells(s[k..], i, letters, digits) ==> SpelledId(s[k..], i, letters, digits) == SpelledId(s, k + i, letters, digits)
  {
    if k + i + letters + 1 + digits <= |s| {
      assert s[k..][i..i + letters] == s[k + i..k + i + letters];
      assert s[k..][i + letters + 1..i + letters + 1 + digits] == s[k + i + letters + 1..k + i + letters + 1 + digits];
    }
  }

  lemma ShiftBracket(s: string, i: nat, letters: nat, digits: nat)
    requires s != []
    ensures Bracketed(s[1..], i, letters, digits) <==> Bracketed(s, i + 1, letters, digits)
  {
    Shift(s, i + 1, 1, letters, digits);
    hide Spells;
  }

  predicate BracketAt(s: string, i: nat) { exists l: nat, d: nat :: l <= |s| && d <= |s| && Bracketed(s, i, l, d) }

  /** What a pattern finds: the leftmost place where it matches, with the id spelled there. */
  ghost predicate FindsBracket(s: string, r: Option<Ref>) {
    match r
    case None => forall i: nat :: !BracketAt(s, i)
    case Some(ref) => exists i: nat :: IsBracket(s, i, |ref.letters|, |ref.digits|, RefId(ref)) && forall j: nat :: j < i ==> !BracketAt(s, j)
  }

  predicate IsBracket(s: string, i: nat, letters: nat, digits: nat, id: string) {
    Bracketed(s, i, letters, digits) && id == SpelledId(s, i + 1, letters, digits)
  }

  lemma BracketHere(s: string)
    requires s != []
    ensures var r := if s[0] == '[' then RefAt(s[1..]) else None;
            if r.Some? && r.value.rest != [] && r.value.rest[0] == ']'
            then IsBracket(s, 0, |r.value.letters|, |r.value.digits|, RefId(r.value))
            else !BracketAt(s, 0)
  {
    hide RefAt, RefId, SpelledId, Spells;
    var t := s[1..];
    var r := RefAt(t);
    RefAtSpells(t);
    if r.Some? { Shift(s, 0, 1, |r.value.letters|, |r.value.digits|); }
    if BracketAt(s, 0) {
      var l: nat, d: nat :| l <= |s| && d <= |s| && Bracketed(s, 0, l, d);
      Shift(s, 0, 1, l, d);
      assert t[l + 1 + d] == s[l + d + 2] == ']';
      SpellsRefAt(t, l, d);
    }
  }

  lemma BracketsBehind(s: string, i: nat)
    requires s != []
    ensures BracketAt(s[1..], i) <==> BracketAt(s, i + 1)
  {
    hide Bracketed;
    var t := s[1..];
    if BracketAt(t, i) {
      var l: nat, d: nat :| l <= |t| && d <= |t| && Bracketed(t, i, l, d);
      ShiftBracket(s, i, l, d);
    }
    if BracketAt(s, i + 1) {
      var l: nat, d: nat :| l <= |s| && d <= |s| && Bracketed(s, i + 1, l, d);
      ShiftBracket(s, i, l, d);
      BracketFits(t, i, l, d);
    }
  }

  lemma BracketFits(s: string, i: nat, l: nat, d: nat)
    ensures Bracketed(s, i, l, d) ==> l <= |s| && d <= |s|
  {
  }

  /** The leftmost reference in brackets, if there is one. */
  lemma {:induction false} BracketMeans(s: string)
    ensures FindsBracket(s, BracketRef(s))
  {
    hide RefAt, Spells, RefId, SpelledId, Bracketed, IsBracket, BracketAt;
    if s == [] {
      NothingBracketed();
    } else {
      BracketHere(s);
      BracketMeans(s[1..]);
      forall i: nat ensures BracketAt(s[1..], i) <==> BracketAt(s, i + 1) { BracketsBehind(s, i); }
      if BracketRef(s) == BracketRef(s[1..]) && !BracketAt(s, 0) { FoundBehind(s, BracketRef(s)); }
    }
  }

  lemma NothingBracketed()
    ensures forall i: nat :: !BracketAt([], i)
  {
  }

  lemma FoundBehind(s: string, r: Option<Ref>)
    requires s != [] && !BracketAt(s, 0) && FindsBracket(s[1..], r)
    requires forall i: nat :: BracketAt(s[1..], i) <==> BracketAt(s, i + 1)
    ensures FindsBracket(s, r)
  {
    hide BracketAt, IsBracket;
    if r.Some? {
      var i: nat :| IsBracket(s[1..], i, |r.value.letters|, |r.value.digits|, RefId(r.value)) && forall j: nat :: j < i ==> !BracketAt(s[1..], j);
      BracketMoved(s, i, |r.value.letters|, |r.value.digits|, RefId(r.value));
      forall j: nat | j < i + 1 ensures !BracketAt(s, j) { if j > 0 { assert !BracketAt(s[1..], j - 1); } }
    } else {
      forall j: nat ensures !BracketAt(s, j) { if j > 0 { assert !BracketAt(s[1..], j - 1); } }
    }
  }

  lemma BracketMoved(s: string, i: nat, l: nat, d: nat, id: string)
    requires s != [] && IsBracket(s[1..], i, l, d, id)
    ensures IsBracket(s, i + 1, l, d, id)
  {
    hide SpelledId, Spells;
    ShiftBracket(s, i, l, d);
    Shift(s, i + 1, 1, l, d);
  }

  /** Between word boundaries; inWord says whether a word character stands before the text. */
  predicate IsAlone(s: string, inWord: bool, i: nat, letters: nat, digits: nat) {
    && Spells(s, i, letters, digits) && !(if i == 0 then inWord else IsWord(s[i - 1]))
    && (i + letters + 1 + digits == |s| || !IsWord(s[i + letters + 1 + digits]))
  }

  predicate AloneAt(s: string, inWord: bool, i: nat) { exists l: nat, d: nat :: l <= |s| && d <= |s| && IsAlone(s, inWord, i, l, d) }

  predicate IsReference(s: string, inWord: bool, i: nat, letters: nat, digits: nat, id: string) {
    IsAlone(s, inWord, i, letters, digits) && id == SpelledId(s, i, letters, digits)
  }

  ghost predicate FindsWord(s: string, inWord: bool, r: Option<Ref>) {
    match r
    case None => forall i: nat :: !AloneAt(s, inWord, i)
    case Some(ref) =>
      exists i: nat :: IsReference(s, inWord, i, |ref.letters|, |ref.digits|, RefId(ref)) && forall j: nat :: j < i ==> !AloneAt(s, inWord, j)
  }

  lemma WordHere(s: string, inWord: bool)
    requires s != []
    ensures var r := if inWord then None else RefAt(s);
            if r.Some? && (r.value.rest == [] || !IsWord(r.value.rest[0]))
            then IsReference(s, inWord, 0, |r.value.letters|, |r.value.digits|, RefId(r.value))
            else !AloneAt(s, inWord, 0)
  {
    hide RefAt, RefId, SpelledId, Spells;
    RefAtSpells(s);
    if AloneAt(s, inWord, 0) {
      var l: nat, d: nat :| l <= |s| && d <= |s| && IsAlone(s, inWord, 0, l, d);
      WordFits(s, inWord, 0, l, d);
      SpellsRefAt(s, l, d);
    }
  }

  lemma WordFits(s: string, inWord: bool, i: nat, l: nat, d: nat)
    ensures IsAlone(s, inWord, i, l, d) ==> l <= |s| && d <= |s| && i + l + 1 + d <= |s|
  {
  }

  lemma ShiftWord(s: string, inWord: bool, i: nat, l: nat, d: nat)
    requires s != []
    ensures IsAlone(s[1..], IsWord(s[0]), i, l, d) <==> IsAlone(s, inWord, i + 1, l, d)
  {
    Shift(s, i, 1, l, d);
    WordFits(s, inWord, i + 1, l, d);
    WordFits(s[1..], IsWord(s[0]), i, l, d);
    hide Spells, IsWord;
  }

  lemma WordsBehind(s: string, inWord: bool, i: nat)
    requires s != []
    ensures AloneAt(s[1..], IsWord(s[0]), i) <==> AloneAt(s, inWord, i + 1)
  {
    hide IsAlone;
    var t := s[1..];
    if AloneAt(t, IsWord(s[0]), i) {
      var l: nat, d: nat :| l <= |t| && d <= |t| && IsAlone(t, IsWord(s[0]), i, l, d);
      ShiftWord(s, inWord, i, l, d);
    }
    if AloneAt(s, inWord, i + 1) {
      var l: nat, d: nat :| l <= |s| && d <= |s| && IsAlone(s, inWord, i + 1, l, d);
      ShiftWord(s, inWord, i, l, d);
      WordFits(t, IsWord(s[0]), i, l, d);
    }
  }

  /** The leftmost reference that is a word by itself, if there is one. */
  lemma {:induction false} WordMeans(s: string, inWord: bool)
    ensures FindsWord(s, inWord, WordRef(s, inWord))
  {
    hide RefAt, Spells, RefId, SpelledId, IsAlone, IsReference, AloneAt, IsWord;
    if s == [] {
      NothingSpelled(inWord);
    } else {
      WordHere(s, inWord);
      WordMeans(s[1..], IsWord(s[0]));
      forall i: nat ensures AloneAt(s[1..], IsWord(s[0]), i) <==> AloneAt(s, inWord, i + 1) { WordsBehind(s, inWord, i); }
      if WordRef(s, inWord) == WordRef(s[1..], IsWord(s[0])) && !AloneAt(s, inWord, 0) { WordFoundBehind(s, inWord, WordRef(s, inWord)); }
    }
  }

  lemma NothingSpelled(inWord: bool)
    ensures forall i: nat :: !AloneAt([], inWord, i)
  {
  }

  lemma WordFoundBehind(s: string, inWord: bool, r: Option<Ref>)
    requires s != [] && !AloneAt(s, inWord, 0) && FindsWord(s[1..], IsWord(s[0]), r)
    requires forall i: nat :: AloneAt(s[1..], IsWord(s[0]), i) <==> AloneAt(s, inWord, i + 1)
    ensures FindsWord(s, inWord, r)
  {
    hide AloneAt, IsReference, IsWord;
    var t, w := s[1..], IsWord(s[0]);
    if r.Some? {
      var i: nat :| IsReference(t, w, i, |r.value.letters|, |r.value.digits|, RefId(r.value)) && forall j: nat :: j < i ==> !AloneAt(t, w, j);
      WordMoved(s, inWord, i, |r.value.letters|, |r.value.digits|, RefId(r.value));
      forall j: nat | j < i + 1 ensures !AloneAt(s, inWord, j) { if j > 0 { assert !AloneAt(t, w, j - 1); } }
    } else {
      forall j: nat ensures !AloneAt(s, inWord, j) { if j > 0 { assert !AloneAt(t, w, j - 1); } }
    }
  }

  lemma WordMoved(s: string, inWord: bool, i: nat, l: nat, d: nat, id: string)
    requires s != [] && IsReference(s[1..], IsWord(s[0]), i, l, d, id)
    ensures IsReference(s, inWord, i + 1, l, d, id)
  {
    ShiftWord(s, inWord, i, l, d);
    Shift(s, i, 1, l, d);
    hide SpelledId, Spells, IsAlone;
  }

  ghost predicate NoBracket(s: string) { forall i: nat :: !BracketAt(s, i) }

  /** The leftmost reference in brackets spells this id. */
  ghost predicate FirstBracket(s: string, id: string) {
    exists i: nat, l: nat, d: nat :: IsBracket(s, i, l, d, id) && forall j: nat :: j < i ==> !BracketAt(s, j)
  }

  ghost predicate NoWord(s: string) { forall i: nat :: !AloneAt(s, false, i) }

  /** The leftmost reference that is a word spells this id. */
  ghost predicate FirstWord(s: string, id: string) {
    exists i: nat, l: nat, d: nat :: IsReference(s, false, i, l, d, id) && forall j: nat :: j < i ==> !AloneAt(s, false, j)
  }

  lemma BracketFound(s: string)
    ensures BracketRef(s).None? <==> NoBracket(s)
    ensures BracketRef(s).Some? ==> FirstBracket(s, RefId(BracketRef(s).value))
  {
    BracketMeans(s);
    if BracketRef(s).Some? {
      var r := BracketRef(s).value;
      var i: nat :| IsBracket(s, i, |r.letters|, |r.digits|, RefId(r)) && forall j: nat :: j < i ==> !BracketAt(s, j);
      BracketFits(s, i, |r.letters|, |r.digits|);
      assert BracketAt(s, i);
    }
    hide BracketAt, IsBracket, RefId, BracketRef;
  }

  lemma WordFound(s: string)
    ensures WordRef(s, false).None? <==> NoWord(s)
    ensures WordRef(s, false).Some? ==> FirstWord(s, RefId(WordRef(s, false).value))
  {
    WordMeans(s, false);
    if WordRef(s, false).Some? {
      var r := WordRef(s, false).value;
      var i: nat :| IsReference(s, false, i, |r.letters|, |r.digits|, RefId(r)) && forall j: nat :: j < i ==> !AloneAt(s, false, j);
      WordFits(s, false, i, |r.letters|, |r.digits|);
      assert AloneAt(s, false, i);
    }
    hide AloneAt, IsReference, RefId, WordRef;
  }

  /** The id of an issue is the leftmost reference in brackets in its title; without one, the leftmost that is a word
      in its body; without one, that in its title; without any, ISSUE and its number. */
  lemma ExtractMeans(number: nat, title: string, body: string)
    ensures var id := ExtractTaskId(number, title, body);
            if !NoBracket(title) then FirstBracket(title, id)
            else if !NoWord(body) then FirstWord(body, id)
            else if !NoWord(title) then FirstWord(title, id)
            else id == "ISSUE-" + Digits(number)
  {
    BracketFound(title);
    WordFound(body);
    WordFound(title);
    hide NoBracket, FirstBracket, NoWord, FirstWord, RefId, BracketRef, WordRef, Digits;
  }

  // ---------------------------------------------------------------- the issue of a pull request

  /** A pull request written by the runner resolves to the issue it was written for, under the id the runner derived,
      whatever the title of the pull request and the other issues say. */
  lemma RunnersPrResolves(b: Board, pr: PullRequest, n: nat, mode: string)
    requires n in b && '\n' !in mode
    requires pr.body == PrBody(ExtractTaskId(n, b[n].title, b[n].body), n, mode)
    ensures ResolveTaskIssue(b, pr) == Some((ExtractTaskId(n, b[n].title, b[n].body), n))
  {
    PrBodyRoundTrip(n, b[n].title, b[n].body, mode);
    hide ExtractTaskId, WatcherId, WatcherIssue, PrBody;
  }

  /** The first of these texts that names a task names this one. */
  predicate NamedFirst(texts: seq<string>, id: string) { exists k :: 0 <= k < |texts| && NamedBy(texts, k, id) }

  predicate NamedBy(texts: seq<string>, k: nat, id: string)
    requires k < |texts|
  {
    WatcherId(texts[k]) == Some(id) && forall j :: 0 <= j < k ==> WatcherId(texts[j]).None?
  }

  /** A pull request is for the issue its footer numbers, under the first id named by its body, the body and the title
      of the issue, or its own title; without such a footer, for the one issue titled with the first id named by its
      body or its title. */
  lemma ResolveMeans(b: Board, pr: PullRequest, id: string, n: nat)
    ensures ResolveTaskIssue(b, pr) == Some((id, n)) <==>
              if WatcherIssue(pr.body).Some?
              then WatcherIssue(pr.body) == Some(n) && n in b && NamedFirst([pr.body, b[n].body, b[n].title, pr.title], id)
              else NamedFirst([pr.body, pr.title], id) && FindIssue(b, id) == Some(n)
  {
    hide WatcherId, WatcherIssue, FindIssue;
    TwoTexts(pr.body, pr.title, id);
    if n in b { FourTexts(pr.body, b[n].body, b[n].title, pr.title, id); }
    hide NamedFirst;
  }

  lemma TwoTexts(a: string, b: string, id: string)
    ensures NamedFirst([a, b], id) <==> OrElse(WatcherId(a), WatcherId(b)) == Some(id)
  {
    hide WatcherId;
    var texts := [a, b];
    assert texts[0] == a && texts[1] == b;
    if k :| 0 <= k < |texts| && NamedBy(texts, k, id) { assert k == 1 ==> WatcherId(texts[0]).None?; }
    if WatcherId(a) == Some(id) { assert NamedBy(texts, 0, id); }
    if WatcherId(a).None? && WatcherId(b) == Some(id) { assert NamedBy(texts, 1, id); }
  }

  lemma FourTexts(a: string, b: string, c: string, d: string, id: string)
    ensures NamedFirst([a, b, c, d], id)
            <==> OrElse(WatcherId(a), OrElse(WatcherId(b), OrElse(WatcherId(c), WatcherId(d)))) == Some(id)
  {
    hide WatcherId;
    var texts := [a, b, c, d];
    assert texts[0] == a && texts[1] == b && texts[2] == c && texts[3] == d;
    if k :| 0 <= k < |texts| && NamedBy(texts, k, id) {
      assert forall j :: 0 <= j < k ==> WatcherId(texts[j]).None?;
      assert k > 0 ==> WatcherId(texts[0]).None?;
      assert k > 1 ==> WatcherId(texts[1]).None?;
      assert k > 2 ==> WatcherId(texts[2]).None?;
    }
    if WatcherId(a) == Some(id) { assert NamedBy(texts, 0, id); }
    if WatcherId(a).None? && WatcherId(b) == Some(id) { assert NamedBy(texts, 1, id); }
    if WatcherId(a).None? && WatcherId(b).None? && WatcherId(c) == Some(id) { assert NamedBy(texts, 2, id); }
    if WatcherId(a).None? && WatcherId(b).None? && WatcherId(c).None? && WatcherId(d) == Some(id) { assert NamedBy(texts, 3, id); }
  }

  // ---------------------------------------------------------------- other ways to name a task

  /** The dispatcher takes a blank for the dash of the label. */
  lemma DashOrBlank(letters: string, digits: string, tail: string, dash: char)
    requires CanonicalParts(letters + "-" + digits, letters, digits) && (dash == '-' || dash == ' ')
    requires tail != [] && tail[0] == '\n'
    ensures DispatchId("Task" + [dash] + "ID: " + (letters + "-" + digits) + tail) == Some(letters + "-" + digits)
  {
    var id := letters + "-" + digits;
    var s := "Task" + [dash] + "ID: " + id + tail;
    IdChars(letters, digits);
    assert FirstLine(tail) == [];
    assert id + tail == letters + "-" + digits + tail;
    RefAtOf(letters, digits, tail);
    hide RefAt, FirstLine, AfterLine, LStrip, CanonicalParts, AllLetters;
    LabelledId(s, id, tail, dash);
    assert (id + tail)[0] == id[0];
    AfterSpace(id + tail);
  }

  lemma LabelledId(s: string, id: string, tail: string, dash: char)
    requires s == "Task" + [dash] + "ID: " + id + tail && (dash == '-' || dash == ' ')
    ensures ("Task-ID:" <= s || "Task ID:" <= s) && s[8..] == " " + (id + tail)
  {
    assert s == ("Task" + [dash] + "ID:") + (" " + (id + tail));
  }

  /** The watcher reads the last footer of a text: one behind a line end counts before all in front of it. */
  lemma {:induction false} LastFooterWins(before: string, after: string)
    ensures WatcherFooterId(before + "\n" + after) == OrElse(WatcherFooterId(after), WatcherFooterId(before))
    ensures WatcherIssue(before + "\n" + after) == OrElse(WatcherIssue(after), WatcherIssue(before))
    decreases |before|
  {
    hide WatcherIdLine, WatcherIssueLine, FirstLine, AfterLine;
    var line := FirstLine(before);
    if line == before {
      FirstLineOf(before, after);
    } else {
      var rest := before[|line| + 1..];
      assert before == line + "\n" + rest;
      assert before + "\n" + after == line + "\n" + (rest + "\n" + after);
      FirstLineOf(line, rest);
      FirstLineOf(line, rest + "\n" + after);
      LastFooterWins(rest, after);
    }
  }

  lemma {:induction false} TakePlainTailOf(digits: string, rest: string)
    requires AllDigits(digits) && rest != [] && rest[0] == ']'
    ensures TakePlainTail(digits + rest) == digits
  {
    if digits == [] {
      assert digits + rest == rest;
    } else {
      assert (digits + rest)[1..] == digits[1..] + rest;
      TakePlainTailOf(digits[1..], rest);
    }
  }

  /** A one-line text that begins with an id in brackets names this id, for the watcher. */
  lemma BracketedTitle(letters: string, digits: string, rest: string)
    requires CanonicalParts(letters + "-" + digits, letters, digits) && '\n' !in rest
    ensures WatcherId("[" + (letters + "-" + digits) + "]" + rest) == Some(letters + "-" + digits)
  {
    var id := letters + "-" + digits;
    var title := "[" + id + "]" + rest;
    IdChars(letters, digits);
    assert '\n' !in title && title[0] == '[' && title[1..] == id + "]" + rest;
    hide *;
    NoFooter(title);
    FoundInTitle(letters, digits, id + "]" + rest);
    PastBracket(title);
  }

  lemma NoFooter(title: string)
    requires title != [] && '\n' !in title && title[0] == '['
    ensures WatcherFooterId(title).None?
  {
    FirstLineOf(title, []);
    NoIdLine(title);
    hide AfterLine, FirstLine, WatcherIdLine;
  }

  lemma NoIdLine(line: string)
    requires line != [] && line[0] == '['
    ensures WatcherIdLine(line).None?
  {
    assert "task-id:"[0] == 't';
    assert TabStrip(line) == line;
  }

  lemma PastBracket(title: string)
    requires title != [] && title[0] == '[' && WatcherFooterId(title).None?
    ensures WatcherId(title) == WatcherTitleId(title[1..], false)
  {
    hide WatcherFooterId;
  }

  lemma FoundInTitle(letters: string, digits: string, s: string)
    requires CanonicalParts(letters + "-" + digits, letters, digits)
    requires letters + "-" + digits + "]" <= s
    ensures WatcherTitleId(s, false) == Some(letters + "-" + digits)
  {
    var id := letters + "-" + digits;
    var rest := s[|id|..];
    IdChars(letters, digits);
    assert rest[0] == ']' && s == letters + ("-" + digits + rest);
    assert s[|letters|] == '-' && s[|letters| + 1..] == digits + rest && s[|letters| + 1] == digits[0] && s[..|id|] == id;
    assert letters != [] && IsDigit(digits[0]) && Boundary(s, |id|) by { assert s[|id| - 1] == digits[|digits| - 1] && s[|id|] == ']'; }
    TakeLettersOf(letters, "-" + digits + rest);
    TakePlainTailOf(digits, rest);
    hide *;
    TitleIdAt(s, letters, digits, id);
  }

  lemma TitleIdAt(s: string, letters: string, digits: string, id: string)
    requires letters != [] && TakeLetters(s) == letters && |s| >= |letters| + 2 && s[|letters|] == '-' && IsDigit(s[|letters| + 1])
    requires TakePlainTail(s[|letters| + 1..]) == digits != [] && |id| == |letters| + 1 + |digits| <= |s| && s[..|id|] == id && Upper(id) == id
    requires Boundary(s, |id|)
    ensures WatcherTitleId(s, false) == Some(id)
  {
    hide TakeLetters, TakePlainTail, Boundary, Upper, IsDigit;
    assert LastBoundary(s, |letters| + 2, |id|) == |id|;
  }

  /** A pull request whose body names no task and no issue, and whose title begins with an id in brackets, is for the
      one issue whose title does. */
  lemma TitledPrResolves(b: Board, pr: PullRequest, letters: string, digits: string, rest: string, n: nat)
    requires CanonicalParts(letters + "-" + digits, letters, digits) && '\n' !in rest
    requires pr.title == "[" + (letters + "-" + digits) + "]" + rest && WatcherId(pr.body).None? && WatcherIssue(pr.body).None?
    requires FindIssue(b, letters + "-" + digits) == Some(n)
    ensures ResolveTaskIssue(b, pr) == Some((letters + "-" + digits, n))
  {
    BracketedTitle(letters, digits, rest);
    hide WatcherId, WatcherIssue, FindIssue;
  }
}
