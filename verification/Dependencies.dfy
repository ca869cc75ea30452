/** The dependency lists of an issue body. The watcher splits the field on commas, line by line
    (scripts/agent_task_watcher.py); the dispatcher searches the field with patterns
    (scripts/agent_dispatch_handoff_reporter.py). */
module Dependencies {
  import opened Text
  import opened TaskStatus
  import opened Footers

  // ---------------------------------------------------------------- the watcher

  predicate IsPlaceholder(value: string) {
    value == [] || Lower(value) == "none" || Lower(value) == "n/a" || value == "-"
  }

  function KeepPart(part: string): seq<string> {
    if IsPlaceholder(Strip(part)) then [] else [Upper(Strip(part))]
  }

  function KeepIds(parts: seq<string>): seq<string> {
    if parts == [] then [] else KeepPart(parts[0]) + KeepIds(parts[1..])
  }

  function TaskList(raw: Option<string>): seq<string> {
    if raw.None? then [] else KeepIds(SplitOn(raw.value, ','))
  }

  method ParseTaskList(raw: Option<string>) returns (ids: seq<string>)
    ensures ids == TaskList(raw)
  {
    hide IsPlaceholder, Strip, Upper, SplitOn;
    if raw.None? { return []; }
    ids := [];
    var parts := SplitOn(raw.value, ',');
    var i := 0;
    while i < |parts|
      invariant 0 <= i <= |parts|
      invariant ids + KeepIds(parts[i..]) == KeepIds(parts)
    {
      assert parts[i..][1..] == parts[i + 1..];
      Assoc(ids, KeepPart(parts[i]), KeepIds(parts[i + 1..]));
      var value := Strip(parts[i]);
      if !IsPlaceholder(value) { ids := ids + [Upper(value)]; }
      else { assert ids + [] == ids; }
      i := i + 1;
    }
    assert ids + [] == ids;
  }

  method ExtractField(name: string, body: string) returns (r: Option<string>)
    ensures r == Field(name, body)
  {
    hide Strip, Lower;
    var needle := Lower(name + ":");
    var lines := SplitLines(body);
    for i := 0 to |lines|
      invariant FieldOf(needle, lines[i..]) == FieldOf(needle, lines)
    {
      assert lines[i..][1..] == lines[i + 1..];
      var line := Strip(lines[i]);
      if needle <= Lower(line) { return Some(Strip(line[|needle|..])); }
    }
    return None;
  }

  const DEPENDS_ON := "Depends on"
  const UNBLOCKS := "Unblocks"

  function WatcherDeps(body: string): seq<string> { TaskList(Field(DEPENDS_ON, body)) }

  // ---------------------------------------------------------------- the dispatcher

  /** ^field:\s*(.*)$ ignoring case, at the start of a line; \s may run over line ends. */
  function DispatchFieldAt(name: string, s: string): Option<string> {
    if FoldPrefix(Lower(name) + ":", s) then Some(Strip(FirstLine(LStrip(s[|name| + 1..])))) else None
  }

  function DispatchField(name: string, body: string): Option<string>
    decreases |body|
  {
    if DispatchFieldAt(name, body).Some? then DispatchFieldAt(name, body)
    else match AfterLine(body) case None => None case Some(rest) => DispatchField(name, rest)
  }

  datatype TaskLane = OPS | PY | DN | PT | RV

  function LaneText(lane: TaskLane): string {
    match lane case OPS => "OPS" case PY => "PY" case DN => "DN" case PT => "PT" case RV => "RV"
  }

  /** Length of lane-digits at the start of the text, ending at a word boundary; 0 when there is none. */
  function LaneRefLen(lane: TaskLane, s: string): (n: nat)
    ensures n <= |s|
  {
    var head := Lower(LaneText(lane)) + "-";
    if !FoldPrefix(head, s) then 0
    else
      var digits := TakeDigits(s[|head|..]);
      var n := |head| + |digits|;
      if digits == [] || (n < |s| && IsWord(s[n])) then 0 else n
  }

  function RefLen(s: string): (n: nat)
    ensures n <= |s|
  {
    if LaneRefLen(OPS, s) > 0 then LaneRefLen(OPS, s)
    else if LaneRefLen(PY, s) > 0 then LaneRefLen(PY, s)
    else if LaneRefLen(DN, s) > 0 then LaneRefLen(DN, s)
    else if LaneRefLen(PT, s) > 0 then LaneRefLen(PT, s)
    else LaneRefLen(RV, s)
  }

  /** finditer of \b(?:OPS|PY|DN|PT|RV)-\d+\b, upper-cased. */
  function FindRefs(s: string, inWord: bool): seq<string>
    decreases |s|
  {
    if s == [] then []
    else
      var n := if inWord then 0 else RefLen(s);
      if n > 0 then [Upper(s[..n])] + FindRefs(s[n..], true)
      else FindRefs(s[1..], IsWord(s[0]))
  }

  function DispatchDeps(body: string): seq<string> {
    match DispatchField(DEPENDS_ON, body)
    case None => []
    case Some(value) => if value == [] then [] else FindRefs(value, false)
  }

  // ---------------------------------------------------------------- the printed list

  /** An id a lane can carry: OPS-12, PY-3, ... */
  predicate LaneId(id: string, lane: TaskLane) {
    var head := LaneText(lane) + "-";
    head < id && AllDigits(id[|head|..])
  }

  predicate IsLaneId(id: string) { LaneId(id, OPS) || LaneId(id, PY) || LaneId(id, DN) || LaneId(id, PT) || LaneId(id, RV) }

  /** ", ".join(ids), the separator taken character by character. */
  function PrintIds(ids: seq<string>): string {
    if ids == [] then []
    else if |ids| == 1 then ids[0]
    else ids[0] + ([','] + ([' '] + PrintIds(ids[1..])))
  }

  lemma LaneChars(lane: TaskLane)
    ensures var head := LaneText(lane) + "-";
            && 3 <= |head| <= 4 && head[|head| - 1] == '-' && IsLetter(head[0])
            && (forall i :: 0 <= i < |head| ==> 'A' <= head[i] <= 'Z' || head[i] == '-')
  {
  }

  lemma LaneIdChars(id: string, lane: TaskLane)
    requires LaneId(id, lane)
    ensures |id| >= 4 && (id[2] == '-' || id[3] == '-') && IsDigit(id[|id| - 1]) && IsLetter(id[0])
    ensures forall i :: 0 <= i < |id| ==> 'A' <= id[i] <= 'Z' || IsDigit(id[i]) || id[i] == '-'
  {
    LaneChars(lane);
    hide LaneText;
    var head := LaneText(lane) + "-";
    var digits := id[|head|..];
    assert id == head + digits;
  }

  lemma LaneIdFacts(id: string)
    requires IsLaneId(id)
    ensures |id| >= 4 && (id[2] == '-' || id[3] == '-') && IsDigit(id[|id| - 1]) && IsLetter(id[0])
    ensures forall i :: 0 <= i < |id| ==> 'A' <= id[i] <= 'Z' || IsDigit(id[i]) || id[i] == '-'
    ensures Stripped(id) && ',' !in id && NoBreaks(id)
  {
    hide LaneId;
    var lane :| LaneId(id, lane);
    LaneIdChars(id, lane);
  }

  lemma NotPlaceholder(id: string)
    requires |id| >= 4 && IsDigit(id[|id| - 1])
    ensures !IsPlaceholder(id)
  {
    assert Lower(id)[|id| - 1] == id[|id| - 1];
    assert "none"[3] == 'e';
  }

  lemma LaneIdPlain(id: string)
    requires IsLaneId(id)
    ensures Upper(id) == id && !IsPlaceholder(id) && Strip(id) == id && Strip([' '] + id) == id
  {
    hide IsLaneId, IsPlaceholder, Strip, Stripped, Upper, NoBreaks;
    LaneIdFacts(id);
    UpperPlain(id);
    NotPlaceholder(id);
    StripOf(id);
  }

  lemma UpperPlain(id: string)
    requires forall i :: 0 <= i < |id| ==> 'A' <= id[i] <= 'Z' || IsDigit(id[i]) || id[i] == '-'
    ensures Upper(id) == id
  {
  }

  lemma LaneIdKept(id: string)
    requires IsLaneId(id)
    ensures KeepPart(id) == [id] && KeepPart([' '] + id) == [id]
  {
    LaneIdPlain(id);
    hide IsPlaceholder, IsLaneId, Strip, Upper;
  }

  lemma SplitFirstComma(part: string, rest: string)
    requires ',' !in part
    ensures SplitOn(part + ([','] + rest), ',') == [part] + SplitOn(rest, ',')
    ensures SplitOn(part, ',') == [part]
  {
    FirstAfter(part, ',', rest);
    var s := part + ([','] + rest);
    assert s == part + [','] + rest;
    assert FirstOf(part, ',') == |part|;
    assert s[..|part|] == part && s[|part| + 1..] == rest;
  }

  lemma KeepFirst(part: string, parts: seq<string>, id: string)
    requires KeepPart(part) == [id]
    ensures KeepIds([part] + parts) == [id] + KeepIds(parts) && KeepIds([part]) == [id]
  {
    assert ([part] + parts)[1..] == parts;
    assert [part][1..] == [];
    assert [id] + [] == [id];
  }

  /** Splitting a printed list on its commas gives the ids back; a leading blank does not matter. */
  lemma {:induction false} WatcherReadsPrinted(ids: seq<string>, lead: string)
    requires ids != [] && forall i :: 0 <= i < |ids| ==> IsLaneId(ids[i])
    requires lead == [] || lead == [' ']
    ensures KeepIds(SplitOn(lead + PrintIds(ids), ',')) == ids
  {
    hide IsPlaceholder, IsLaneId, KeepPart, SplitOn, KeepIds;
    var first := lead + ids[0];
    LaneIdKept(ids[0]);
    LaneIdFacts(ids[0]);
    assert KeepPart(first) == [ids[0]] by { assert lead == [] ==> first == ids[0]; }
    var rest := [' '] + PrintIds(ids[1..]);
    SplitFirstComma(first, rest);
    KeepFirst(first, SplitOn(rest, ','), ids[0]);
    if |ids| == 1 {
      assert lead + PrintIds(ids) == first;
    } else {
      assert lead + PrintIds(ids) == first + ([','] + rest);
      WatcherReadsPrinted(ids[1..], [' ']);
    }
  }

  lemma LaneFolds(lane: TaskLane, s: string)
    requires LaneText(lane) + "-" <= s
    ensures FoldPrefix(Lower(LaneText(lane)) + "-", s)
  {
    var head := LaneText(lane) + "-";
    LaneChars(lane);
    hide LaneText;
    assert forall i :: 0 <= i < |head| ==> s[i] == head[i];
  }

  lemma LaneRefOf(id: string, lane: TaskLane, rest: string)
    requires LaneId(id, lane) && (rest == [] || !IsWord(rest[0]))
    ensures LaneRefLen(lane, id + rest) == |id|
  {
    hide LaneText, FoldPrefix, TakeDigits;
    var head := LaneText(lane) + "-";
    var s := id + rest;
    LaneFolds(lane, s);
    assert s[|head|..] == id[|head|..] + rest;
    TakeDigitsOf(id[|head|..], rest);
  }

  lemma NoLaneRef(lane: TaskLane, s: string)
    requires || (s != [] && Fold(s[0]) != LowerChar(LaneText(lane)[0]))
             || (|s| > 1 && Fold(s[1]) != LowerChar(LaneText(lane)[1]))
    ensures LaneRefLen(lane, s) == 0
  {
    var needle := Lower(LaneText(lane)) + "-";
    assert needle[0] == LowerChar(LaneText(lane)[0]) && needle[1] == LowerChar(LaneText(lane)[1]);
  }

  lemma OtherLane(id: string, lane: TaskLane, other: TaskLane, rest: string)
    requires LaneId(id, lane) && lane != other
    ensures LaneRefLen(other, id + rest) == 0
  {
    var head := LaneText(lane) + "-";
    var s := id + rest;
    assert s[0] == head[0] == LaneText(lane)[0] && s[1] == head[1] == LaneText(lane)[1];
    hide LaneRefLen;
    NoLaneRef(other, s);
  }

  lemma RefLenOf(id: string, rest: string)
    requires IsLaneId(id) && (rest == [] || !IsWord(rest[0]))
    ensures RefLen(id + rest) == |id|
  {
    hide LaneId, LaneRefLen;
    LaneIdFacts(id);
    var lane :| LaneId(id, lane);
    LaneRefOf(id, lane, rest);
    if lane != OPS { OtherLane(id, lane, OPS, rest); }
    if lane != PY { OtherLane(id, lane, PY, rest); }
    if lane != DN { OtherLane(id, lane, DN, rest); }
    if lane != PT { OtherLane(id, lane, PT, rest); }
  }

  lemma FindOne(id: string, rest: string)
    requires IsLaneId(id) && (rest == [] || !IsWord(rest[0]))
    ensures FindRefs(id + rest, false) == [id] + FindRefs(rest, true)
  {
    RefLenOf(id, rest);
    LaneIdPlain(id);
    LaneIdFacts(id);
    hide IsLaneId, RefLen, IsPlaceholder, Upper, Strip;
    var s := id + rest;
    assert s[..|id|] == id && s[|id|..] == rest;
  }

  /** Searching a printed list for references gives the ids back. */
  lemma {:induction false} DispatchReadsPrinted(ids: seq<string>)
    requires ids != [] && forall i :: 0 <= i < |ids| ==> IsLaneId(ids[i])
    ensures FindRefs(PrintIds(ids), false) == ids
  {
    hide IsLaneId, FindRefs;
    if |ids| == 1 {
      assert ids[0] + [] == ids[0];
      FindOne(ids[0], []);
      FindNone();
    } else {
      var tail := PrintIds(ids[1..]);
      FindOne(ids[0], [','] + ([' '] + tail));
      FindPastComma(tail);
      DispatchReadsPrinted(ids[1..]);
    }
  }

  lemma FindNone()
    ensures FindRefs([], true) == [] && FindRefs([], false) == []
  {
  }

  lemma FindPastComma(tail: string)
    ensures FindRefs([','] + ([' '] + tail), true) == FindRefs(tail, false)
  {
    var s := [' '] + tail;
    assert ([','] + s)[1..] == s && s[1..] == tail;
    NoRefAtBlank(s);
  }

  lemma NoRefAtBlank(s: string)
    requires s != [] && s[0] == ' '
    ensures RefLen(s) == 0
  {
    hide LaneRefLen;
    NoLaneRef(OPS, s);
    NoLaneRef(PY, s);
    NoLaneRef(DN, s);
    NoLaneRef(PT, s);
    NoLaneRef(RV, s);
  }

  // ---------------------------------------------------------------- one field in a body

  /** The body with one unindented Depends-on line; the readers look for its first occurrence. */
  function BodyWith(before: string, ids: seq<string>, after: string): string {
    before + ("Depends on: " + PrintIds(ids) + after)
  }

  predicate LineBoundary(after: string) {
    after == [] || after[0] == '\n' || (|after| >= 2 && after[0] == '\r' && after[1] == '\n')
  }

  predicate ClosedLines(before: string) { before == [] || EndsWithNewline(before) }

  lemma {:induction false} SplitClosed(before: string, rest: string)
    requires ClosedLines(before)
    ensures SplitLines(before + rest) == SplitLines(before) + SplitLines(rest)
    decreases |before|
  {
    var s := before + rest;
    if before == [] {
      assert s == rest;
    } else {
      var k, w := SplitClosedStep(before, rest);
      hide LineEnd;
      SplitClosed(before[k + w..], rest);
      Assoc([before[..k]], SplitLines(before[k + w..]), SplitLines(rest));
    }
  }

  lemma SplitClosedStep(before: string, rest: string) returns (k: nat, w: nat)
    requires before != [] && EndsWithNewline(before)
    ensures k == LineEnd(before) == LineEnd(before + rest) && k < |before|
    ensures w == BreakWidth(before, k) == BreakWidth(before + rest, k)
    ensures (before + rest)[..k] == before[..k] && (before + rest)[k + w..] == before[k + w..] + rest
    ensures ClosedLines(before[k + w..])
  {
    hide LineEnd;
    LineEndShort(before, |before| - 1);
    k := LineEnd(before);
    w := BreakWidth(before, k);
    var tail := before[k..] + rest;
    assert before + rest == before[..k] + tail;
    LineEndAt(before[..k], tail);
  }

  lemma SplitFieldLine(line: string, after: string)
    requires line != [] && NoBreaks(line) && LineBoundary(after)
    ensures exists rest :: SplitLines(line + after) == [line] + rest
  {
    var s := line + after;
    LineEndAt(line, after);
    assert s[..|line|] == line;
    if after == [] {
      assert s == line;
      assert SplitLines(s) == [line] + [];
    } else {
      assert SplitLines(s) == [line] + SplitLines(s[|line| + BreakWidth(s, |line|)..]);
    }
  }

  lemma {:induction false} PrintedFacts(ids: seq<string>)
    requires ids != [] && forall i :: 0 <= i < |ids| ==> IsLaneId(ids[i])
    ensures var p := PrintIds(ids); p != [] && Stripped(p) && NoBreaks(p) && !IsSpace(p[0])
  {
    LaneIdFacts(ids[0]);
    if |ids| > 1 {
      PrintedFacts(ids[1..]);
      var tail := PrintIds(ids[1..]);
      assert NoBreaks(", ");
    }
  }

  lemma LabelledField(p: string)
    ensures var line := "Depends on: " + p;
            && line[..11] == DEPENDS_ON + ":" && line[11..] == [' '] + p && line[0] == 'D'
  {
  }

  lemma FieldLineFacts(p: string)
    requires p != [] && Stripped(p) && NoBreaks(p)
    ensures var line := "Depends on: " + p;
            && Strip(line) == line && NoBreaks(line)
            && Lower(DEPENDS_ON + ":") <= Lower(line) && line[11..] == [' '] + p && Strip([' '] + p) == p
  {
    hide Strip;
    LabelledField(p);
    FieldLineChars(p);
    StripOf("Depends on: " + p);
    StripOf(p);
  }

  lemma FieldLineChars(p: string)
    requires p != [] && Stripped(p) && NoBreaks(p)
    ensures var line := "Depends on: " + p;
            Stripped(line) && NoBreaks(line) && Lower(DEPENDS_ON + ":") <= Lower(line)
  {
    LabelledField(p);
    var line := "Depends on: " + p;
    assert Lower(line)[..11] == Lower(DEPENDS_ON + ":");
    assert line[|line| - 1] == p[|p| - 1];
    assert NoBreaks("Depends on: ");
  }

  lemma FieldFolds(s: string)
    requires |s| >= 11 && s[..11] == DEPENDS_ON + ":"
    ensures FoldPrefix(Lower(DEPENDS_ON) + ":", s)
  {
    var needle := Lower(DEPENDS_ON) + ":";
    forall i | 0 <= i < |needle| ensures Fold(s[i]) == needle[i] {
      assert s[i] == (DEPENDS_ON + ":")[i];
    }
  }

  lemma WatcherAgrees(before: string, ids: seq<string>, after: string)
    requires ClosedLines(before) && LineBoundary(after) && Field(DEPENDS_ON, before).None?
    requires ids != [] && forall i :: 0 <= i < |ids| ==> IsLaneId(ids[i])
    ensures WatcherDeps(BodyWith(before, ids, after)) == ids
  {
    hide IsLaneId, FieldOf, SplitLines, KeepIds, Strip, Lower, SplitOn;
    var p := PrintIds(ids);
    var line := "Depends on: " + p;
    var needle := Lower(DEPENDS_ON + ":");
    PrintedFacts(ids);
    FieldLineFacts(p);
    assert |needle| == 11;
    SplitClosed(before, line + after);
    SplitFieldLine(line, after);
    var rest :| SplitLines(line + after) == [line] + rest;
    FieldOfAppend(needle, SplitLines(before), [line] + rest);
    FieldOfFirst(needle, line, rest);
    assert [] + p == p;
    WatcherReadsPrinted(ids, []);
  }

  /** What precedes the field, closed by a newline, is passed over when it holds no such field. */
  lemma {:induction false} DispatchSkips(name: string, before: string, rest: string)
    requires ClosedLines(before) && ':' !in name && '\n' !in name
    requires DispatchField(name, before).None?
    ensures DispatchField(name, before + rest) == DispatchField(name, rest)
    decreases |before|
  {
    var s := before + rest;
    if before == [] {
      assert s == rest;
    } else {
      var line := FirstLine(before);
      assert |line| < |before| by { assert before[|before| - 1] in before; }
      var tail := before[|line| + 1..];
      assert before == line + "\n" + tail;
      assert s == line + "\n" + (tail + rest);
      FirstLineOf(line, tail + rest);
      FieldNeedsOneLine(name, line, tail, tail + rest);
      DispatchSkips(name, tail, rest);
    }
  }

  lemma FieldNeedsOneLine(name: string, line: string, tail: string, other: string)
    requires '\n' !in name && !FoldPrefix(Lower(name) + ":", line + "\n" + tail)
    ensures !FoldPrefix(Lower(name) + ":", line + "\n" + other)
  {
    var needle := Lower(name) + ":";
    var s, t := line + "\n" + tail, line + "\n" + other;
    if |needle| <= |line| + 1 {
      var i :| 0 <= i < |needle| && Fold(s[i]) != needle[i];
      assert t[i] == s[i];
    } else {
      assert t[|line|] == '\n';
      assert needle[|line|] == LowerChar(name[|line|]) && name[|line|] in name;
    }
  }

  lemma DispatchAgrees(before: string, ids: seq<string>, after: string)
    requires ClosedLines(before) && LineBoundary(after) && DispatchField(DEPENDS_ON, before).None?
    requires ids != [] && forall i :: 0 <= i < |ids| ==> IsLaneId(ids[i])
    ensures DispatchDeps(BodyWith(before, ids, after)) == ids
  {
    hide IsLaneId, FindRefs, DispatchFieldAt;
    var p := PrintIds(ids);
    PrintedFacts(ids);
    var s := "Depends on: " + p + after;
    DispatchSkips(DEPENDS_ON, before, s);
    FieldValue(p, after);
    DispatchReadsPrinted(ids);
  }

  lemma FieldValue(p: string, after: string)
    requires p != [] && Stripped(p) && NoBreaks(p) && LineBoundary(after)
    ensures DispatchFieldAt(DEPENDS_ON, "Depends on: " + p + after) == Some(p)
  {
    var s := "Depends on: " + p + after;
    assert s == "Depends on: " + (p + after);
    LabelledField(p + after);
    FieldFolds(s);
    assert (p + after)[0] == p[0];
    assert LStrip([' '] + (p + after)) == p + after by { AfterSpace(p + after); }
    FirstLineStripped(p, after);
    hide Strip, FirstLine, LStrip, FoldPrefix;
  }

  lemma FirstLineStripped(p: string, after: string)
    requires p != [] && Stripped(p) && NoBreaks(p) && LineBoundary(after)
    ensures Strip(FirstLine(p + after)) == p
  {
    hide Strip, FirstLine, AfterLine;
    assert '\n' !in p;
    if after == [] {
      assert p + after == p;
      FirstLineOf(p, []);
      StripOf(p);
    } else if after[0] == '\n' {
      assert p + after == p + "\n" + after[1..];
      FirstLineOf(p, after[1..]);
      StripOf(p);
    } else {
      assert p + after == (p + "\r") + "\n" + after[2..];
      FirstLineOf(p + "\r", after[2..]);
      assert [] + p + "\r" == p + "\r";
      StripCore([], p, "\r");
    }
  }

  /** Both readers undo printing the list, wherever the field stands in a body, so they agree. */
  lemma ReadersAgree(before: string, ids: seq<string>, after: string)
    requires ClosedLines(before) && LineBoundary(after)
    requires Field(DEPENDS_ON, before).None? && DispatchField(DEPENDS_ON, before).None?
    requires ids != [] && forall i :: 0 <= i < |ids| ==> IsLaneId(ids[i])
    ensures WatcherDeps(BodyWith(before, ids, after)) == ids == DispatchDeps(BodyWith(before, ids, after))
  {
    WatcherAgrees(before, ids, after);
    DispatchAgrees(before, ids, after);
  }

  /** A body whose Depends-on line holds nothing but blanks. */
  function EmptyField(before: string, blanks: string, after: string): string {
    before + ("Depends on:" + (blanks + ("\n" + after)))
  }

  /** The references in the next line that is not blank. */
  function NextLineRefs(after: string): seq<string> { FindRefs(Strip(FirstLine(LStrip(after))), false) }

  /** Where the field's own line is empty the dispatcher's pattern runs on into the lines behind it and the
      watcher's does not: the readers agree exactly when no reference is found there. */
  lemma ReadersDiffer(before: string, blanks: string, after: string)
    requires ClosedLines(before) && Blank(blanks) && NoBreaks(blanks)
    requires Field(DEPENDS_ON, before).None? && DispatchField(DEPENDS_ON, before).None?
    ensures var body := EmptyField(before, blanks, after);
            && WatcherDeps(body) == [] && DispatchDeps(body) == NextLineRefs(after)
            && (WatcherDeps(body) == DispatchDeps(body) <==> NextLineRefs(after) == [])
  {
    hide WatcherDeps, DispatchDeps, EmptyField, NextLineRefs;
    WatcherSeesNothing(before, blanks, after);
    DispatcherSeesNextLine(before, blanks, after);
  }

  lemma EmptyLineFacts(blanks: string)
    requires Blank(blanks) && NoBreaks(blanks)
    ensures var line := "Depends on:" + blanks;
            line != [] && NoBreaks(line) && Strip(line) == DEPENDS_ON + ":" && (DEPENDS_ON + ":")[11..] == []
  {
    var text := DEPENDS_ON + ":";
    assert text == "Depends on:";
    assert Stripped(text) && NoBreaks(text);
    assert [] + text + blanks == "Depends on:" + blanks;
    hide Strip;
    StripCore([], text, blanks);
  }

  lemma WatcherSeesNothing(before: string, blanks: string, after: string)
    requires ClosedLines(before) && Blank(blanks) && NoBreaks(blanks) && Field(DEPENDS_ON, before).None?
    ensures WatcherDeps(EmptyField(before, blanks, after)) == []
  {
    hide FieldOf, SplitLines, Strip, Lower, SplitOn, Blank, NoBreaks, ClosedLines;
    var line, needle := "Depends on:" + blanks, Lower(DEPENDS_ON + ":");
    EmptyLineFacts(blanks);
    assert "Depends on:" + (blanks + ("\n" + after)) == line + ("\n" + after);
    SplitClosed(before, line + ("\n" + after));
    SplitFieldLine(line, "\n" + after);
    var rest :| SplitLines(line + ("\n" + after)) == [line] + rest;
    FieldOfAppend(needle, SplitLines(before), [line] + rest);
    FieldOfFirst(needle, line, rest);
    StripOf([]);
    EmptyList();
  }

  lemma EmptyList()
    ensures TaskList(Some([])) == []
  {
    StripOf([]);
    hide Strip;
    assert SplitOn([], ',') == [[]];
    assert KeepIds([[]]) == KeepPart([]) + KeepIds([[]][1..]);
  }

  lemma DispatcherSeesNextLine(before: string, blanks: string, after: string)
    requires ClosedLines(before) && Blank(blanks) && DispatchField(DEPENDS_ON, before).None?
    ensures DispatchDeps(EmptyField(before, blanks, after)) == NextLineRefs(after)
  {
    hide FindRefs, DispatchFieldAt, Strip, FirstLine, LStrip, ClosedLines;
    var s := "Depends on:" + (blanks + ("\n" + after));
    DispatchSkips(DEPENDS_ON, before, s);
    NextLineValue(blanks, after);
    FindNone();
  }

  lemma NextLineValue(blanks: string, after: string)
    requires Blank(blanks)
    ensures DispatchFieldAt(DEPENDS_ON, "Depends on:" + (blanks + ("\n" + after))) == Some(Strip(FirstLine(LStrip(after))))
  {
    hide Strip, FirstLine, FoldPrefix, Lower, LStrip;
    var s := "Depends on:" + (blanks + ("\n" + after));
    FieldFolds(s);
    assert s[11..] == (blanks + "\n") + after;
    LStripOfBlankPrefix(blanks + "\n", after);
  }

  /** The shortest such body on which they disagree. */
  lemma ReadersDifferHere()
    ensures WatcherDeps(EmptyField([], [], "OPS-1")) == []
    ensures DispatchDeps(EmptyField([], [], "OPS-1")) == ["OPS-1"]
  {
    hide WatcherDeps, DispatchDeps, EmptyField, FindRefs, LaneId, Strip, FirstLine, LStrip;
    NothingBefore();
    ReadersDiffer([], [], "OPS-1");
    NextIsOps("OPS-1");
  }

  lemma NothingBefore()
    ensures ClosedLines([]) && Field(DEPENDS_ON, []).None? && DispatchField(DEPENDS_ON, []).None?
  {
    hide Lower;
    assert AfterLine([]).None?;
  }

  lemma NextIsOps(id: string)
    requires id == "OPS-1"
    ensures NextLineRefs(id) == [id]
  {
    hide FindRefs, LaneId, Strip, FirstLine;
    OpsOne();
    assert id + [] == id;
    FirstLineOf(id, []);
    StripOf(id);
    FindOne(id, []);
    FindNone();
  }

  lemma OpsOne()
    ensures LaneId("OPS-1", OPS)
  {
    assert "OPS-1" == LaneText(OPS) + "-" + "1";
  }
}
