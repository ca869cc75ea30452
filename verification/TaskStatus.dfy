/** scripts/agent_task_status.py: the Status line of an issue body, the status labels, and the one
    operation every agent uses to change both. */
module TaskStatus {
  import opened Text

  // ---------------------------------------------------------------- labels

  const PREFIX := "status:"
  const BLOCKED := PREFIX + "blocked"
  const READY := PREFIX + "ready"
  const IN_PROGRESS := PREFIX + "in-progress"
  const MERGED := PREFIX + "merged"
  const NEEDS_ATTENTION := PREFIX + "needs-attention"

  predicate Supported(tag: string) {
    tag == BLOCKED || tag == READY || tag == IN_PROGRESS || tag == MERGED || tag == NEEDS_ATTENTION
  }

  predicate IsStatus(tag: string) { PREFIX <= tag }

  /** The five statuses are different labels. */
  lemma StatusesApart()
    ensures READY != MERGED && READY != IN_PROGRESS && READY != NEEDS_ATTENTION && READY != BLOCKED
    ensures MERGED != IN_PROGRESS && MERGED != NEEDS_ATTENTION && MERGED != BLOCKED
    ensures IN_PROGRESS != NEEDS_ATTENTION && IN_PROGRESS != BLOCKED && NEEDS_ATTENTION != BLOCKED
    ensures forall tag :: Supported(tag) ==> IsStatus(tag)
  {
    assert READY[7] == 'r' && MERGED[7] == 'm' && NEEDS_ATTENTION[7] == 'n' && IN_PROGRESS[7] == 'i' && BLOCKED[7] == 'b';
  }

  /** The status labels of a tag list, in order. */
  function StatusLabels(labels: seq<string>): (r: seq<string>)
    ensures forall l :: l in r <==> l in labels && IsStatus(l)
  {
    if labels == [] then []
    else (if IsStatus(labels[0]) then [labels[0]] else []) + StatusLabels(labels[1..])
  }

  lemma {:induction false} StatusLabelsAppend(a: seq<string>, b: seq<string>)
    ensures StatusLabels(a + b) == StatusLabels(a) + StatusLabels(b)
  {
    hide IsStatus;
    if a == [] {
      assert a + b == b;
    } else {
      assert (a + b)[1..] == a[1..] + b;
      StatusLabelsAppend(a[1..], b);
    }
  }

  lemma {:induction false} StatusLabelsCount(labels: seq<string>, tag: string)
    ensures multiset(StatusLabels(labels))[tag] == if IsStatus(tag) then multiset(labels)[tag] else 0
  {
    hide IsStatus;
    if labels != [] {
      assert labels == [labels[0]] + labels[1..];
      StatusLabelsCount(labels[1..], tag);
    }
  }

  /** They stand in the order of all labels, and as often. */
  lemma StatusLabelsInOrder(labels: seq<string>, k: nat, tag: string)
    requires k <= |labels|
    ensures StatusLabels(labels) == StatusLabels(labels[..k]) + StatusLabels(labels[k..])
    ensures multiset(StatusLabels(labels))[tag] == if IsStatus(tag) then multiset(labels)[tag] else 0
  {
    hide StatusLabels;
    assert labels == labels[..k] + labels[k..];
    StatusLabelsAppend(labels[..k], labels[k..]);
    StatusLabelsCount(labels, tag);
  }

  /** The word written on the Status line; None is the source's ValueError. */
  function BareStatus(tag: string): (r: Option<string>)
    ensures r.Some? <==> Supported(tag)
    ensures r.Some? ==> PREFIX + r.value == tag
  {
    if Supported(tag) then Some(tag[|PREFIX|..]) else None
  }

  /** A status word is plain text: one line, with nothing to strip. */
  lemma BareStatusIsPlain(tag: string)
    requires Supported(tag)
    ensures NoBreaks(BareStatus(tag).value) && Strip(BareStatus(tag).value) == BareStatus(tag).value
  {
    if tag == BLOCKED { Plain("blocked"); }
    else if tag == READY { Plain("ready"); }
    else if tag == IN_PROGRESS { Plain("in-progress"); }
    else if tag == MERGED { Plain("merged"); }
    else { Plain("needs-attention"); }
  }

  lemma Plain(word: string)
    requires word != [] && forall i :: 0 <= i < |word| ==> word[i] == '-' || 'a' <= word[i] <= 'z'
    ensures NoBreaks(word) && Strip(word) == word
    ensures forall tag :: tag == PREFIX + word ==> tag[|PREFIX|..] == word
  {
    assert [] + word + [] == word;
    StripCore([], word, []);
  }

  // ---------------------------------------------------------------- the Status line

  predicate IsStatusLine(line: string) { PREFIX <= Lower(LStrip(line)) }

  function Indent(line: string): string {
    LStripCut(line);
    line[..|line| - |LStrip(line)|]
  }

  /** Index of the first Status line, or the number of lines. */
  function FirstStatus(lines: seq<string>): (k: nat)
    ensures k <= |lines| && forall i :: 0 <= i < k ==> !IsStatusLine(lines[i])
    ensures k < |lines| ==> IsStatusLine(lines[k])
  {
    if lines == [] || IsStatusLine(lines[0]) then 0 else FirstStatus(lines[1..]) + 1
  }

  predicate IsMetadata(line: string) { ':' in Strip(line) }

  /** The key of a metadata line: the text before its first colon. */
  function Key(line: string): string {
    Lower(Strip(Strip(line)[..FirstOf(Strip(line), ':')]))
  }

  datatype KeyKind = Lane | TaskId

  predicate HasKey(line: string, kind: KeyKind) {
    match kind
    case Lane => Key(line) == "lane"
    case TaskId => Key(line) == "task id" || Key(line) == "task-id"
  }

  lemma MetadataMeans(line: string)
    ensures IsMetadata(line) <==> ':' in line
  {
    var left, right := StripParts(line);
    NoColonIn(left);
    NoColonIn(right);
    hide Strip, Blank;
  }

  lemma NoColonIn(blanks: string)
    requires Blank(blanks)
    ensures ':' !in blanks
  {
  }

  /** A line that is a key, a colon and a value is a metadata line; it has the key that is written before the colon,
      in whatever case and with blanks around it. */
  lemma KeyMeans(key: string, value: string)
    requires ':' !in key
    ensures IsMetadata(key + ":" + value)
    ensures HasKey(key + ":" + value, Lane) <==> AnyCase(Strip(key), "lane")
    ensures HasKey(key + ":" + value, TaskId) <==> AnyCase(Strip(key), "task id") || AnyCase(Strip(key), "task-id")
  {
    MetadataMeans(key + ":" + value);
    KeyBefore(key, value);
    SameCase(Strip(key), "lane");
    SameCase(Strip(key), "task id");
    SameCase(Strip(key), "task-id");
    hide Key, Strip, Lower;
  }

  lemma KeyBefore(key: string, value: string)
    requires ':' !in key
    ensures Key(key + ":" + value) == Lower(Strip(key))
  {
    var line := key + ":" + value;
    var left, right := StripParts(line);
    var core := Strip(line);
    NoColonIn(left);
    NoColonIn(right);
    ColonPlace(key, value, left, core, right);
    assert left + core[..|key| - |left|] + [] == key by { assert core[..|key| - |left|] == key[|left|..] && left == key[..|left|]; }
    FirstOfCore(core, |key| - |left|);
    StripPadded(left, core[..|key| - |left|], []);
    hide Strip, Blank, Lower;
  }

  /** The blank edges of the line end before its first colon and begin behind it. */
  lemma ColonPlace(key: string, value: string, left: string, core: string, right: string)
    requires key + ":" + value == left + core + right && ':' !in key && ':' !in left && ':' !in right
    ensures |left| <= |key| < |left| + |core| && left == key[..|left|]
    ensures core[|key| - |left|] == ':' && core[..|key| - |left|] == key[|left|..]
  {
    var line := key + ":" + value;
    assert line[|key|] == ':';
    forall i | 0 <= i < |left| ensures line[i] == left[i] && line[i] != ':' { assert left[i] in left; }
    forall i | |left| + |core| <= i < |line| ensures line[i] != ':' { assert right[i - |left| - |core|] in right; }
    assert forall i :: 0 <= i < |key| ==> key[i] == line[i];
    assert forall i :: 0 <= i < |core| ==> core[i] == line[|left| + i];
  }

  lemma FirstOfCore(core: string, k: nat)
    requires k < |core| && core[k] == ':' && ':' !in core[..k]
    ensures FirstOf(core, ':') == k
  {
    assert core == core[..k] + [':'] + core[k + 1..];
    FirstAfter(core[..k], ':', core[k + 1..]);
  }

  /** How many lines the leading metadata block has: it ends at the first line that is blank or has no colon. */
  function MetadataBlock(lines: seq<string>): (n: nat)
    ensures n <= |lines| && forall i :: 0 <= i < n ==> IsMetadata(lines[i])
    ensures n < |lines| ==> !IsMetadata(lines[n])
  {
    if lines == [] || !IsMetadata(lines[0]) then 0 else MetadataBlock(lines[1..]) + 1
  }

  /** One past the last of the first n lines with a key of this kind; 0 when there is none. */
  function PastLast(lines: seq<string>, kind: KeyKind, n: nat): (k: nat)
    requires n <= |lines|
    ensures k <= n
  {
    if n == 0 || HasKey(lines[n - 1], kind) then n else PastLast(lines, kind, n - 1)
  }

  function InsertIndex(lines: seq<string>): (at: nat)
    ensures at <= |lines|
  {
    var n := MetadataBlock(lines);
    var lane := PastLast(lines, Lane, n);
    var task := PastLast(lines, TaskId, n);
    if lane > 0 then lane else if task > 0 then task else n
  }

  /** at is one past the last line of the first n with a key of this kind. */
  ghost predicate IsPastLast(lines: seq<string>, kind: KeyKind, n: nat, at: nat)
    requires n <= |lines|
  {
    && 0 < at <= n && HasKey(lines[at - 1], kind)
    && forall i :: at <= i < n ==> !HasKey(lines[i], kind)
  }

  ghost predicate NoneHas(lines: seq<string>, kind: KeyKind, n: nat)
    requires n <= |lines|
  {
    forall i :: 0 <= i < n ==> !HasKey(lines[i], kind)
  }

  lemma {:induction false} PastLastIs(lines: seq<string>, kind: KeyKind, n: nat)
    requires n <= |lines|
    ensures var k := PastLast(lines, kind, n);
            if k == 0 then NoneHas(lines, kind, n) else IsPastLast(lines, kind, n, k)
  {
    hide HasKey;
    if n > 0 && !HasKey(lines[n - 1], kind) { PastLastIs(lines, kind, n - 1); }
  }

  /** Where a new Status line goes: behind the last Lane line of the metadata block; without one,
      behind its last Task ID line; without either, behind the block. */
  lemma InsertIndexPlace(lines: seq<string>)
    ensures var n, at := MetadataBlock(lines), InsertIndex(lines);
            && at <= n
            && (IsPastLast(lines, Lane, n, at) || NoneHas(lines, Lane, n))
            && (NoneHas(lines, Lane, n) ==> IsPastLast(lines, TaskId, n, at) || NoneHas(lines, TaskId, n))
            && (NoneHas(lines, Lane, n) && NoneHas(lines, TaskId, n) ==> at == n)
  {
    var n := MetadataBlock(lines);
    PastLastIs(lines, Lane, n);
    PastLastIs(lines, TaskId, n);
  }

  const LABEL := "Status: "

  function StatusLine(indent: string, value: string): string { indent + LABEL + value }

  /** The place of the Status line: what stands before it, its indent, and what follows. */
  datatype Slot = Slot(before: seq<string>, indent: string, after: seq<string>)

  function StatusSlot(lines: seq<string>): Slot {
    var k := FirstStatus(lines);
    if k < |lines| then Slot(lines[..k], Indent(lines[k]), lines[k + 1..])
    else
      var at := InsertIndex(lines);
      Slot(lines[..at], [], lines[at..])
  }

  function Written(slot: Slot, value: string): seq<string> {
    slot.before + [StatusLine(slot.indent, value)] + slot.after
  }

  function SyncedLines(lines: seq<string>, value: string): seq<string> {
    Written(StatusSlot(lines), value)
  }

  lemma Replaced(lines: seq<string>, k: nat, line: string)
    requires k < |lines|
    ensures lines[k := line] == lines[..k] + [line] + lines[k + 1..]
  {
  }

  lemma ReplacedIsSynced(lines: seq<string>, k: nat, value: string)
    requires k == FirstStatus(lines) < |lines|
    ensures lines[k := Indent(lines[k]) + (LABEL + value)] == SyncedLines(lines, value)
  {
    hide IsStatusLine, Indent, FirstStatus;
    var line := Indent(lines[k]) + (LABEL + value);
    assert line == StatusLine(Indent(lines[k]), value);
    Replaced(lines, k, line);
  }

  lemma InsertedIsSynced(lines: seq<string>, value: string)
    requires FirstStatus(lines) == |lines|
    ensures lines[..InsertIndex(lines)] + [LABEL + value] + lines[InsertIndex(lines)..] == SyncedLines(lines, value)
  {
    hide InsertIndex, FirstStatus, Indent;
    Unindented(value);
    hide StatusLine;
  }

  lemma Unindented(value: string)
    ensures StatusLine([], value) == LABEL + value
  {
    assert [] + LABEL == LABEL;
  }

  function SyncedBody(body: string, value: string): string {
    JoinText(SyncedLines(SplitLines(body), value), EndsWithNewline(body))
  }

  method StatusInsertIndex(lines: seq<string>) returns (at: nat)
    ensures at == InsertIndex(lines)
  {
    hide IsMetadata, HasKey;
    var taskIdIndex, laneIndex, lastMetadataIndex := None, None, None;
    var index := 0;
    while index < |lines|
      invariant 0 <= index <= MetadataBlock(lines)
      invariant taskIdIndex == PastLastOption(lines, TaskId, index)
      invariant laneIndex == PastLastOption(lines, Lane, index)
      invariant lastMetadataIndex == if index == 0 then None else Some(index - 1)
    {
      if !IsMetadata(lines[index]) { break; }
      lastMetadataIndex := Some(index);
      KeysDiffer(lines[index]);
      if HasKey(lines[index], TaskId) {
        taskIdIndex := Some(index);
      } else if HasKey(lines[index], Lane) {
        laneIndex := Some(index);
      }
      index := index + 1;
    }
    if laneIndex.Some? { return laneIndex.value + 1; }
    if taskIdIndex.Some? { return taskIdIndex.value + 1; }
    if lastMetadataIndex.Some? { return lastMetadataIndex.value + 1; }
    return 0;
  }

  lemma KeysDiffer(line: string)
    ensures !(HasKey(line, Lane) && HasKey(line, TaskId))
  {
    assert |"lane"| < |"task id"| == |"task-id"|;
  }

  ghost function PastLastOption(lines: seq<string>, kind: KeyKind, n: nat): Option<nat>
    requires n <= |lines|
  {
    var k := PastLast(lines, kind, n);
    if k == 0 then None else Some(k - 1)
  }

  method SyncStatusBody(body: string, value: string) returns (r: string)
    ensures r == SyncedBody(body, value)
  {
    hide IsStatusLine, Indent, InsertIndex, SyncedLines, JoinText, SplitLines;
    var lines := SplitLines(body);
    var keepTrailingNewline := EndsWithNewline(body);
    var replacementLine := LABEL + value;
    var index := 0;
    while index < |lines|
      invariant 0 <= index <= FirstStatus(lines)
      invariant lines == SplitLines(body)
    {
      if IsStatusLine(lines[index]) {
        assert index == FirstStatus(lines);
        ReplacedIsSynced(lines, index, value);
        lines := lines[index := Indent(lines[index]) + replacementLine];
        return JoinText(lines, keepTrailingNewline);
      }
      index := index + 1;
    }
    var insertAt := StatusInsertIndex(lines);
    InsertedIsSynced(lines, value);
    lines := lines[..insertAt] + [replacementLine] + lines[insertAt..];
    r := JoinText(lines, keepTrailingNewline);
  }

  /** Behind its indent the line begins with the word, in whatever case. */
  predicate SaysStatus(line: string) { |LStrip(line)| >= 7 && AnyCase(LStrip(line)[..7], "status:") }

  lemma SaysStatusMeans(line: string)
    ensures IsStatusLine(line) <==> SaysStatus(line)
  {
    var t := LStrip(line);
    if |t| >= 7 {
      SameCase(t[..7], "status:");
      assert Lower(t)[..7] == Lower(t[..7]);
    }
    hide LStrip;
  }

  /** These lines come to stand for the lines of a body: its first Status line is rewritten behind its indent; without
      one the line is put in at the place for it. */
  predicate Rewrites(lines: seq<string>, before: seq<string>, indent: string, after: seq<string>) {
    && (forall i :: 0 <= i < |before| ==> !SaysStatus(before[i]))
    && if |before| + 1 + |after| == |lines|
       then lines[..|before|] == before && lines[|before| + 1..] == after && SaysStatus(lines[|before|])
            && Blank(indent) && lines[|before|] == indent + LStrip(lines[|before|])
       else lines == before + after && indent == [] && |before| == InsertIndex(lines) && forall i :: 0 <= i < |after| ==> !SaysStatus(after[i])
  }

  /** A synced body is the body, line for line, but for one line that is rewritten or put in; it ends with a newline as
      the body does. */
  lemma SyncShape(body: string, value: string)
    ensures exists before, indent, after ::
              && Rewrites(SplitLines(body), before, indent, after)
              && SyncedBody(body, value) == JoinText(before + [indent + "Status: " + value] + after, EndsWithNewline(body))
  {
    var lines := SplitLines(body);
    var slot := StatusSlot(lines);
    forall line ensures IsStatusLine(line) <==> SaysStatus(line) { SaysStatusMeans(line); }
    SlotRewrites(lines);
    hide SplitLines, JoinText, EndsWithNewline, StatusSlot, Rewrites, IsStatusLine, SaysStatus;
    assert SyncedBody(body, value) == JoinText(slot.before + [slot.indent + "Status: " + value] + slot.after, EndsWithNewline(body));
  }

  lemma SlotRewrites(lines: seq<string>)
    requires forall line :: IsStatusLine(line) <==> SaysStatus(line)
    ensures Rewrites(lines, StatusSlot(lines).before, StatusSlot(lines).indent, StatusSlot(lines).after)
  {
    hide IsStatusLine, SaysStatus, InsertIndex, Blank, LStrip;
    var k := FirstStatus(lines);
    if k < |lines| { LStripCut(lines[k]); }
    hide FirstStatus;
  }

  // ---------------------------------------------------------------- reading fields back

  /** The value of the first line that starts, stripped and lower-cased, with the needle. */
  function FieldOf(needle: string, lines: seq<string>): Option<string> {
    if lines == [] then None
    else
      var line := Strip(lines[0]);
      if needle <= Lower(line) then Some(Strip(line[|needle|..])) else FieldOf(needle, lines[1..])
  }

  /** scripts/agent_task_watcher.py extract_field. */
  function Field(name: string, body: string): Option<string> {
    FieldOf(Lower(name + ":"), SplitLines(body))
  }

  /** A field name that is not Status and has no colon inside. */
  predicate OtherField(name: string) { ':' !in name && Lower(name) != "status" }

  lemma StatusLineStarts(line: string)
    ensures IsStatusLine(line) <==> PREFIX <= Lower(Strip(line))
  {
    var s := LStrip(line);
    RStripCut(s);
    if PREFIX <= Lower(s) {
      assert Lower(s)[6] == PREFIX[6] == ':';
      RStripKeeps(s, 6);
      assert Lower(Strip(line))[..7] == Lower(s)[..7];
    } else if |Strip(line)| >= 7 {
      assert Lower(Strip(line))[..7] == Lower(s)[..7];
    }
  }

  /** A Status line answers to no other field name. */
  lemma StatusLineIsNotOther(name: string, line: string)
    requires OtherField(name) && IsStatusLine(line)
    ensures !(Lower(name + ":") <= Lower(Strip(line)))
  {
    StatusLineStarts(line);
    var needle, t := Lower(name + ":"), Lower(Strip(line));
    assert t[..7] == PREFIX;
    if |needle| <= |t| {
      if |name| < 6 {
        assert t[|name|] == PREFIX[|name|] != ':' == needle[|name|];
      } else if |name| > 6 {
        assert name[6] in name;
        assert needle[6] != ':' == PREFIX[6] == t[6];
      } else {
        assert exists i :: 0 <= i < 6 && Lower(name)[i] != "status"[i];
        var i :| 0 <= i < 6 && Lower(name)[i] != "status"[i];
        assert needle[i] == Lower(name)[i] && t[i] == PREFIX[i] == "status"[i];
      }
    }
  }

  lemma LabelFacts()
    ensures |LABEL| == 8 && !IsSpace(LABEL[0]) && !IsSpace(LABEL[6]) && LABEL[7] == ' '
    ensures forall i :: 0 <= i < 7 ==> LowerChar(LABEL[i]) == PREFIX[i]
    ensures NoBreaks(LABEL)
  {
  }

  lemma WrittenText(value: string)
    ensures var text := LABEL + value;
            && LStrip(text) == text && PREFIX <= Lower(text)
            && |RStrip(text)| >= 7 && Strip(RStrip(text)[7..]) == Strip(value)
  {
    LabelFacts();
    var text := LABEL + value;
    assert text[0] == LABEL[0] && text[6] == LABEL[6];
    assert Lower(text)[..7] == PREFIX;
    RStripCut(text);
    RStripKeeps(text, 6);
    WrittenTail(text, RStrip(text), value);
  }

  lemma WrittenTail(text: string, t: string, value: string)
    requires |text| == |value| + 8 && text[7..] == [' '] + value
    requires t <= text && |t| >= 7 && Blank(text[|t|..])
    ensures Strip(t[7..]) == Strip(value)
  {
    var tail := text[|t|..];
    assert [] + t[7..] + tail == text[7..] == [' '] + value + [];
    StripPadded([], t[7..], tail);
    StripPadded([' '], value, []);
  }

  /** The line written by the sync is a Status line carrying the value. */
  lemma WrittenLine(indent: string, value: string)
    requires Blank(indent)
    ensures var line := StatusLine(indent, value);
            && line != [] && IsStatusLine(line) && Indent(line) == indent
            && PREFIX <= Lower(Strip(line)) && Strip(Strip(line)[7..]) == Strip(value)
  {
    var text := LABEL + value;
    var line := StatusLine(indent, value);
    assert line == indent + text;
    LStripOfBlankPrefix(indent, text);
    WrittenText(value);
    StatusLineStarts(line);
  }

  lemma FieldOfFirst(needle: string, line: string, rest: seq<string>)
    requires needle <= Lower(Strip(line))
    ensures FieldOf(needle, [line] + rest) == Some(Strip(Strip(line)[|needle|..]))
  {
  }

  lemma {:induction false} FieldOfAppend(needle: string, a: seq<string>, b: seq<string>)
    requires FieldOf(needle, a).None?
    ensures FieldOf(needle, a + b) == FieldOf(needle, b)
  {
    if a == [] {
      assert a + b == b;
    } else {
      assert (a + b)[1..] == a[1..] + b;
      FieldOfAppend(needle, a[1..], b);
    }
  }

  lemma {:induction false} FieldOfPrefix(needle: string, a: seq<string>, b: seq<string>)
    requires FieldOf(needle, a).Some?
    ensures FieldOf(needle, a + b) == FieldOf(needle, a)
  {
    assert (a + b)[1..] == a[1..] + b;
    if !(needle <= Lower(Strip(a[0]))) { FieldOfPrefix(needle, a[1..], b); }
  }

  /** One line that does not answer to the needle can be put in or taken out. */
  lemma FieldOfSkips(needle: string, a: seq<string>, line: string, b: seq<string>)
    requires !(needle <= Lower(Strip(line)))
    ensures FieldOf(needle, a + [line] + b) == FieldOf(needle, a + b)
  {
    assert a + [line] + b == a + ([line] + b);
    assert ([line] + b)[1..] == b;
    if FieldOf(needle, a).None? {
      FieldOfAppend(needle, a, [line] + b);
      FieldOfAppend(needle, a, b);
    } else {
      FieldOfPrefix(needle, a, [line] + b);
      FieldOfPrefix(needle, a, b);
    }
  }

  lemma {:induction false} NoFieldBefore(needle: string, lines: seq<string>)
    requires forall i :: 0 <= i < |lines| ==> !(needle <= Lower(Strip(lines[i])))
    ensures FieldOf(needle, lines).None?
  {
    if lines != [] { NoFieldBefore(needle, lines[1..]); }
  }

  lemma SlotFacts(lines: seq<string>)
    ensures var s := StatusSlot(lines);
            && Blank(s.indent)
            && (forall i :: 0 <= i < |s.before| ==> !IsStatusLine(s.before[i]))
            && (FirstStatus(lines) < |lines| ==> s.before + [lines[FirstStatus(lines)]] + s.after == lines)
            && (FirstStatus(lines) == |lines| ==> s.before + s.after == lines)
  {
    hide IsStatusLine, InsertIndex;
    var k := FirstStatus(lines);
    if k < |lines| {
      LStripCut(lines[k]);
      Replaced(lines, k, lines[k]);
    }
  }

  lemma SlotNoBreaks(lines: seq<string>)
    requires AllNoBreaks(lines)
    ensures var s := StatusSlot(lines); AllNoBreaks(s.before) && NoBreaks(s.indent) && AllNoBreaks(s.after)
  {
    var k := FirstStatus(lines);
    if k < |lines| {
      LStripCut(lines[k]);
      assert forall c :: c in Indent(lines[k]) ==> c in lines[k];
    }
  }

  lemma SyncedOtherField(name: string, lines: seq<string>, value: string)
    requires OtherField(name)
    ensures FieldOf(Lower(name + ":"), SyncedLines(lines, value)) == FieldOf(Lower(name + ":"), lines)
  {
    var needle := Lower(name + ":");
    var slot := StatusSlot(lines);
    SlotFacts(lines);
    WrittenLine(slot.indent, value);
    StatusLineIsNotOther(name, StatusLine(slot.indent, value));
    FieldOfSkips(needle, slot.before, StatusLine(slot.indent, value), slot.after);
    var k := FirstStatus(lines);
    if k < |lines| {
      StatusLineIsNotOther(name, lines[k]);
      FieldOfSkips(needle, slot.before, lines[k], slot.after);
    }
  }

  lemma SyncedStatusField(lines: seq<string>, value: string)
    ensures FieldOf(PREFIX, SyncedLines(lines, value)) == Some(Strip(value))
  {
    var slot := StatusSlot(lines);
    SlotFacts(lines);
    forall i | 0 <= i < |slot.before| ensures !(PREFIX <= Lower(Strip(slot.before[i]))) {
      StatusLineStarts(slot.before[i]);
    }
    NoFieldBefore(PREFIX, slot.before);
    WrittenLine(slot.indent, value);
    var rest := [StatusLine(slot.indent, value)] + slot.after;
    assert Written(slot, value) == slot.before + rest;
    FieldOfAppend(PREFIX, slot.before, rest);
  }

  lemma SyncedNoBreaks(lines: seq<string>, value: string)
    requires AllNoBreaks(lines) && NoBreaks(value)
    ensures var s := SyncedLines(lines, value); AllNoBreaks(s) && s != [] && s != [[]]
  {
    SlotNoBreaks(lines);
    LabelFacts();
    var slot := StatusSlot(lines);
    assert SyncedLines(lines, value)[|slot.before|] == StatusLine(slot.indent, value);
    NoBreaksJoin(slot.before, StatusLine(slot.indent, value), slot.after);
  }

  lemma NoBreaksJoin(before: seq<string>, line: string, after: seq<string>)
    requires AllNoBreaks(before) && NoBreaks(line) && AllNoBreaks(after)
    ensures AllNoBreaks(before + [line] + after)
  {
  }

  /** A synced body read as lines is the synced lines, up to one trailing empty line that turned
      into the closing newline. */
  lemma SplitSynced(body: string, value: string) returns (again: seq<string>)
    requires NoBreaks(value)
    ensures again == SplitLines(SyncedBody(body, value)) && again != []
    ensures var lines := SyncedLines(SplitLines(body), value);
            again == lines || again + [[]] == lines
    ensures SyncedBody(body, value) == JoinText(again, EndsWithNewline(SyncedBody(body, value)))
  {
    var lines := SyncedLines(SplitLines(body), value);
    SplitLinesNoBreaks(body);
    SyncedNoBreaks(SplitLines(body), value);
    hide SyncedLines;
    again := ReadBack(lines, EndsWithNewline(body));
  }

  /** Whole-body reading of any field other than Status is untouched by the sync. */
  lemma SyncKeepsOtherFields(name: string, body: string, value: string)
    requires OtherField(name) && NoBreaks(value)
    ensures Field(name, SyncedBody(body, value)) == Field(name, body)
  {
    var again := SplitSynced(body, value);
    SyncedOtherField(name, SplitLines(body), value);
    FieldOfTrailingEmpty(Lower(name + ":"), again);
  }

  lemma FieldOfTrailingEmpty(needle: string, lines: seq<string>)
    requires needle != []
    ensures FieldOf(needle, lines + [[]]) == FieldOf(needle, lines)
  {
    assert lines + [[]] + [] == lines + [[]];
    assert lines + [] == lines;
    FieldOfSkips(needle, lines, [], []);
  }

  /** Reading Status back gives the value written. */
  lemma SyncSetsStatus(body: string, value: string)
    requires NoBreaks(value)
    ensures Field("Status", SyncedBody(body, value)) == Some(Strip(value))
  {
    assert Lower("Status" + ":") == PREFIX;
    var again := SplitSynced(body, value);
    SyncedStatusField(SplitLines(body), value);
    FieldOfTrailingEmpty(PREFIX, again);
  }

  lemma {:induction false} FirstStatusOf(before: seq<string>, line: string, after: seq<string>)
    requires IsStatusLine(line)
    requires forall i :: 0 <= i < |before| ==> !IsStatusLine(before[i])
    ensures FirstStatus(before + [line] + after) == |before|
  {
    var lines := before + [line] + after;
    assert lines[|before|] == line;
    assert forall i :: 0 <= i < |before| ==> lines[i] == before[i];
  }

  /** Lines that already hold the Status line the sync would write are left alone. */
  lemma SyncedWritten(slot: Slot, value: string)
    requires Blank(slot.indent) && forall i :: 0 <= i < |slot.before| ==> !IsStatusLine(slot.before[i])
    ensures SyncedLines(Written(slot, value), value) == Written(slot, value)
  {
    var s := Written(slot, value);
    WrittenLine(slot.indent, value);
    FirstStatusOf(slot.before, StatusLine(slot.indent, value), slot.after);
    assert s[|slot.before|] == StatusLine(slot.indent, value);
    assert StatusSlot(s) == slot;
  }

  /** That holds too after a trailing empty line was lost. */
  lemma ShortWritten(slot: Slot, value: string, short: seq<string>)
    requires Blank(slot.indent) && forall i :: 0 <= i < |slot.before| ==> !IsStatusLine(slot.before[i])
    requires short + [[]] == Written(slot, value)
    ensures SyncedLines(short, value) == short
  {
    WrittenLine(slot.indent, value);
    var s := Written(slot, value);
    assert s[|slot.before|] == StatusLine(slot.indent, value);
    assert s[|s| - 1] == [];
    var shorter := slot.(after := slot.after[..|slot.after| - 1]);
    assert short == s[..|s| - 1] == Written(shorter, value);
    SyncedWritten(shorter, value);
  }

  /** sync_status_body is idempotent, on every body and for every value that is one line. */
  lemma SyncIdempotent(body: string, value: string)
    requires NoBreaks(value)
    ensures SyncedBody(SyncedBody(body, value), value) == SyncedBody(body, value)
  {
    var again := SplitSynced(body, value);
    var slot := StatusSlot(SplitLines(body));
    SlotFacts(SplitLines(body));
    SyncedWritten(slot, value);
    if again != Written(slot, value) { ShortWritten(slot, value, again); }
  }
}
