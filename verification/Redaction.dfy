/** Redaction: the query string of a url (src/carbonfactor_parser/diagnostics/redaction.py), done on
    concrete text, and nested metadata (src/carbonfactor_parser/persistence/ingestion_run_history.py),
    over any redactor of plain text. */
module Redaction {
  import opened Text

  const REDACTED := "***"

  // ---------------------------------------------------------------- sensitive keys

  const SENSITIVE := ["password", "passwd", "pwd", "token", "secret", "key", "api_key", "apikey", "access_key", "accesskey",
                      "private_key", "privatekey", "dsn", "connection_string", "connectionstring", "connection_uri",
                      "connectionuri", "database_url", "databaseurl"]

  function Replace(s: string, c: char, other: string): string {
    if s == [] then [] else (if s[0] == c then other else [s[0]]) + Replace(s[1..], c, other)
  }

  predicate IsSensitive(key: string) {
    var normalized := Replace(Lower(Strip(key)), '-', "_");
    || normalized in SENSITIVE
    || exists i :: 0 <= i < |SENSITIVE| && Replace(normalized, '_', "") == Replace(SENSITIVE[i], '_', "")
  }

  /** A text without its dashes and underscores. */
  function Squeezed(s: string): string {
    if s == [] then [] else (if s[0] == '-' || s[0] == '_' then [] else [s[0]]) + Squeezed(s[1..])
  }

  lemma {:induction false} ReplaceBoth(s: string)
    ensures Replace(Replace(s, '-', "_"), '_', "") == Squeezed(s)
  {
    if s != [] {
      ReplaceBoth(s[1..]);
      var head := if s[0] == '-' then "_" else [s[0]];
      var rest := Replace(s[1..], '-', "_");
      assert (head + rest)[0] == head[0] && (head + rest)[1..] == rest;
    }
  }

  /** The sensitive words, without dashes and underscores. */
  const WORDS := ["password", "passwd", "pwd", "token", "secret", "key", "apikey", "accesskey", "privatekey", "dsn",
                  "connectionstring", "connectionuri", "databaseurl"]

  lemma {:induction false} ReplaceSplit(a: string, b: string)
    ensures Replace(a + "_" + b, '_', "") == Replace(a, '_', "") + Replace(b, '_', "")
    decreases a
  {
    var s := a + "_" + b;
    if a == [] {
      assert s[0] == '_' && s[1..] == b;
    } else {
      assert s[0] == a[0] && s[1..] == a[1..] + "_" + b;
      ReplaceSplit(a[1..], b);
    }
  }

  lemma {:induction false} ReplaceNone(a: string)
    requires '_' !in a
    ensures Replace(a, '_', "") == a
  {
    if a != [] {
      assert a[0] in a;
      ReplaceNone(a[1..]);
    }
  }

  lemma TwoWords(a: string, b: string, both: string)
    requires both == a + "_" + b && '_' !in a && '_' !in b
    ensures Replace(both, '_', "") == a + b
  {
    ReplaceSplit(a, b);
    ReplaceNone(a);
    ReplaceNone(b);
  }

  lemma OneWord(a: string)
    requires forall i :: 0 <= i < |a| ==> 'a' <= a[i] <= 'z'
    ensures Replace(a, '_', "") == a
  {
    ReplaceNone(a);
  }

  /** Which word an entry of the list is. */
  function WordOf(i: nat): nat {
    if i < 7 then i else if i == 7 then 6 else if i <= 9 then 7 else if i <= 11 then 8 else if i == 12 then 9
    else if i <= 14 then 10 else if i <= 16 then 11 else 12
  }

  lemma SingleEntries(i: nat)
    requires i in {0, 1, 2, 3, 4, 5, 7, 9, 11, 12, 14, 16, 18}
    ensures |SENSITIVE| == 19 && |WORDS| == 13 && Replace(SENSITIVE[i], '_', "") == WORDS[WordOf(i)]
  {
    hide Replace;
    assert SENSITIVE[i] == WORDS[WordOf(i)];
    OneWord(SENSITIVE[i]);
  }

  lemma DoubleEntries(i: nat)
    requires i in {6, 8, 10, 13, 15, 17}
    ensures |SENSITIVE| == 19 && |WORDS| == 13 && Replace(SENSITIVE[i], '_', "") == WORDS[WordOf(i)]
  {
    hide Replace;
    if i == 6 { TwoWords("api", "key", SENSITIVE[i]); }
    else if i == 8 { TwoWords("access", "key", SENSITIVE[i]); }
    else if i == 10 { TwoWords("private", "key", SENSITIVE[i]); }
    else if i == 13 { TwoWords("connection", "string", SENSITIVE[i]); }
    else if i == 15 { TwoWords("connection", "uri", SENSITIVE[i]); }
    else { TwoWords("database", "url", SENSITIVE[i]); }
  }

  lemma EntryIsWord(i: nat)
    requires i < |SENSITIVE|
    ensures |WORDS| == 13 && Replace(SENSITIVE[i], '_', "") == WORDS[WordOf(i)]
  {
    assert |SENSITIVE| == 19;
    hide SENSITIVE, WORDS, Replace, WordOf;
    if i in {6, 8, 10, 13, 15, 17} { DoubleEntries(i); } else { SingleEntries(i); }
  }

  /** A key is sensitive exactly when it is one of the words, whatever its case and the blanks around it, its
      dashes and underscores not counted. */
  lemma SensitiveMeans(key: string)
    ensures IsSensitive(key) <==> Squeezed(Lower(Strip(key))) in WORDS
  {
    ReplaceBoth(Lower(Strip(key)));
    var normalized, word := Replace(Lower(Strip(key)), '-', "_"), Squeezed(Lower(Strip(key)));
    hide Replace, SENSITIVE, WORDS, WordOf, Lower, Strip, Squeezed;
    if IsSensitive(key) {
      var i :| 0 <= i < |SENSITIVE| && Replace(SENSITIVE[i], '_', "") == word by {
        if normalized in SENSITIVE { var i :| 0 <= i < |SENSITIVE| && SENSITIVE[i] == normalized; }
      }
      EntryIsWord(i);
      WordsAre(i);
    }
    if word in WORDS {
      var j :| 0 <= j < |WORDS| && WORDS[j] == word;
      var i := EntryOf(j);
      EntryIsWord(i);
    }
  }

  lemma WordsAre(i: nat)
    ensures WordOf(i) < |WORDS|
  {
  }

  lemma EntryOf(j: nat) returns (i: nat)
    requires j < |WORDS|
    ensures i < |SENSITIVE| && WordOf(i) == j
  {
    i := if j <= 6 then j else if j == 7 then 8 else if j == 8 then 10 else if j == 9 then 12 else if j == 10 then 13
         else if j == 11 then 15 else 17;
    assert |SENSITIVE| == 19 && |WORDS| == 13;
  }

  // ---------------------------------------------------------------- query strings

  predicate FreeOf(parts: seq<string>, c: char) { forall i :: 0 <= i < |parts| ==> c !in parts[i] }

  lemma {:induction false} SplitFree(s: string, c: char)
    ensures FreeOf(SplitOn(s, c), c)
    decreases |s|
  {
    var k := FirstOf(s, c);
    if k < |s| { SplitFree(s[k + 1..], c); }
  }

  /** Joining parts free of the separator and splitting again gives the parts. */
  lemma {:induction false} SplitJoined(parts: seq<string>, c: char)
    requires parts != [] && FreeOf(parts, c)
    ensures SplitOn(JoinOn(parts, c), c) == parts
    decreases |parts|
  {
    if |parts| == 1 {
      assert FirstOf(parts[0], c) == |parts[0]|;
    } else {
      var rest := JoinOn(parts[1..], c);
      SplitJoined(parts[1..], c);
      assert JoinOn(parts, c) == parts[0] + [c] + rest;
      hide JoinOn, SplitOn;
      SplitOnFirst(parts[0], c, rest);
      assert parts == [parts[0]] + parts[1..];
    }
  }

  lemma SplitOnFirst(part: string, c: char, rest: string)
    requires c !in part
    ensures SplitOn(part + [c] + rest, c) == [part] + SplitOn(rest, c)
  {
    FirstAfter(part, c, rest);
    var s := part + [c] + rest;
    assert s[..|part|] == part && s[|part| + 1..] == rest;
  }

  /** The key of a part and whether it has an equals sign. */
  function KeyOf(part: string): string { part[..FirstOf(part, '=')] }

  predicate HasValue(part: string) { '=' in part }

  function RedactPart(part: string): string {
    if HasValue(part) && IsSensitive(KeyOf(part)) then KeyOf(part) + "=" + REDACTED else part
  }

  function RedactParts(parts: seq<string>): (r: seq<string>)
    ensures |r| == |parts| && forall i :: 0 <= i < |r| ==> r[i] == RedactPart(parts[i])
  {
    seq(|parts|, i requires 0 <= i < |parts| => RedactPart(parts[i]))
  }

  function RedactQuery(query: string): string { JoinOn(RedactParts(SplitOn(query, '&')), '&') }

  method RedactQueryText(query: string) returns (r: string)
    ensures r == RedactQuery(query)
  {
    hide IsSensitive, SplitOn;
    var parts := SplitOn(query, '&');
    var redacted: seq<string> := [];
    for i := 0 to |parts|
      invariant redacted == RedactParts(parts)[..i]
    {
      var key := parts[i][..FirstOf(parts[i], '=')];
      if '=' in parts[i] && IsSensitive(key) {
        redacted := redacted + [key + "=" + REDACTED];
      } else {
        redacted := redacted + [parts[i]];
      }
    }
    assert RedactParts(parts)[..|parts|] == RedactParts(parts);
    return JoinOn(redacted, '&');
  }

  /** A redacted part keeps its key and its equals sign, hides a sensitive value, and does so once. */
  lemma PartRedacted(part: string)
    requires '&' !in part
    ensures var r := RedactPart(part);
            && KeyOf(r) == KeyOf(part) && HasValue(r) == HasValue(part) && '&' !in r
            && (HasValue(part) && IsSensitive(KeyOf(part)) ==> r == KeyOf(part) + "=" + REDACTED)
            && (!(HasValue(part) && IsSensitive(KeyOf(part))) ==> r == part)
            && RedactPart(r) == r
  {
    hide IsSensitive;
    var key := KeyOf(part);
    if HasValue(part) && IsSensitive(key) {
      var r := key + "=" + REDACTED;
      FirstAfter(key, '=', REDACTED);
      assert r == key + ['='] + REDACTED;
      assert r[|key|] == '=';
      assert forall c :: c in key ==> c in part;
      assert '&' !in REDACTED;
    }
  }

  /** The redacted query has as many parts as the query, each with its key; every sensitive value is
      masked and everything else unchanged. */
  lemma QueryRedacted(query: string)
    ensures var before, after := SplitOn(query, '&'), SplitOn(RedactQuery(query), '&');
            && |after| == |before|
            && forall i :: 0 <= i < |after| ==>
                 && KeyOf(after[i]) == KeyOf(before[i]) && HasValue(after[i]) == HasValue(before[i])
                 && after[i] == if HasValue(before[i]) && IsSensitive(KeyOf(before[i])) then KeyOf(before[i]) + "=" + REDACTED else before[i]
  {
    hide IsSensitive;
    var parts := SplitOn(query, '&');
    PartsRedacted(query);
    hide RedactPart, KeyOf, SplitOn, JoinOn;
    forall i | 0 <= i < |parts|
      ensures KeyOf(RedactParts(parts)[i]) == KeyOf(parts[i]) && HasValue(RedactParts(parts)[i]) == HasValue(parts[i])
      ensures RedactParts(parts)[i]
           == if HasValue(parts[i]) && IsSensitive(KeyOf(parts[i])) then KeyOf(parts[i]) + "=" + REDACTED else parts[i]
    {
      PartRedacted(parts[i]);
    }
  }

  lemma PartsRedacted(query: string)
    ensures SplitOn(RedactQuery(query), '&') == RedactParts(SplitOn(query, '&'))
    ensures FreeOf(SplitOn(query, '&'), '&')
  {
    hide IsSensitive, RedactPart;
    var parts := SplitOn(query, '&');
    SplitFree(query, '&');
    forall i | 0 <= i < |parts| ensures '&' !in RedactParts(parts)[i] { PartRedacted(parts[i]); }
    SplitJoined(RedactParts(parts), '&');
  }

  lemma QueryRedactedOnce(query: string)
    ensures RedactQuery(RedactQuery(query)) == RedactQuery(query)
  {
    hide IsSensitive;
    var parts := SplitOn(query, '&');
    PartsRedacted(query);
    forall i | 0 <= i < |parts| ensures RedactPart(RedactParts(parts)[i]) == RedactParts(parts)[i] { PartRedacted(parts[i]); }
    hide RedactPart;
    assert RedactParts(RedactParts(parts)) == RedactParts(parts);
  }

  // ---------------------------------------------------------------- nested metadata

  datatype Json =
    | Null
    | Bool(bool)
    | Int(int)
    | Str(text: string)
    | Decimal(text: string)
    | Date(text: string)
    | List(items: Items)
    | Object(entries: Entries)

  datatype Items = NoItems | Item(first: Json, others: Items)

  /** A mapping as its entries in iteration order; two keys may have the same text. */
  datatype Entries = NoEntries | Entry(key: string, item: Json, rest: Entries)

  type Redactor = string -> string

  /** dict[key] = item. */
  function Store(entries: Entries, key: string, item: Json): Entries {
    match entries
    case NoEntries => Entry(key, item, NoEntries)
    case Entry(k, i, rest) => if k == key then Entry(k, item, rest) else Entry(k, i, Store(rest, key, item))
  }

  /** _json_safe_redacted. The source visits keys in sorted order, which only orders the new dictionary. */
  function Redact(j: Json, r: Redactor): Json {
    match j
    case Decimal(text) => Str(text)
    case Date(text) => Str(text)
    case Str(text) => Str(r(text))
    case List(items) => List(RedactItems(items, r))
    case Object(entries) => Object(RedactEntries(entries, r, NoEntries))
    case _ => j
  }

  function RedactItems(items: Items, r: Redactor): Items {
    match items
    case NoItems => NoItems
    case Item(first, others) => Item(Redact(first, r), RedactItems(others, r))
  }

  function RedactEntries(entries: Entries, r: Redactor, done: Entries): Entries {
    match entries
    case NoEntries => done
    case Entry(key, item, rest) => RedactEntries(rest, r, Store(done, key, if IsSensitive(key) then Str(REDACTED) else Redact(item, r)))
  }

  /** What the redactor has to do for this value: redact its texts once and for all, and leave its
      numbers and dates, once rendered, alone. Values under sensitive keys do not matter. */
  predicate Settles(j: Json, r: Redactor) {
    match j
    case Decimal(text) => r(text) == text
    case Date(text) => r(text) == text
    case Str(text) => r(r(text)) == r(text)
    case List(items) => SettlesItems(items, r)
    case Object(entries) => SettlesEntries(entries, r)
    case _ => true
  }

  predicate SettlesItems(items: Items, r: Redactor) {
    match items
    case NoItems => true
    case Item(first, others) => Settles(first, r) && SettlesItems(others, r)
  }

  predicate SettlesEntries(entries: Entries, r: Redactor) {
    match entries
    case NoEntries => true
    case Entry(key, item, rest) => (IsSensitive(key) || Settles(item, r)) && SettlesEntries(rest, r)
  }

  predicate HasKey(entries: Entries, key: string) {
    entries.Entry? && (entries.key == key || HasKey(entries.rest, key))
  }

  predicate DistinctKeys(entries: Entries) {
    entries.Entry? ==> !HasKey(entries.rest, entries.key) && DistinctKeys(entries.rest)
  }

  /** Every entry is as redaction leaves it: masked, or unchanged by another pass. */
  predicate Done(entries: Entries, r: Redactor) {
    entries.Entry? ==>
      && (if IsSensitive(entries.key) then entries.item == Str(REDACTED) else Redact(entries.item, r) == entries.item)
      && Done(entries.rest, r)
  }

  lemma {:induction false} StoreKeeps(entries: Entries, key: string, item: Json, r: Redactor)
    requires DistinctKeys(entries) && Done(entries, r)
    requires if IsSensitive(key) then item == Str(REDACTED) else Redact(item, r) == item
    ensures DistinctKeys(Store(entries, key, item)) && Done(Store(entries, key, item), r)
    ensures forall k :: HasKey(Store(entries, key, item), k) <==> HasKey(entries, k) || k == key
    decreases entries
  {
    hide IsSensitive, Redact;
    if entries.Entry? && entries.key != key { StoreKeeps(entries.rest, key, item, r); }
  }

  /** Two dictionaries one behind the other, the first without keys of the second. */
  function Behind(a: Entries, b: Entries): Entries {
    match a case NoEntries => b case Entry(key, item, rest) => Entry(key, item, Behind(rest, b))
  }

  predicate Apart(a: Entries, b: Entries) {
    b.Entry? ==> !HasKey(a, b.key) && Apart(a, b.rest)
  }

  lemma {:induction false} StoreNew(a: Entries, key: string, item: Json)
    requires !HasKey(a, key)
    ensures Store(a, key, item) == Behind(a, Entry(key, item, NoEntries))
  {
    if a.Entry? { StoreNew(a.rest, key, item); }
  }

  lemma {:induction false} BehindTwice(a: Entries, key: string, item: Json, rest: Entries)
    ensures Behind(Behind(a, Entry(key, item, NoEntries)), rest) == Behind(a, Entry(key, item, rest))
  {
    if a.Entry? { BehindTwice(a.rest, key, item, rest); }
  }

  lemma {:induction false} HasKeyBehind(a: Entries, key: string, item: Json, k: string)
    ensures HasKey(Behind(a, Entry(key, item, NoEntries)), k) <==> HasKey(a, k) || k == key
  {
    if a.Entry? { HasKeyBehind(a.rest, key, item, k); }
  }

  lemma {:induction false} ApartStored(a: Entries, key: string, item: Json, rest: Entries)
    requires Apart(a, rest) && !HasKey(rest, key)
    ensures Apart(Behind(a, Entry(key, item, NoEntries)), rest)
    decreases rest
  {
    if rest.Entry? {
      HasKeyBehind(a, key, item, rest.key);
      ApartStored(a, key, item, rest.rest);
    }
  }

  /** A dictionary that is done goes through another pass as it is. */
  lemma {:induction false} DoneStays(entries: Entries, r: Redactor, before: Entries)
    requires DistinctKeys(entries) && Done(entries, r) && Apart(before, entries)
    ensures RedactEntries(entries, r, before) == Behind(before, entries)
    decreases entries
  {
    hide IsSensitive, Redact;
    match entries
    case NoEntries => BehindNothing(before);
    case Entry(key, item, rest) =>
      StoreNew(before, key, item);
      ApartStored(before, key, item, rest);
      DoneStays(rest, r, Behind(before, Entry(key, item, NoEntries)));
      BehindTwice(before, key, item, rest);
  }

  lemma {:induction false} BehindNothing(a: Entries)
    ensures Behind(a, NoEntries) == a
  {
    if a.Entry? { BehindNothing(a.rest); }
  }

  lemma {:induction false} NothingBefore(entries: Entries)
    ensures Apart(NoEntries, entries) && Behind(NoEntries, entries) == entries
  {
    if entries.Entry? { NothingBefore(entries.rest); }
  }

  /** Redacting what was redacted changes nothing, however deep the value. */
  lemma {:induction false} RedactOnce(j: Json, r: Redactor)
    requires Settles(j, r)
    ensures Redact(Redact(j, r), r) == Redact(j, r)
    decreases j
  {
    match j
    case List(items) => RedactItemsOnce(items, r);
    case Object(entries) =>
      EntriesDone(entries, r, NoEntries);
      var redacted := RedactEntries(entries, r, NoEntries);
      NothingBefore(redacted);
      DoneStays(redacted, r, NoEntries);
    case _ =>
  }

  lemma {:induction false} RedactItemsOnce(items: Items, r: Redactor)
    requires SettlesItems(items, r)
    ensures RedactItems(RedactItems(items, r), r) == RedactItems(items, r)
    decreases items
  {
    match items
    case NoItems =>
    case Item(first, others) =>
      RedactOnce(first, r);
      RedactItemsOnce(others, r);
  }

  lemma {:induction false} EntriesDone(entries: Entries, r: Redactor, done: Entries)
    requires SettlesEntries(entries, r) && DistinctKeys(done) && Done(done, r)
    ensures DistinctKeys(RedactEntries(entries, r, done)) && Done(RedactEntries(entries, r, done), r)
    decreases entries
  {
    hide IsSensitive;
    match entries
    case NoEntries =>
    case Entry(key, item, rest) =>
      var stored := if IsSensitive(key) then Str(REDACTED) else Redact(item, r);
      if !IsSensitive(key) { RedactOnce(item, r); }
      hide Redact;
      StoreKeeps(done, key, stored, r);
      EntriesDone(rest, r, Store(done, key, stored));
  }

  // ---------------------------------------------------------------- and only then

  /** The keys of every mapping inside have different texts. */
  predicate KeysApart(j: Json) {
    match j
    case List(items) => KeysApartItems(items)
    case Object(entries) => DistinctKeys(entries) && KeysApartEntries(entries)
    case _ => true
  }

  predicate KeysApartItems(items: Items) {
    match items case NoItems => true case Item(first, others) => KeysApart(first) && KeysApartItems(others)
  }

  predicate KeysApartEntries(entries: Entries) {
    match entries case NoEntries => true case Entry(_, item, rest) => KeysApart(item) && KeysApartEntries(rest)
  }

  function MapEntries(entries: Entries, r: Redactor): Entries {
    match entries
    case NoEntries => NoEntries
    case Entry(key, item, rest) => Entry(key, if IsSensitive(key) then Str(REDACTED) else Redact(item, r), MapEntries(rest, r))
  }

  lemma {:induction false} MappedKeys(entries: Entries, r: Redactor, k: string)
    ensures HasKey(MapEntries(entries, r), k) <==> HasKey(entries, k)
    decreases entries
  {
    hide IsSensitive, Redact;
    if entries.Entry? { MappedKeys(entries.rest, r, k); }
  }

  lemma {:induction false} MappedDistinct(entries: Entries, r: Redactor)
    requires DistinctKeys(entries)
    ensures DistinctKeys(MapEntries(entries, r))
    decreases entries
  {
    hide IsSensitive, Redact;
    if entries.Entry? {
      MappedKeys(entries.rest, r, entries.key);
      MappedDistinct(entries.rest, r);
    }
  }

  /** With distinct keys the loop is a map over the entries. */
  lemma {:induction false} EntriesMapped(entries: Entries, r: Redactor, done: Entries)
    requires DistinctKeys(entries) && Apart(done, entries)
    ensures RedactEntries(entries, r, done) == Behind(done, MapEntries(entries, r))
    decreases entries
  {
    hide IsSensitive, Redact;
    match entries
    case NoEntries => BehindNothing(done);
    case Entry(key, item, rest) =>
      var stored := if IsSensitive(key) then Str(REDACTED) else Redact(item, r);
      StoreNew(done, key, stored);
      ApartStored(done, key, stored, rest);
      EntriesMapped(rest, r, Behind(done, Entry(key, stored, NoEntries)));
      BehindTwice(done, key, stored, MapEntries(rest, r));
  }

  lemma ObjectMapped(entries: Entries, r: Redactor)
    requires DistinctKeys(entries)
    ensures Redact(Object(entries), r) == Object(MapEntries(entries, r))
  {
    NothingBefore(entries);
    NothingBefore(MapEntries(entries, r));
    EntriesMapped(entries, r, NoEntries);
  }

  /** The condition is exact: a second pass leaves a value with distinct keys alone if and only if the
      redactor settles its texts. */
  lemma RedactOnceExactly(j: Json, r: Redactor)
    requires KeysApart(j)
    ensures Redact(Redact(j, r), r) == Redact(j, r) <==> Settles(j, r)
  {
    if Settles(j, r) { RedactOnce(j, r); }
    if Redact(Redact(j, r), r) == Redact(j, r) { OnlySettled(j, r); }
    hide Redact, Settles;
  }

  lemma {:induction false} OnlySettled(j: Json, r: Redactor)
    requires KeysApart(j) && Redact(Redact(j, r), r) == Redact(j, r)
    ensures Settles(j, r)
    decreases j
  {
    match j
    case List(items) => OnlySettledItems(items, r);
    case Object(entries) =>
      ObjectMapped(entries, r);
      MappedDistinct(entries, r);
      ObjectMapped(MapEntries(entries, r), r);
      OnlySettledEntries(entries, r);
    case _ =>
  }

  lemma {:induction false} OnlySettledItems(items: Items, r: Redactor)
    requires KeysApartItems(items) && RedactItems(RedactItems(items, r), r) == RedactItems(items, r)
    ensures SettlesItems(items, r)
    decreases items
  {
    match items
    case NoItems =>
    case Item(first, others) =>
      OnlySettled(first, r);
      OnlySettledItems(others, r);
  }

  lemma {:induction false} OnlySettledEntries(entries: Entries, r: Redactor)
    requires KeysApartEntries(entries) && MapEntries(MapEntries(entries, r), r) == MapEntries(entries, r)
    ensures SettlesEntries(entries, r)
    decreases entries
  {
    hide IsSensitive;
    match entries
    case NoEntries =>
    case Entry(key, item, rest) =>
      if !IsSensitive(key) { OnlySettled(item, r); }
      OnlySettledEntries(rest, r);
  }

  // ---------------------------------------------------------------- nothing sensitive is left

  /** No sensitive key, at any depth, holds anything but the mask. */
  predicate Masked(j: Json) {
    match j
    case List(items) => MaskedItems(items)
    case Object(entries) => MaskedEntries(entries)
    case _ => true
  }

  predicate MaskedItems(items: Items) {
    match items case NoItems => true case Item(first, others) => Masked(first) && MaskedItems(others)
  }

  predicate MaskedEntries(entries: Entries) {
    match entries
    case NoEntries => true
    case Entry(key, item, rest) => (IsSensitive(key) ==> item == Str(REDACTED)) && Masked(item) && MaskedEntries(rest)
  }

  lemma {:induction false} StoreMasked(entries: Entries, key: string, item: Json)
    requires MaskedEntries(entries) && Masked(item) && (IsSensitive(key) ==> item == Str(REDACTED))
    ensures MaskedEntries(Store(entries, key, item))
    decreases entries
  {
    hide IsSensitive, Masked;
    if entries.Entry? && entries.key != key { StoreMasked(entries.rest, key, item); }
  }

  /** For every value and every redactor of text. */
  lemma {:induction false} RedactMasks(j: Json, r: Redactor)
    ensures Masked(Redact(j, r))
    decreases j
  {
    match j
    case List(items) => RedactItemsMasks(items, r);
    case Object(entries) => RedactEntriesMasks(entries, r, NoEntries);
    case _ =>
  }

  lemma {:induction false} RedactItemsMasks(items: Items, r: Redactor)
    ensures MaskedItems(RedactItems(items, r))
    decreases items
  {
    match items
    case NoItems =>
    case Item(first, others) =>
      RedactMasks(first, r);
      RedactItemsMasks(others, r);
  }

  lemma {:induction false} RedactEntriesMasks(entries: Entries, r: Redactor, done: Entries)
    requires MaskedEntries(done)
    ensures MaskedEntries(RedactEntries(entries, r, done))
    decreases entries
  {
    hide IsSensitive;
    match entries
    case NoEntries =>
    case Entry(key, item, rest) =>
      var stored := if IsSensitive(key) then Str(REDACTED) else Redact(item, r);
      if !IsSensitive(key) { RedactMasks(item, r); }
      StoreMasked(done, key, stored);
      RedactEntriesMasks(rest, r, Store(done, key, stored));
  }

  /** No key is lost. */
  lemma {:induction false} KeysKept(entries: Entries, r: Redactor, done: Entries, k: string)
    ensures HasKey(RedactEntries(entries, r, done), k) <==> HasKey(entries, k) || HasKey(done, k)
    decreases entries
  {
    hide IsSensitive, Redact;
    match entries
    case NoEntries =>
    case Entry(key, item, rest) =>
      var stored := if IsSensitive(key) then Str(REDACTED) else Redact(item, r);
      StoredKey(done, key, stored, k);
      KeysKept(rest, r, Store(done, key, stored), k);
  }

  lemma {:induction false} StoredKey(entries: Entries, key: string, item: Json, k: string)
    ensures HasKey(Store(entries, key, item), k) <==> HasKey(entries, k) || k == key
    decreases entries
  {
    if entries.Entry? && entries.key != key { StoredKey(entries.rest, key, item, k); }
  }

  // ---------------------------------------------------------------- what can be serialised

  /** No number or date that JSON does not know is left inside. */
  predicate JsonSafe(j: Json) {
    match j
    case Decimal(_) => false
    case Date(_) => false
    case List(items) => SafeItems(items)
    case Object(entries) => SafeEntries(entries)
    case _ => true
  }

  predicate SafeItems(items: Items) { match items case NoItems => true case Item(first, others) => JsonSafe(first) && SafeItems(others) }

  predicate SafeEntries(entries: Entries) {
    match entries case NoEntries => true case Entry(_, item, rest) => JsonSafe(item) && SafeEntries(rest)
  }

  lemma {:induction false} StoreSafe(entries: Entries, key: string, item: Json)
    requires SafeEntries(entries) && JsonSafe(item)
    ensures SafeEntries(Store(entries, key, item))
  {
    if entries.Entry? && entries.key != key { StoreSafe(entries.rest, key, item); }
  }

  /** A redacted value can be serialised, whatever was in it: what is no text, number or truth value is rendered as
      its text, which the redactor does not see. */
  lemma {:induction false} RedactSafe(j: Json, r: Redactor)
    ensures JsonSafe(Redact(j, r))
    ensures (j.Decimal? || j.Date?) ==> Redact(j, r) == Str(j.text)
    decreases j
  {
    match j
    case List(items) => RedactItemsSafe(items, r);
    case Object(entries) => RedactEntriesSafe(entries, r, NoEntries);
    case _ =>
  }

  lemma {:induction false} RedactItemsSafe(items: Items, r: Redactor)
    ensures SafeItems(RedactItems(items, r))
    decreases items
  {
    if items.Item? {
      RedactSafe(items.first, r);
      RedactItemsSafe(items.others, r);
    }
  }

  lemma {:induction false} RedactEntriesSafe(entries: Entries, r: Redactor, done: Entries)
    requires SafeEntries(done)
    ensures SafeEntries(RedactEntries(entries, r, done))
    decreases entries
  {
    hide IsSensitive;
    match entries
    case NoEntries =>
    case Entry(key, item, rest) =>
      var stored := if IsSensitive(key) then Str(REDACTED) else Redact(item, r);
      RedactSafe(item, r);
      hide Redact;
      StoreSafe(done, key, stored);
      RedactEntriesSafe(rest, r, Store(done, key, stored));
  }
}
