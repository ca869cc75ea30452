/** src/carbonfactor_parser/normalization/data_quality_validation.py: one pass over normalized records
    that reports what is missing, not numeric, unsupported, without provenance or duplicated. */
module DataQuality {
  import opened Sorting
  import opened Text

  datatype FieldName = SourceFamily | SourceId | SourceYear | SourceVersion | FactorId | FactorName | FactorValue | Unit
                     | Provenance | RowNumber | SourceDocumentId | DocumentId

  /** Other stands for values of any further type, equal only to themselves. */
  datatype Value = Nothing | Text(text: string) | Int(int) | Bool(bool) | Float(real) | Decimal(real) | Other(tag: int)

  datatype Record = Record(fields: map<FieldName, Value>, sourceReference: Option<string>)

  const REQUIRED := [SourceFamily, SourceId, FactorId, FactorName, FactorValue, Unit]
  const IDENTITY := [SourceFamily, SourceId, SourceYear, SourceVersion, FactorId, Unit]
  const PROVENANCE := [Provenance, RowNumber, SourceDocumentId, DocumentId]

  function At(r: Record, name: FieldName): Value { if name in r.fields then r.fields[name] else Nothing }

  predicate IsMissing(r: Record, name: FieldName) {
    match At(r, name) case Nothing => true case Text(s) => Strip(s) == [] case _ => false
  }

  /** Whether float() takes a text is a parameter. */
  predicate IsNumeric(v: Value, isFloat: string -> bool) {
    match v
    case Int(_) => true
    case Float(_) => true
    case Text(s) => Strip(s) != [] && isFloat(Strip(s))
    case _ => false
  }

  predicate IsSupportedUnit(v: Value, units: set<string>) { v.Text? && Strip(v.text) in units }

  // ---------------------------------------------------------------- identities

  /** What Python's equality sees: stripped texts, and numbers and booleans by value. */
  datatype Part = TextPart(string) | NumberPart(real) | OtherPart(int) | NoPart

  function PartOf(v: Value): Part {
    match v
    case Nothing => NoPart
    case Text(s) => TextPart(Strip(s))
    case Int(n) => NumberPart(n as real)
    case Bool(b) => NumberPart(if b then 1.0 else 0.0)
    case Float(x) => NumberPart(x)
    case Decimal(x) => NumberPart(x)
    case Other(tag) => OtherPart(tag)
  }

  type Identity = seq<Part>

  /** The six identifying values; None unless all are there. */
  function IdentityOf(r: Record): Option<Identity> {
    if exists name :: name in IDENTITY && IsMissing(r, name) then None
    else Some(seq(|IDENTITY|, i requires 0 <= i < |IDENTITY| => PartOf(At(r, IDENTITY[i]))))
  }

  // ---------------------------------------------------------------- diagnostics

  /** In the alphabetical order of the codes. */
  datatype Code = DuplicateIdentity | InvalidNumericValue | MissingRequiredField | ProvenanceGap | UnsupportedUnit

  /** first is the position of the first record with a duplicate's identity. */
  datatype Diagnostic = Diagnostic(position: nat, code: Code, field: Option<FieldName>, first: nat)

  predicate IsBlocking(d: Diagnostic) { d.code.DuplicateIdentity? || d.code.InvalidNumericValue? || d.code.MissingRequiredField? }

  function CodeRank(c: Code): nat {
    match c case DuplicateIdentity => 0 case InvalidNumericValue => 1 case MissingRequiredField => 2
    case ProvenanceGap => 3 case UnsupportedUnit => 4
  }

  /** The alphabetical rank of a field name a diagnostic can carry; no name sorts first. */
  function FieldRank(f: Option<FieldName>): nat {
    match f
    case None => 0
    case Some(FactorId) => 1
    case Some(FactorName) => 2
    case Some(FactorValue) => 3
    case Some(SourceFamily) => 4
    case Some(SourceId) => 5
    case Some(Unit) => 6
    case Some(_) => 7
  }

  /** (position, code, field) as one number. */
  function Key(d: Diagnostic): nat { (d.position * 8 + CodeRank(d.code)) * 8 + FieldRank(d.field) }

  lemma KeyParts(a: Diagnostic, b: Diagnostic)
    ensures Key(a) < Key(b) <==>
            || a.position < b.position
            || (a.position == b.position && (CodeRank(a.code) < CodeRank(b.code)
                || (CodeRank(a.code) == CodeRank(b.code) && FieldRank(a.field) < FieldRank(b.field))))
    ensures Key(a) == Key(b) <==> a.position == b.position && a.code == b.code && FieldRank(a.field) == FieldRank(b.field)
  {
  }

  function MissingDiagnostics(r: Record, position: nat, names: seq<FieldName>): seq<Diagnostic> {
    if names == [] then []
    else (if IsMissing(r, names[0]) then [Diagnostic(position, MissingRequiredField, Some(names[0]), 0)] else [])
         + MissingDiagnostics(r, position, names[1..])
  }

  function NumericDiagnostics(r: Record, position: nat, isFloat: string -> bool): seq<Diagnostic> {
    if IsMissing(r, FactorValue) || IsNumeric(At(r, FactorValue), isFloat) then []
    else [Diagnostic(position, InvalidNumericValue, Some(FactorValue), 0)]
  }

  function UnitDiagnostics(r: Record, position: nat, units: set<string>): seq<Diagnostic> {
    if IsMissing(r, Unit) || IsSupportedUnit(At(r, Unit), units) then []
    else [Diagnostic(position, UnsupportedUnit, Some(Unit), 0)]
  }

  predicate HasProvenance(r: Record) {
    (r.sourceReference.Some? && r.sourceReference.value != []) || exists name :: name in PROVENANCE && !IsMissing(r, name)
  }

  function ProvenanceDiagnostics(r: Record, position: nat): seq<Diagnostic> {
    if HasProvenance(r) then [] else [Diagnostic(position, ProvenanceGap, None, 0)]
  }

  function OwnDiagnostics(r: Record, position: nat, units: set<string>, isFloat: string -> bool): seq<Diagnostic> {
    MissingDiagnostics(r, position, REQUIRED) + NumericDiagnostics(r, position, isFloat)
    + UnitDiagnostics(r, position, units) + ProvenanceDiagnostics(r, position)
  }

  /** The least position of a record among the first n with this identity; 0 when there is none. */
  function FirstWith(records: seq<Record>, n: nat, id: Identity): (p: nat)
    requires n <= |records|
    ensures p <= n
    ensures p > 0 ==> IdentityOf(records[p - 1]) == Some(id) && forall j :: 0 <= j < p - 1 ==> IdentityOf(records[j]) != Some(id)
    ensures p == 0 ==> forall j :: 0 <= j < n ==> IdentityOf(records[j]) != Some(id)
  {
    if n == 0 then 0
    else
      var before := FirstWith(records, n - 1, id);
      if before > 0 then before else if IdentityOf(records[n - 1]) == Some(id) then n else 0
  }

  /** The position of the first record with the identity of record i, if that is an earlier one. */
  function DuplicateOf(records: seq<Record>, i: nat): nat
    requires i < |records|
  {
    if IdentityOf(records[i]).None? then 0 else FirstWith(records, i, IdentityOf(records[i]).value)
  }

  function DuplicateDiagnostics(records: seq<Record>, i: nat): seq<Diagnostic>
    requires i < |records|
  {
    var first := DuplicateOf(records, i);
    if first == 0 then [] else [Diagnostic(i + 1, DuplicateIdentity, Some(FactorId), first)]
  }

  function Collected(records: seq<Record>, n: nat, units: set<string>, isFloat: string -> bool): seq<Diagnostic>
    requires n <= |records|
  {
    if n == 0 then []
    else
      Collected(records, n - 1, units, isFloat) + OwnDiagnostics(records[n - 1], n, units, isFloat)
      + DuplicateDiagnostics(records, n - 1)
  }

  // ---------------------------------------------------------------- sorting

  predicate LowerKey(a: Diagnostic, b: Diagnostic) { Key(a) < Key(b) }

  ghost predicate Tracks(records: seq<Record>, n: nat, positions: map<Identity, nat>)
    requires n <= |records|
  {
    forall id :: FirstWith(records, n, id) == if id in positions then positions[id] else 0
  }

  /** The first position of an identity is stored and stays. */
  lemma TracksMore(records: seq<Record>, n: nat, positions: map<Identity, nat>)
    requires n < |records| && Tracks(records, n, positions) && forall id :: id in positions ==> positions[id] > 0
    ensures var id := IdentityOf(records[n]);
            && DuplicateOf(records, n) == (if id.Some? && id.value in positions then positions[id.value] else 0)
            && Tracks(records, n + 1, if id.Some? && id.value !in positions then positions[id.value := n + 1] else positions)
  {
    hide IdentityOf;
    forall id: Identity
      ensures FirstWith(records, n + 1, id)
           == if FirstWith(records, n, id) > 0 then FirstWith(records, n, id) else if IdentityOf(records[n]) == Some(id) then n + 1 else 0
    {
    }
    hide FirstWith;
  }

  /** validate_normalized_factor_output. */
  method Validate(records: seq<Record>, units: set<string>, isFloat: string -> bool) returns (result: seq<Diagnostic>)
    ensures result == Sorted(Collected(records, |records|, units, isFloat), LowerKey)
  {
    hide IdentityOf, OwnDiagnostics, Sorted, Tracks, FirstWith, DuplicateOf;
    var diagnostics: seq<Diagnostic> := [];
    var identityPositions: map<Identity, nat> := map[];
    NothingTracked(records);
    for i := 0 to |records|
      invariant diagnostics == Collected(records, i, units, isFloat)
      invariant Tracks(records, i, identityPositions)
      invariant forall id :: id in identityPositions ==> identityPositions[id] > 0
    {
      TracksMore(records, i, identityPositions);
      var record, position := records[i], i + 1;
      diagnostics := diagnostics + OwnDiagnostics(record, position, units, isFloat);
      var identity := IdentityOf(record);
      ghost var own := diagnostics;
      if identity.Some? {
        if identity.value !in identityPositions {
          identityPositions := identityPositions[identity.value := position];
        } else {
          diagnostics := diagnostics + [Diagnostic(position, DuplicateIdentity, Some(FactorId), identityPositions[identity.value])];
        }
      }
      assert diagnostics == own + DuplicateDiagnostics(records, i);
    }
    return Sorted(diagnostics, LowerKey);
  }

  lemma NothingTracked(records: seq<Record>)
    ensures Tracks(records, 0, map[])
  {
  }

  // ---------------------------------------------------------------- the order

  predicate StrictlyAscending(ds: seq<Diagnostic>) { forall i, j :: 0 <= i < j < |ds| ==> Key(ds[i]) < Key(ds[j]) }

  predicate Distinct(ds: seq<Diagnostic>) { forall i, j :: 0 <= i < j < |ds| ==> Key(ds[i]) != Key(ds[j]) }

  lemma KeyIsOrder()
    ensures IsOrder(LowerKey)
  {
    hide Key;
  }

  lemma {:induction false} InsertDistinct(ds: seq<Diagnostic>, d: Diagnostic)
    requires Distinct(ds) && forall x :: x in ds ==> Key(x) != Key(d)
    ensures Distinct(Insert(ds, d, LowerKey))
    ensures forall x :: x in Insert(ds, d, LowerKey) ==> x in ds || x == d
  {
    hide Key;
    if ds != [] && !LowerKey(d, ds[0]) {
      assert forall x :: x in ds[1..] ==> x in ds;
      assert ds[0] in ds;
      forall i, j | 0 <= i < j < |ds[1..]| ensures Key(ds[1..][i]) != Key(ds[1..][j]) { assert Key(ds[i + 1]) != Key(ds[j + 1]); }
      InsertDistinct(ds[1..], d);
      FirstApart(ds);
      DistinctFirst(ds[0], Insert(ds[1..], d, LowerKey));
    } else {
      DistinctFirst(d, ds);
    }
  }

  lemma FirstApart(ds: seq<Diagnostic>)
    requires ds != [] && Distinct(ds)
    ensures forall x :: x in ds[1..] ==> Key(x) != Key(ds[0])
  {
    hide Key;
    forall x | x in ds[1..] ensures Key(x) != Key(ds[0]) {
      var k :| 0 <= k < |ds[1..]| && ds[1..][k] == x;
      assert ds[k + 1] == x;
    }
  }

  lemma DistinctFirst(d: Diagnostic, ds: seq<Diagnostic>)
    requires Distinct(ds) && forall x :: x in ds ==> Key(x) != Key(d)
    ensures Distinct([d] + ds)
  {
    hide Key;
    assert forall k :: 0 <= k < |ds| ==> ds[k] in ds;
  }

  lemma {:induction false} SortedDistinct(ds: seq<Diagnostic>)
    requires Distinct(ds)
    ensures Distinct(Sorted(ds, LowerKey)) && forall x :: x in Sorted(ds, LowerKey) ==> x in ds
    decreases |ds|
  {
    hide Key, Insert;
    if ds != [] {
      var n := |ds| - 1;
      SortedDistinct(ds[..n]);
      LastApart(ds);
      hide Distinct;
      InsertDistinct(Sorted(ds[..n], LowerKey), ds[n]);
      assert forall x :: x in ds[..n] ==> x in ds;
    }
  }

  lemma LastApart(ds: seq<Diagnostic>)
    requires ds != [] && Distinct(ds)
    ensures forall x :: x in ds[..|ds| - 1] ==> Key(x) != Key(ds[|ds| - 1])
  {
    hide Key;
    var n := |ds| - 1;
    forall x | x in ds[..n] ensures Key(x) != Key(ds[n]) {
      var k :| 0 <= k < n && ds[..n][k] == x;
      assert ds[k] == x;
    }
  }

  /** Diagnostics with different keys come out strictly sorted, none lost and none added. */
  lemma SortedAscends(ds: seq<Diagnostic>)
    requires Distinct(ds)
    ensures StrictlyAscending(Sorted(ds, LowerKey)) && forall x :: x in Sorted(ds, LowerKey) <==> x in ds
  {
    hide Key, Sorted, IsOrder;
    KeyIsOrder();
    SortedAscending(ds, LowerKey);
    SortedDistinct(ds);
  }

  /** Two lists with keys apart. */
  lemma DistinctJoin(a: seq<Diagnostic>, b: seq<Diagnostic>)
    requires Distinct(a) && Distinct(b) && forall x, y :: x in a && y in b ==> Key(x) != Key(y)
    ensures Distinct(a + b)
  {
    hide Key;
    forall i, j | 0 <= i < j < |a + b| ensures Key((a + b)[i]) != Key((a + b)[j]) {
      if i < |a| <= j { assert a[i] in a && b[j - |a|] in b; }
    }
  }

  lemma {:induction false} MissingShape(r: Record, position: nat, names: seq<FieldName>)
    ensures forall d :: d in MissingDiagnostics(r, position, names) <==>
              exists k :: 0 <= k < |names| && IsMissing(r, names[k]) && d == Diagnostic(position, MissingRequiredField, Some(names[k]), 0)
  {
    hide IsMissing;
    if names != [] {
      MissingShape(r, position, names[1..]);
      var rest := MissingDiagnostics(r, position, names[1..]);
      forall d ensures d in MissingDiagnostics(r, position, names) <==>
        exists k :: 0 <= k < |names| && IsMissing(r, names[k]) && d == Diagnostic(position, MissingRequiredField, Some(names[k]), 0)
      {
        if d in rest {
          var k :| 0 <= k < |names[1..]| && IsMissing(r, names[1..][k]) && d == Diagnostic(position, MissingRequiredField, Some(names[1..][k]), 0);
          assert names[k + 1] == names[1..][k];
        }
        if k :| 0 <= k < |names| && IsMissing(r, names[k]) && d == Diagnostic(position, MissingRequiredField, Some(names[k]), 0) && k > 0 {
          assert names[1..][k - 1] == names[k];
        }
      }
    }
  }

  predicate DistinctRanks(names: seq<FieldName>) {
    forall i, j :: 0 <= i < j < |names| ==> FieldRank(Some(names[i])) != FieldRank(Some(names[j]))
  }

  lemma {:induction false} MissingDistinct(r: Record, position: nat, names: seq<FieldName>)
    requires DistinctRanks(names)
    ensures Distinct(MissingDiagnostics(r, position, names))
  {
    hide IsMissing, FieldRank;
    if names != [] {
      var rest := MissingDiagnostics(r, position, names[1..]);
      MissingDistinct(r, position, names[1..]);
      MissingShape(r, position, names[1..]);
      if IsMissing(r, names[0]) {
        var head := Diagnostic(position, MissingRequiredField, Some(names[0]), 0);
        forall d | d in rest ensures Key(head) != Key(d) {
          var k :| 0 <= k < |names[1..]| && d == Diagnostic(position, MissingRequiredField, Some(names[1..][k]), 0);
          assert names[1..][k] == names[k + 1];
          KeyParts(head, d);
        }
        hide Key;
        DistinctJoin([head], rest);
      } else {
        assert [] + rest == rest;
      }
    }
  }

  lemma RequiredRanks()
    ensures DistinctRanks(REQUIRED)
  {
  }

  /** What a record's own diagnostics are, and nothing else. */
  predicate Owns(r: Record, position: nat, units: set<string>, isFloat: string -> bool, d: Diagnostic) {
    && d.position == position && d.first == 0
    && match d.code
       case DuplicateIdentity => false
       case MissingRequiredField => d.field.Some? && d.field.value in REQUIRED && IsMissing(r, d.field.value)
       case InvalidNumericValue => d.field == Some(FactorValue) && !IsMissing(r, FactorValue) && !IsNumeric(At(r, FactorValue), isFloat)
       case UnsupportedUnit => d.field == Some(Unit) && !IsMissing(r, Unit) && !IsSupportedUnit(At(r, Unit), units)
       case ProvenanceGap => d.field == None && !HasProvenance(r)
  }

  lemma OwnMeans(r: Record, position: nat, units: set<string>, isFloat: string -> bool, d: Diagnostic)
    ensures d in OwnDiagnostics(r, position, units, isFloat) <==> Owns(r, position, units, isFloat, d)
  {
    hide IsMissing, HasProvenance, IsNumeric, IsSupportedUnit, MissingDiagnostics;
    MissingShape(r, position, REQUIRED);
    assert forall k :: 0 <= k < |REQUIRED| ==> REQUIRED[k] in REQUIRED;
    hide REQUIRED;
    assert d in OwnDiagnostics(r, position, units, isFloat) <==>
      d in MissingDiagnostics(r, position, REQUIRED) || d in NumericDiagnostics(r, position, isFloat)
      || d in UnitDiagnostics(r, position, units) || d in ProvenanceDiagnostics(r, position);
  }

  lemma OwnDistinct(r: Record, position: nat, units: set<string>, isFloat: string -> bool)
    ensures Distinct(OwnDiagnostics(r, position, units, isFloat))
  {
    hide IsMissing, HasProvenance, IsNumeric, IsSupportedUnit, MissingDiagnostics, Distinct, FieldRank, Key;
    var m, n, u, p := MissingDiagnostics(r, position, REQUIRED), NumericDiagnostics(r, position, isFloat),
                      UnitDiagnostics(r, position, units), ProvenanceDiagnostics(r, position);
    RequiredRanks();
    MissingDistinct(r, position, REQUIRED);
    MissingShape(r, position, REQUIRED);
    forall x, y | x in m && y in n ensures Key(x) != Key(y) { KeyParts(x, y); }
    Small(n);
    DistinctJoin(m, n);
    forall x, y | x in m + n && y in u ensures Key(x) != Key(y) { KeyParts(x, y); }
    Small(u);
    DistinctJoin(m + n, u);
    forall x, y | x in m + n + u && y in p ensures Key(x) != Key(y) { KeyParts(x, y); }
    Small(p);
    DistinctJoin(m + n + u, p);
  }

  lemma Small(ds: seq<Diagnostic>)
    requires |ds| <= 1
    ensures Distinct(ds)
  {
  }

  lemma {:induction false} CollectedMeans(records: seq<Record>, n: nat, units: set<string>, isFloat: string -> bool, d: Diagnostic)
    requires n <= |records|
    ensures d in Collected(records, n, units, isFloat) <==>
            0 < d.position <= n
            && (Owns(records[d.position - 1], d.position, units, isFloat, d) || d in DuplicateDiagnostics(records, d.position - 1))
  {
    hide Owns, DuplicateOf, OwnDiagnostics;
    if n > 0 {
      CollectedMeans(records, n - 1, units, isFloat, d);
      OwnMeans(records[n - 1], n, units, isFloat, d);
      OwnPosition(records[n - 1], n, units, isFloat, d);
    }
  }

  lemma OwnPosition(r: Record, position: nat, units: set<string>, isFloat: string -> bool, d: Diagnostic)
    ensures Owns(r, position, units, isFloat, d) ==> d.position == position && !d.code.DuplicateIdentity?
  {
  }

  lemma {:induction false} CollectedDistinct(records: seq<Record>, n: nat, units: set<string>, isFloat: string -> bool)
    requires n <= |records|
    ensures Distinct(Collected(records, n, units, isFloat))
  {
    hide Owns, DuplicateOf, OwnDiagnostics, Distinct, Key;
    if n > 0 {
      CollectedDistinct(records, n - 1, units, isFloat);
      var before, own, dup := Collected(records, n - 1, units, isFloat), OwnDiagnostics(records[n - 1], n, units, isFloat),
                              DuplicateDiagnostics(records, n - 1);
      OwnDistinct(records[n - 1], n, units, isFloat);
      forall x, y | x in before && y in own ensures Key(x) != Key(y) {
        CollectedMeans(records, n - 1, units, isFloat, x);
        OwnMeans(records[n - 1], n, units, isFloat, y);
        OwnPosition(records[n - 1], n, units, isFloat, y);
        KeyParts(x, y);
      }
      DistinctJoin(before, own);
      forall x, y | x in before + own && y in dup ensures Key(x) != Key(y) {
        CollectedMeans(records, n - 1, units, isFloat, x);
        OwnMeans(records[n - 1], n, units, isFloat, x);
        OwnPosition(records[n - 1], n, units, isFloat, x);
        KeyParts(x, y);
      }
      Small(dup);
      DistinctJoin(before + own, dup);
    } else {
      Small([]);
    }
  }

  // ---------------------------------------------------------------- what the result means

  /** The result is strictly sorted by position, code and field, and holds exactly what is wrong. */
  lemma ResultMeans(records: seq<Record>, units: set<string>, isFloat: string -> bool)
    ensures var result := Sorted(Collected(records, |records|, units, isFloat), LowerKey);
            && StrictlyAscending(result)
            && forall d :: d in result <==>
                 0 < d.position <= |records|
                 && (Owns(records[d.position - 1], d.position, units, isFloat, d) || d in DuplicateDiagnostics(records, d.position - 1))
  {
    hide Owns, DuplicateDiagnostics, Sorted, Collected, Distinct, StrictlyAscending;
    CollectedDistinct(records, |records|, units, isFloat);
    SortedAscends(Collected(records, |records|, units, isFloat));
    forall d: Diagnostic ensures d in Collected(records, |records|, units, isFloat) <==>
                 0 < d.position <= |records|
                 && (Owns(records[d.position - 1], d.position, units, isFloat, d) || d in DuplicateDiagnostics(records, d.position - 1))
    {
      CollectedMeans(records, |records|, units, isFloat, d);
    }
  }

  predicate SameIdentity(a: Record, b: Record) { IdentityOf(a).Some? && IdentityOf(a) == IdentityOf(b) }

  lemma DuplicateOfMeans(records: seq<Record>, i: nat, first: nat)
    requires i < |records|
    ensures first > 0 && first == DuplicateOf(records, i)
            <==> 0 < first <= i && SameIdentity(records[first - 1], records[i])
                 && forall j :: 0 <= j < first - 1 ==> !SameIdentity(records[j], records[i])
  {
    hide IdentityOf, FirstWith;
    if IdentityOf(records[i]).Some? {
      var id := IdentityOf(records[i]).value;
      var found := FirstWith(records, i, id);
      assert forall j :: 0 <= j < i ==> (SameIdentity(records[j], records[i]) <==> IdentityOf(records[j]) == Some(id));
      hide SameIdentity;
      if found > 0 { assert SameIdentity(records[found - 1], records[i]); }
    }
  }

  /** A duplicate is reported at a position exactly when an earlier record has the same complete
      identity, and it names the least such position. */
  lemma DuplicatesReported(records: seq<Record>, units: set<string>, isFloat: string -> bool, p: nat, first: nat)
    requires 0 < p <= |records|
    ensures Diagnostic(p, DuplicateIdentity, Some(FactorId), first) in Sorted(Collected(records, |records|, units, isFloat), LowerKey)
            <==> 0 < first < p && SameIdentity(records[first - 1], records[p - 1])
                 && forall j :: 0 <= j < first - 1 ==> !SameIdentity(records[j], records[p - 1])
  {
    hide Sorted, Collected, StrictlyAscending, DuplicateOf, SameIdentity, Owns;
    ResultMeans(records, units, isFloat);
    OwnPosition(records[p - 1], p, units, isFloat, Diagnostic(p, DuplicateIdentity, Some(FactorId), first));
    DuplicateOfMeans(records, p - 1, first);
  }

  predicate Complete(r: Record, isFloat: string -> bool) {
    (forall name :: name in REQUIRED ==> !IsMissing(r, name)) && IsNumeric(At(r, FactorValue), isFloat)
  }

  /** No blocking diagnostic exactly when every record has its required fields and a numeric value and
      no two share an identity. */
  lemma ValidExactly(records: seq<Record>, units: set<string>, isFloat: string -> bool)
    ensures (forall d :: d in Sorted(Collected(records, |records|, units, isFloat), LowerKey) ==> !IsBlocking(d))
            <==> (forall i :: 0 <= i < |records| ==> Complete(records[i], isFloat))
                 && (forall i, j :: 0 <= i < j < |records| ==> !SameIdentity(records[i], records[j]))
  {
    hide Sorted, Collected, StrictlyAscending, Complete, SameIdentity, IsBlocking, Owns, DuplicateDiagnostics;
    var result := Sorted(Collected(records, |records|, units, isFloat), LowerKey);
    ResultMeans(records, units, isFloat);
    if forall d :: d in result ==> !IsBlocking(d) {
      forall i | 0 <= i < |records| ensures Complete(records[i], isFloat) { NothingWrong(records, units, isFloat, result, i); }
      forall i, j | 0 <= i < j < |records| ensures !SameIdentity(records[i], records[j]) {
        NoDuplicate(records, units, isFloat, result, i, j);
      }
    }
    if (forall i :: 0 <= i < |records| ==> Complete(records[i], isFloat))
       && forall i, j :: 0 <= i < j < |records| ==> !SameIdentity(records[i], records[j])
    {
      forall d | d in result ensures !IsBlocking(d) { NotBlocking(records, units, isFloat, d); }
    }
  }

  lemma NothingWrong(records: seq<Record>, units: set<string>, isFloat: string -> bool, result: seq<Diagnostic>, i: nat)
    requires i < |records| && forall d :: d in result ==> !IsBlocking(d)
    requires forall d: Diagnostic :: d.position == i + 1 && Owns(records[i], i + 1, units, isFloat, d) ==> d in result
    ensures Complete(records[i], isFloat)
  {
    hide IsMissing, IsNumeric, REQUIRED;
    forall name | name in REQUIRED ensures !IsMissing(records[i], name) {
      assert IsBlocking(Diagnostic(i + 1, MissingRequiredField, Some(name), 0));
    }
    assert FactorValue in REQUIRED by { RequiredHasValue(); }
    assert IsBlocking(Diagnostic(i + 1, InvalidNumericValue, Some(FactorValue), 0));
  }

  lemma RequiredHasValue()
    ensures FactorValue in REQUIRED
  {
    assert REQUIRED[4] == FactorValue;
  }

  lemma NoDuplicate(records: seq<Record>, units: set<string>, isFloat: string -> bool, result: seq<Diagnostic>, i: nat, j: nat)
    requires i < j < |records| && forall d :: d in result ==> !IsBlocking(d)
    requires forall d: Diagnostic :: d.position == j + 1 && d in DuplicateDiagnostics(records, j) ==> d in result
    ensures !SameIdentity(records[i], records[j])
  {
    hide IdentityOf, FirstWith;
    assert DuplicateOf(records, j) > 0 ==> IsBlocking(Diagnostic(j + 1, DuplicateIdentity, Some(FactorId), DuplicateOf(records, j)));
  }

  lemma NotBlocking(records: seq<Record>, units: set<string>, isFloat: string -> bool, d: Diagnostic)
    requires 0 < d.position <= |records|
    requires Owns(records[d.position - 1], d.position, units, isFloat, d) || d in DuplicateDiagnostics(records, d.position - 1)
    requires Complete(records[d.position - 1], isFloat)
    requires forall i, j :: 0 <= i < j < |records| ==> !SameIdentity(records[i], records[j])
    ensures !IsBlocking(d)
  {
    hide IsMissing, IsNumeric, REQUIRED, DuplicateOf, SameIdentity;
    var n := d.position - 1;
    DuplicateOfMeans(records, n, DuplicateOf(records, n));
  }

  // ---------------------------------------------------------------- counting

  function Identified(records: seq<Record>, n: nat): nat
    requires n <= |records|
  {
    if n == 0 then 0 else Identified(records, n - 1) + if IdentityOf(records[n - 1]).Some? then 1 else 0
  }

  function Identities(records: seq<Record>, n: nat): set<Identity>
    requires n <= |records|
  {
    if n == 0 then {}
    else Identities(records, n - 1) + if IdentityOf(records[n - 1]).Some? then {IdentityOf(records[n - 1]).value} else {}
  }

  function Duplicates(ds: seq<Diagnostic>): nat {
    if ds == [] then 0 else (if ds[0].code.DuplicateIdentity? then 1 else 0) + Duplicates(ds[1..])
  }

  lemma {:induction false} DuplicatesAppend(a: seq<Diagnostic>, b: seq<Diagnostic>)
    ensures Duplicates(a + b) == Duplicates(a) + Duplicates(b)
  {
    if a == [] {
      assert a + b == b;
    } else {
      assert (a + b)[1..] == a[1..] + b;
      DuplicatesAppend(a[1..], b);
    }
  }

  lemma {:induction false} InsertDuplicates(ds: seq<Diagnostic>, d: Diagnostic)
    ensures Duplicates(Insert(ds, d, LowerKey)) == Duplicates(ds) + if d.code.DuplicateIdentity? then 1 else 0
  {
    hide Key;
    if ds != [] && Key(d) >= Key(ds[0]) { InsertDuplicates(ds[1..], d); }
  }

  lemma {:induction false} SortedDuplicates(ds: seq<Diagnostic>)
    ensures Duplicates(Sorted(ds, LowerKey)) == Duplicates(ds)
    decreases |ds|
  {
    if ds != [] {
      var n := |ds| - 1;
      SortedDuplicates(ds[..n]);
      InsertDuplicates(Sorted(ds[..n], LowerKey), ds[n]);
      DuplicatesAppend(ds[..n], [ds[n]]);
      assert ds == ds[..n] + [ds[n]];
    }
  }

  lemma {:induction false} NoneAmong(ds: seq<Diagnostic>)
    requires forall d :: d in ds ==> !d.code.DuplicateIdentity?
    ensures Duplicates(ds) == 0
  {
    if ds != [] {
      assert ds[0] in ds;
      assert forall d :: d in ds[1..] ==> d in ds;
      NoneAmong(ds[1..]);
    }
  }

  lemma {:induction false} IdentitiesMean(records: seq<Record>, n: nat, id: Identity)
    requires n <= |records|
    ensures id in Identities(records, n) <==> FirstWith(records, n, id) > 0
  {
    hide IdentityOf;
    if n > 0 { IdentitiesMean(records, n - 1, id); }
  }

  lemma DuplicateOrNot(records: seq<Record>, k: nat)
    requires k < |records|
    ensures Duplicates(DuplicateDiagnostics(records, k))
         == if IdentityOf(records[k]).Some? && FirstWith(records, k, IdentityOf(records[k]).value) > 0 then 1 else 0
  {
    hide IdentityOf, FirstWith;
    assert Duplicates(DuplicateDiagnostics(records, k)) == |DuplicateDiagnostics(records, k)|;
  }

  lemma IdentityOrNot(records: seq<Record>, k: nat)
    requires k < |records|
    ensures var before, identity := Identities(records, k), IdentityOf(records[k]);
            |Identities(records, k + 1)| == |before| + if identity.Some? && identity.value !in before then 1 else 0
  {
    hide IdentityOf;
    var before, identity := Identities(records, k), IdentityOf(records[k]);
    var more := if identity.Some? then {identity.value} else {};
    assert Identities(records, k + 1) == before + more;
    hide Identities;
    if identity.None? || identity.value in before { assert before + more == before; }
  }

  /** A record with an identity is a duplicate or brings a new identity. */
  lemma OneOrTheOther(records: seq<Record>, n: nat)
    requires 0 < n <= |records|
    ensures Duplicates(DuplicateDiagnostics(records, n - 1)) + |Identities(records, n)|
         == |Identities(records, n - 1)| + if IdentityOf(records[n - 1]).Some? then 1 else 0
  {
    hide IdentityOf, FirstWith, Duplicates, Identities, DuplicateDiagnostics;
    DuplicateOrNot(records, n - 1);
    IdentityOrNot(records, n - 1);
    var identity := IdentityOf(records[n - 1]);
    if identity.Some? { IdentitiesMean(records, n - 1, identity.value); }
  }

  lemma {:induction false} CollectedDuplicates(records: seq<Record>, n: nat, units: set<string>, isFloat: string -> bool)
    requires n <= |records|
    ensures Duplicates(Collected(records, n, units, isFloat)) + |Identities(records, n)| == Identified(records, n)
  {
    hide IdentityOf, OwnDiagnostics, FirstWith, Owns, DuplicateDiagnostics, Identities;
    if n > 0 {
      CollectedDuplicates(records, n - 1, units, isFloat);
      var before, own, dup := Collected(records, n - 1, units, isFloat), OwnDiagnostics(records[n - 1], n, units, isFloat),
                              DuplicateDiagnostics(records, n - 1);
      forall d | d in own ensures !d.code.DuplicateIdentity? {
        OwnMeans(records[n - 1], n, units, isFloat, d);
        OwnPosition(records[n - 1], n, units, isFloat, d);
      }
      NoneAmong(own);
      DuplicatesAppend(before, own);
      DuplicatesAppend(before + own, dup);
      OneOrTheOther(records, n);
      hide Duplicates;
    } else {
      NoIdentities(records);
    }
  }

  lemma NoIdentities(records: seq<Record>)
    ensures Identities(records, 0) == {}
  {
  }

  /** The duplicates reported number the identified records less the distinct identities. */
  lemma DuplicatesCounted(records: seq<Record>, units: set<string>, isFloat: string -> bool)
    ensures Duplicates(Sorted(Collected(records, |records|, units, isFloat), LowerKey))
         == Identified(records, |records|) - |Identities(records, |records|)|
  {
    hide Sorted, Collected;
    CollectedDuplicates(records, |records|, units, isFloat);
    SortedDuplicates(Collected(records, |records|, units, isFloat));
  }
}
