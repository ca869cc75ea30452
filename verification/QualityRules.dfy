/** The rules of the data-quality pass said on the values of a record: what counts as complete, as traceable and
    as the same factor; and that its diagnostics stand in the order of their texts. */
module QualityRules {
  import opened Text
  import opened Sorting
  import opened DataQuality

  // ---------------------------------------------------------------- records

  predicate IsNumber(v: Value, isFloat: string -> bool) {
    v.Int? || v.Float? || (v.Text? && Strip(v.text) != [] && isFloat(Strip(v.text)))
  }

  /** There, and not blank. */
  predicate Given(r: Record, name: FieldName) {
    name in r.fields && match r.fields[name] case Nothing => false case Text(s) => Strip(s) != [] case _ => true
  }

  lemma GivenMeans(r: Record, name: FieldName)
    ensures IsMissing(r, name) <==> !Given(r, name)
  {
  }

  /** A record is complete when it names its source, its factor and its unit, and has a value that is a number. */
  lemma CompleteMeans(r: Record, isFloat: string -> bool)
    ensures Complete(r, isFloat) <==>
              && Given(r, SourceFamily) && Given(r, SourceId) && Given(r, FactorId) && Given(r, FactorName) && Given(r, Unit)
              && Given(r, FactorValue) && IsNumber(r.fields[FactorValue], isFloat)
  {
    hide Strip;
    forall name ensures IsMissing(r, name) <==> !Given(r, name) { GivenMeans(r, name); }
    hide IsMissing, Given;
    assert forall name :: name in REQUIRED <==>
      name == SourceFamily || name == SourceId || name == FactorId || name == FactorName || name == FactorValue || name == Unit;
  }

  /** A record can be traced when it refers to its source, or names a provenance, a row or a document. */
  lemma ProvenanceMeans(r: Record)
    ensures HasProvenance(r) <==>
              || (r.sourceReference.Some? && r.sourceReference.value != [])
              || Given(r, Provenance) || Given(r, RowNumber) || Given(r, SourceDocumentId) || Given(r, DocumentId)
  {
    forall name ensures IsMissing(r, name) <==> !Given(r, name) { GivenMeans(r, name); }
    hide IsMissing, Given;
    assert forall name :: name in PROVENANCE <==>
      name == Provenance || name == RowNumber || name == SourceDocumentId || name == DocumentId;
  }

  // ---------------------------------------------------------------- the same factor

  function AsNumber(v: Value): Option<real> {
    match v
    case Int(n) => Some(n as real)
    case Bool(b) => Some(if b then 1.0 else 0.0)
    case Float(x) => Some(x)
    case Decimal(x) => Some(x)
    case _ => None
  }

  /** Texts but for blanks around them, numbers by value. */
  predicate SameValue(v: Value, w: Value) {
    || (v.Text? && w.Text? && Strip(v.text) == Strip(w.text))
    || (AsNumber(v).Some? && AsNumber(v) == AsNumber(w))
    || (v.Other? && v == w)
  }

  predicate SameGiven(a: Record, b: Record, name: FieldName) {
    Given(a, name) && Given(b, name) && SameValue(a.fields[name], b.fields[name])
  }

  lemma PartsMean(a: Record, b: Record, name: FieldName)
    requires Given(a, name) && Given(b, name)
    ensures PartOf(At(a, name)) == PartOf(At(b, name)) <==> SameValue(a.fields[name], b.fields[name])
  {
    hide Strip;
  }

  /** Two records have the same identity exactly when source, year, version, factor and unit are given in both and
      the same. */
  lemma IdentityMeans(a: Record, b: Record)
    ensures SameIdentity(a, b) <==>
              && SameGiven(a, b, SourceFamily) && SameGiven(a, b, SourceId) && SameGiven(a, b, SourceYear)
              && SameGiven(a, b, SourceVersion) && SameGiven(a, b, FactorId) && SameGiven(a, b, Unit)
  {
    var names := IDENTITY;
    assert |names| == 6 && names[0] == SourceFamily && names[1] == SourceId && names[2] == SourceYear && names[3] == SourceVersion
           && names[4] == FactorId && names[5] == Unit;
    SixSame(a, b);
    assert names == IDENTITY;
    hide *;
    forall k | 0 <= k < 6 ensures SameAt(a, b, names[k]) <==> SameGiven(a, b, names[k]) { SameMeans(a, b, names[k]); }
  }

  lemma IdentityPart(r: Record)
    ensures IdentityOf(r).Some? <==> forall k :: 0 <= k < |IDENTITY| ==> !IsMissing(r, IDENTITY[k])
    ensures IdentityOf(r).Some? ==> |IdentityOf(r).value| == |IDENTITY|
                                    && forall k :: 0 <= k < |IDENTITY| ==> IdentityOf(r).value[k] == PartOf(At(r, IDENTITY[k]))
  {
    hide PartOf, IsMissing, At, IDENTITY;
  }

  predicate SameAt(a: Record, b: Record, name: FieldName) {
    !IsMissing(a, name) && !IsMissing(b, name) && PartOf(At(a, name)) == PartOf(At(b, name))
  }

  lemma SixSame(a: Record, b: Record)
    ensures SameIdentity(a, b) <==> forall k :: 0 <= k < |IDENTITY| ==> SameAt(a, b, IDENTITY[k])
  {
    IdentityPart(a);
    IdentityPart(b);
    hide PartOf, IsMissing, At, IDENTITY, IdentityOf;
    if forall k :: 0 <= k < |IDENTITY| ==> SameAt(a, b, IDENTITY[k]) {
      assert IdentityOf(a).Some? && IdentityOf(b).Some?;
      assert IdentityOf(a).value == IdentityOf(b).value;
    }
  }

  lemma SameMeans(a: Record, b: Record, name: FieldName)
    ensures SameAt(a, b, name) <==> SameGiven(a, b, name)
  {
    GivenMeans(a, name);
    GivenMeans(b, name);
    if Given(a, name) && Given(b, name) { PartsMean(a, b, name); }
    hide PartOf, IsMissing, Given, SameValue, At;
  }

  // ---------------------------------------------------------------- what is reported

  /** What is wrong with a record by itself. */
  predicate IsWrong(r: Record, units: set<string>, isFloat: string -> bool, d: Diagnostic) {
    d.first == 0 &&
    match d.code
    case DuplicateIdentity => false
    case MissingRequiredField =>
      d.field.Some? && d.field.value in {SourceFamily, SourceId, FactorId, FactorName, FactorValue, Unit} && !Given(r, d.field.value)
    case InvalidNumericValue => d.field == Some(FactorValue) && Given(r, FactorValue) && !IsNumber(r.fields[FactorValue], isFloat)
    case UnsupportedUnit => d.field == Some(Unit) && Given(r, Unit) && !(r.fields[Unit].Text? && Strip(r.fields[Unit].text) in units)
    case ProvenanceGap =>
      && d.field == None && !(r.sourceReference.Some? && r.sourceReference.value != [])
      && !Given(r, Provenance) && !Given(r, RowNumber) && !Given(r, SourceDocumentId) && !Given(r, DocumentId)
  }

  /** The record at the position has the identity of an earlier one, the first of which is named. */
  predicate IsRepeated(records: seq<Record>, d: Diagnostic)
    requires 0 < d.position <= |records|
  {
    && d.code.DuplicateIdentity? && d.field == Some(FactorId) && 0 < d.first < d.position
    && SameIdentity(records[d.first - 1], records[d.position - 1])
    && forall j :: 0 <= j < d.first - 1 ==> !SameIdentity(records[j], records[d.position - 1])
  }

  /** The result holds exactly what is wrong. */
  lemma ReportedExactly(records: seq<Record>, units: set<string>, isFloat: string -> bool, d: Diagnostic)
    ensures d in Sorted(Collected(records, |records|, units, isFloat), LowerKey)
            <==> 0 < d.position <= |records| && (IsWrong(records[d.position - 1], units, isFloat, d) || IsRepeated(records, d))
  {
    ResultMeans(records, units, isFloat);
    hide *;
    if 0 < d.position <= |records| {
      OwnWrong(records[d.position - 1], d, units, isFloat);
      RepeatedMeans(records, d);
    }
  }

  lemma RepeatedMeans(records: seq<Record>, d: Diagnostic)
    requires 0 < d.position <= |records|
    ensures d in DuplicateDiagnostics(records, d.position - 1) <==> IsRepeated(records, d)
  {
    DuplicateOfMeans(records, d.position - 1, d.first);
    hide SameIdentity, DuplicateOf;
  }

  lemma OwnWrong(r: Record, d: Diagnostic, units: set<string>, isFloat: string -> bool)
    ensures Owns(r, d.position, units, isFloat, d) <==> IsWrong(r, units, isFloat, d)
  {
    assert forall name :: name in REQUIRED <==>
      name == SourceFamily || name == SourceId || name == FactorId || name == FactorName || name == FactorValue || name == Unit;
    ProvenanceMeans(r);
    forall name ensures IsMissing(r, name) <==> !Given(r, name) { GivenMeans(r, name); }
    assert forall name :: Given(r, name) ==> At(r, name) == r.fields[name];
    hide IsMissing, Given, Strip, REQUIRED, HasProvenance;
  }

  // ---------------------------------------------------------------- the order of the diagnostics

  /** The text of a code behind what all have in front, NORMALIZED_FACTOR_. */
  function CodeText(c: Code): string {
    match c
    case DuplicateIdentity => "DUPLICATE_IDENTITY"
    case InvalidNumericValue => "INVALID_NUMERIC_VALUE"
    case MissingRequiredField => "MISSING_REQUIRED_FIELD"
    case ProvenanceGap => "PROVENANCE_GAP"
    case UnsupportedUnit => "UNSUPPORTED_UNIT"
  }

  /** The name of a field a diagnostic can carry. */
  function FieldText(f: Option<FieldName>): string {
    match f
    case Some(FactorId) => "factor_id"
    case Some(FactorName) => "factor_name"
    case Some(FactorValue) => "factor_value"
    case Some(SourceFamily) => "source_family"
    case Some(SourceId) => "source_id"
    case Some(Unit) => "unit"
    case _ => ""
  }

  /** a < b for texts: they first differ where a has the lower character, or b goes on behind a. */
  predicate Earlier(a: string, b: string) { exists k :: 0 <= k <= |a| && DifferAt(a, b, k) }

  predicate DifferAt(a: string, b: string, k: nat)
    requires k <= |a|
  {
    k < |b| && a[..k] == b[..k] && (k == |a| || a[k] < b[k])
  }

  lemma NotBoth(a: string, b: string)
    ensures !(Earlier(a, b) && Earlier(b, a)) && !Earlier(a, a)
  {
    forall j, k | 0 <= j <= |a| && 0 <= k <= |b| ensures !(DifferAt(a, b, j) && DifferAt(b, a, k)) { OneWay(a, b, j, k); }
    forall j | 0 <= j <= |a| ensures !DifferAt(a, a, j) { OneWay(a, a, j, j); }
  }

  lemma OneWay(a: string, b: string, j: nat, k: nat)
    requires j <= |a| && k <= |b|
    ensures !(DifferAt(a, b, j) && DifferAt(b, a, k))
  {
    assert j < k <= |a| && a[..k] == b[..k] ==> a[j] == a[..k][j] == b[..k][j] == b[j];
    assert k < j <= |b| && a[..j] == b[..j] ==> a[k] == a[..j][k] == b[..j][k] == b[k];
  }

  lemma CodesEarlier(a: Code, b: Code)
    ensures CodeRank(a) < CodeRank(b) <==> Earlier(CodeText(a), CodeText(b))
  {
    var s, t := CodeText(a), CodeText(b);
    if CodeRank(a) < CodeRank(b) { assert DifferAt(s, t, 0); }
    if CodeRank(b) < CodeRank(a) { assert DifferAt(t, s, 0); }
    NotBoth(s, t);
  }

  predicate Carried(f: Option<FieldName>) { f.None? || f.value in {FactorId, FactorName, FactorValue, SourceFamily, SourceId, Unit} }

  lemma FieldsEarlier(a: Option<FieldName>, b: Option<FieldName>)
    requires Carried(a) && Carried(b)
    ensures FieldRank(a) < FieldRank(b) <==> Earlier(FieldText(a), FieldText(b))
  {
    if FieldRank(a) < FieldRank(b) { LowerRank(a, b); }
    if FieldRank(b) < FieldRank(a) { LowerRank(b, a); }
    NotBoth(FieldText(a), FieldText(b));
    hide Earlier, FieldText;
  }

  lemma LowerRank(a: Option<FieldName>, b: Option<FieldName>)
    requires Carried(a) && Carried(b) && FieldRank(a) < FieldRank(b)
    ensures Earlier(FieldText(a), FieldText(b))
  {
    var s, t := FieldText(a), FieldText(b);
    var k := if a.None? then 0 else if (a.value.FactorId? || a.value.FactorName?) && FieldRank(b) <= 3 then 7 else if FieldRank(a) == 4 && FieldRank(b) == 5 then 7 else 0;
    assert DifferAt(s, t, k);
  }

  /** The diagnostics are sorted by position, then by the text of the code, then by the name of the field. */
  lemma OrderMeans(a: Diagnostic, b: Diagnostic)
    requires Carried(a.field) && Carried(b.field)
    ensures Key(a) < Key(b) <==>
              || a.position < b.position
              || (a.position == b.position
                  && (Earlier(CodeText(a.code), CodeText(b.code)) || (a.code == b.code && Earlier(FieldText(a.field), FieldText(b.field)))))
  {
    KeyParts(a, b);
    CodesEarlier(a.code, b.code);
    FieldsEarlier(a.field, b.field);
    hide Earlier, CodeText, FieldText, Key, FieldRank;
  }
}
