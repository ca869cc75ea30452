/** What happens to a DEFRA parse on its way to an insert statement: the normalization input gate, the
    mapper, the persistence input and the statement, each a loop that may reject; and that together they
    reject a successful parse exactly when float() refuses one of its values. float() is a parameter. */
module DefraChain {
  import opened Text
  import opened Fields
  import opened Footers
  import Csv = NormalizedCsv
  import P = ParsedPersistence
  import C = RecordColumns

  type Dec = string -> Option<Decimal>
  type ToFloat = string -> Option<real>

  // ---------------------------------------------------------------- src/carbonfactor_parser/normalization/input.py

  /** validate_normalization_input: one issue for each thing wrong. */
  method Gate(family: string, id: string, records: seq<Csv.Record>) returns (issues: nat)
    ensures issues == 0 <==> Strip(family) != [] && Strip(id) != [] && records != [] && forall r :: r in records ==> P.GoodRecord(r)
  {
    hide Strip;
    issues := 0;
    if Strip(family) == [] { issues := issues + 1; }
    if Strip(id) == [] { issues := issues + 1; }
    if records == [] { issues := issues + 1; }
    ghost var own := issues;
    for i := 0 to |records|
      invariant issues == 0 <==> own == 0 && forall j :: 0 <= j < i ==> P.GoodRecord(records[j])
    {
      if Strip(records[i].sourceFamily) == [] { issues := issues + 1; }
      if Strip(records[i].sourceId) == [] { issues := issues + 1; }
      if records[i].index < 1 { issues := issues + 1; }
      if records[i].fields == map[] { issues := issues + 1; }
    }
  }

  // ---------------------------------------------------------------- src/carbonfactor_parser/normalization/defra_desnz_mapper.py

  datatype Key = KFamily | KId | KYear | KVersion | KIndex | KRow | KFactorId | KFactorName | KValue | KUnit | KCategory
               | KSubcategory | KActivity | KGas | KProvenance

  datatype Cell = Absent | TextCell(text: string) | IntCell(number: int) | FloatCell(value: real)

  datatype Normalized = Normalized(recordId: string, fields: seq<(Key, Cell)>, sourceReference: Option<string>, artificial: bool)

  const REQUIRED := [SourceYear, SourceVersion, Category, FactorId, FactorName, FactorValue, Unit, Provenance]
  const MINIMAL := [FactorId, FactorName, Unit]

  /** A record with any of the five fields only the extraction has. */
  predicate IsExtraction(r: Csv.Record) {
    SourceYear in r.fields || SourceVersion in r.fields || Category in r.fields || FactorValue in r.fields || Provenance in r.fields
  }

  function Raw(r: Csv.Record, name: Name): Value { if name in r.fields then r.fields[name] else Nothing }

  predicate MissingRaw(r: Csv.Record, name: Name) {
    match Raw(r, name) case Nothing => true case Text(s) => Strip(s) == [] case _ => false
  }

  /** str(value).strip(). */
  function TextOf(v: Value): string { Or(TextOrNone(v), []) }

  function OptionalCell(v: Value): Cell { if TextOrNone(v).Some? then TextCell(TextOrNone(v).value) else Absent }

  datatype MapIssue = WrongFamily(index: nat) | MissingField(index: nat, field: Name) | InvalidValue(index: nat)

  function RequiredOf(r: Csv.Record): seq<Name> { if IsExtraction(r) then REQUIRED else MINIMAL }

  predicate BadValue(r: Csv.Record, toFloat: ToFloat) {
    IsExtraction(r) && !MissingRaw(r, FactorValue) && toFloat(TextOf(Raw(r, FactorValue))).None?
  }

  /** Nothing for the mapper to complain about. */
  predicate Mappable(r: Csv.Record, toFloat: ToFloat) {
    r.sourceFamily == "defra_desnz" && (forall name :: name in RequiredOf(r) ==> !MissingRaw(r, name)) && !BadValue(r, toFloat)
  }

  predicate IsMapIssue(r: Csv.Record, toFloat: ToFloat, issue: MapIssue) {
    issue.index == r.index
    && match issue
       case WrongFamily(_) => r.sourceFamily != "defra_desnz"
       case MissingField(_, name) => name in RequiredOf(r) && MissingRaw(r, name)
       case InvalidValue(_) => BadValue(r, toFloat)
  }

  method RecordIssues(r: Csv.Record, toFloat: ToFloat) returns (issues: seq<MapIssue>)
    ensures issues == [] <==> Mappable(r, toFloat)
    ensures forall issue :: issue in issues <==> IsMapIssue(r, toFloat, issue)
  {
    hide MissingRaw, BadValue, RequiredOf;
    issues := [];
    if r.sourceFamily != "defra_desnz" { issues := issues + [WrongFamily(r.index)]; }
    var names := RequiredOf(r);
    ghost var own := issues;
    for i := 0 to |names|
      invariant issues == [] <==> own == [] && forall j :: 0 <= j < i ==> !MissingRaw(r, names[j])
      invariant forall issue :: issue in issues <==>
        issue in own || exists j :: 0 <= j < i && MissingRaw(r, names[j]) && issue == MissingField(r.index, names[j])
    {
      if MissingRaw(r, names[i]) { issues := issues + [MissingField(r.index, names[i])]; }
    }
    if BadValue(r, toFloat) { issues := issues + [InvalidValue(r.index)]; }
  }

  function Id(r: Csv.Record): string { r.sourceFamily + ":" + r.sourceId + ":" }

  /** At least three digits. */
  function Padded(n: nat): string {
    var d := Digits(n);
    if |d| >= 3 then d else if |d| == 2 then "0" + d else "00" + d
  }

  function SourceFields(r: Csv.Record): seq<(Key, Cell)> {
    [(KFamily, TextCell(r.sourceFamily)), (KId, TextCell(r.sourceId)), (KYear, TextCell(TextOf(Raw(r, SourceYear)))),
     (KVersion, TextCell(TextOf(Raw(r, SourceVersion)))), (KIndex, IntCell(r.index)), (KRow, IntCell(r.rowNumber))]
  }

  function FactorFields(r: Csv.Record, toFloat: ToFloat): seq<(Key, Cell)> {
    [(KFactorId, TextCell(TextOf(Raw(r, FactorId)))), (KFactorName, TextCell(TextOf(Raw(r, FactorName)))),
     (KValue, FloatCell(Or(toFloat(TextOf(Raw(r, FactorValue))), 0.0))), (KUnit, TextCell(TextOf(Raw(r, Unit)))),
     (KCategory, TextCell(TextOf(Raw(r, Category)))), (KSubcategory, OptionalCell(Raw(r, Subcategory))),
     (KActivity, OptionalCell(Raw(r, Activity))), (KGas, OptionalCell(Raw(r, GreenhouseGas))),
     (KProvenance, TextCell(TextOf(Raw(r, Provenance))))]
  }

  function NormalizedOf(r: Csv.Record, toFloat: ToFloat): Normalized {
    if IsExtraction(r) then
      Normalized(Id(r) + (TextOf(Raw(r, SourceYear)) + ":" + TextOf(Raw(r, SourceVersion)) + ":" + TextOf(Raw(r, FactorId))),
        SourceFields(r) + FactorFields(r, toFloat),
        Reference(r), false)
    else
      Normalized(Id(r) + ("record-" + Padded(r.index)),
        [(KFamily, TextCell(r.sourceFamily)), (KId, TextCell(r.sourceId)), (KIndex, IntCell(r.index)), (KRow, IntCell(r.rowNumber)),
         (KFactorId, RawCell(Raw(r, FactorId))), (KFactorName, RawCell(Raw(r, FactorName))), (KUnit, RawCell(Raw(r, Unit)))],
        Reference(r), true)
  }

  function RawCell(v: Value): Cell {
    match v case Nothing => Absent case Text(s) => TextCell(s) case Int(n) => IntCell(n) case Dec(d) => TextCell(d.text)
  }

  function Reference(r: Csv.Record): Option<string> {
    if r.artifact.Some? && r.artifact.value != [] then r.artifact else None
  }

  datatype MapStatus = Mapped | MapFailed | NothingToMap

  /** All or nothing: one bad record fails the whole input. */
  method MapAll(records: seq<Csv.Record>, toFloat: ToFloat) returns (status: MapStatus, out: seq<Normalized>, issues: seq<MapIssue>)
    ensures issues == [] <==> !status.MapFailed?
    ensures forall issue :: issue in issues <==> exists k :: 0 <= k < |records| && IsMapIssue(records[k], toFloat, issue)
    ensures status.NothingToMap? <==> records == []
    ensures status.Mapped? <==> records != [] && forall r :: r in records ==> Mappable(r, toFloat)
    ensures status.Mapped? ==> |out| == |records| && forall k :: 0 <= k < |out| ==> out[k] == NormalizedOf(records[k], toFloat)
    ensures !status.Mapped? ==> out == []
  {
    hide Mappable, NormalizedOf, IsMapIssue;
    out, issues := [], [];
    if records == [] { return NothingToMap, [], []; }
    for i := 0 to |records|
      invariant forall issue :: issue in issues <==> exists k :: 0 <= k < i && IsMapIssue(records[k], toFloat, issue)
      invariant issues == [] <==> forall j :: 0 <= j < i ==> Mappable(records[j], toFloat)
      invariant issues == [] ==> |out| == i && forall k :: 0 <= k < i ==> out[k] == NormalizedOf(records[k], toFloat)
    {
      var recordIssues := RecordIssues(records[i], toFloat);
      issues := issues + recordIssues;
      if recordIssues == [] { out := out + [NormalizedOf(records[i], toFloat)]; }
    }
    if issues != [] { return MapFailed, [], issues; }
    return Mapped, out, issues;
  }

  // ---------------------------------------------------------------- src/carbonfactor_parser/persistence/input.py

  /** dict(fields).get(key): the last value of a key. */
  function FieldOf(fields: seq<(Key, Cell)>, key: Key): Cell {
    if fields == [] then Absent
    else if fields[|fields| - 1].0 == key then fields[|fields| - 1].1
    else FieldOf(fields[..|fields| - 1], key)
  }

  function RequiredText(n: Normalized, key: Key): (r: Option<string>)
    ensures r.Some? ==> Strip(r.value) != []
  {
    match FieldOf(n.fields, key) case TextCell(s) => if Strip(s) == [] then None else Some(s) case _ => None
  }

  datatype Persisted = Persisted(family: string, id: string, recordId: string, fields: seq<(Key, Cell)>, index: Cell, row: Cell,
                                 sourceReference: Option<string>)

  function PersistedOf(n: Normalized): Persisted {
    Persisted(Or(RequiredText(n, KFamily), []), Or(RequiredText(n, KId), []), n.recordId, n.fields, FieldOf(n.fields, KIndex),
              FieldOf(n.fields, KRow), n.sourceReference)
  }

  predicate Identified(n: Normalized) { RequiredText(n, KFamily).Some? && RequiredText(n, KId).Some? }

  predicate SameSource(a: Normalized, b: Normalized) {
    RequiredText(a, KFamily) == RequiredText(b, KFamily) && RequiredText(a, KId) == RequiredText(b, KId)
  }

  /** Every record names its source, and all name the same. */
  ghost predicate OneSource(records: seq<Normalized>) {
    forall i, j :: 0 <= i < |records| && 0 <= j < |records| ==> Identified(records[i]) && SameSource(records[i], records[j])
  }

  /** The shape check remembers the first source it sees and compares the rest with it. */
  method ShapeIssues(records: seq<Normalized>) returns (issues: nat)
    ensures issues == 0 <==> OneSource(records)
  {
    hide RequiredText;
    issues := 0;
    var expectedFamily: Option<string>, expectedId: Option<string> := None, None;
    for i := 0 to |records|
      invariant issues == 0 ==> forall j :: 0 <= j < i ==> Identified(records[j])
      invariant issues == 0 && i > 0 ==> expectedFamily == RequiredText(records[0], KFamily) && expectedId == RequiredText(records[0], KId)
      invariant i == 0 ==> expectedFamily.None?
      invariant issues == 0 ==> forall j :: 0 <= j < i ==> SameSource(records[0], records[j])
      invariant issues > 0 ==> !OneSource(records)
    {
      var family, id := RequiredText(records[i], KFamily), RequiredText(records[i], KId);
      if family.None? { issues := issues + 1; }
      if id.None? { issues := issues + 1; }
      if family.Some? && id.Some? {
        if expectedFamily.None? {
          expectedFamily, expectedId := family, id;
        } else if family != expectedFamily || id != expectedId {
          issues := issues + 1;
        }
      }
      assert OneSource(records) ==> Identified(records[i]) && SameSource(records[0], records[i]);
    }
  }

  datatype InputStatus = InputReady | InputFailed | NoInput

  /** errors are the issues of the normalization result that are errors; with any the records are not
      looked at. */
  method BuildInput(records: seq<Normalized>, errors: seq<MapIssue>) returns (status: InputStatus, out: seq<Persisted>)
    ensures status.InputReady? <==> errors == [] && records != [] && OneSource(records)
    ensures status.NoInput? <==> errors == [] && records == []
    ensures !status.InputReady? ==> out == []
    ensures status.InputReady? ==> |out| == |records| && forall k :: 0 <= k < |out| ==> out[k] == PersistedOf(records[k])
  {
    hide OneSource, PersistedOf;
    if errors != [] { return InputFailed, []; }
    if records == [] { return NoInput, []; }
    var issues := ShapeIssues(records);
    if issues != 0 { return InputFailed, []; }
    return InputReady, seq(|records|, i requires 0 <= i < |records| => PersistedOf(records[i]));
  }

  // ---------------------------------------------------------------- src/carbonfactor_parser/persistence/postgresql_insert_builder.py

  datatype Column = CSourceFamily | CSourceId | CRecordId | CRecordIndex | CRowNumber | CNormalizedFields | CSourceReference
                  | CSourceArtifactReference | CSourceChecksum | CParserMetadata | CNormalizationMetadata | CCreatedAt | CUpdatedAt

  const COLUMNS := [CSourceFamily, CSourceId, CRecordId, CRecordIndex, CRowNumber, CNormalizedFields, CSourceReference,
                    CSourceArtifactReference, CSourceChecksum, CParserMetadata, CNormalizationMetadata, CCreatedAt, CUpdatedAt]

  datatype Parameter = Null | TextParameter(string) | CellParameter(Cell) | FieldsParameter(seq<(Key, Cell)>)

  /** No metadata is supplied on this path. */
  function ParameterOf(p: Persisted, c: Column): Parameter {
    match c
    case CSourceFamily => TextParameter(p.family)
    case CSourceId => TextParameter(p.id)
    case CRecordId => TextParameter(p.recordId)
    case CRecordIndex => CellParameter(p.index)
    case CRowNumber => CellParameter(p.row)
    case CNormalizedFields => FieldsParameter(p.fields)
    case CSourceReference => if p.sourceReference.Some? then TextParameter(p.sourceReference.value) else Null
    case _ => Null
  }

  function ParameterRow(p: Persisted): (row: seq<Parameter>)
    ensures |row| == |COLUMNS| && forall c :: 0 <= c < |row| ==> row[c] == ParameterOf(p, COLUMNS[c])
  {
    seq(|COLUMNS|, c requires 0 <= c < |COLUMNS| => ParameterOf(p, COLUMNS[c]))
  }

  predicate Insertable(p: Persisted) { Strip(p.family) != [] && Strip(p.id) != [] && Strip(p.recordId) != [] && p.fields != [] }

  method BuildInsert(records: seq<Persisted>) returns (ready: bool, rows: seq<seq<Parameter>>)
    ensures ready <==> records != [] && forall p :: p in records ==> Insertable(p)
    ensures ready ==> |rows| == |records| && forall k :: 0 <= k < |rows| ==> rows[k] == ParameterRow(records[k])
  {
    hide Strip, ParameterRow;
    if records == [] { return false, []; }
    var issues := 0;
    for i := 0 to |records|
      invariant issues >= 0
      invariant issues == 0 <==> forall j :: 0 <= j < i ==> Insertable(records[j])
    {
      if Strip(records[i].family) == [] { issues := issues + 1; }
      if Strip(records[i].id) == [] { issues := issues + 1; }
      if Strip(records[i].recordId) == [] { issues := issues + 1; }
      if records[i].fields == [] { issues := issues + 1; }
    }
    if issues != 0 { return false, []; }
    return true, seq(|records|, i requires 0 <= i < |records| => ParameterRow(records[i]));
  }

  // ---------------------------------------------------------------- what is rejected

  /** float() takes the text of the decimal that the parser made of the row's factor value. */
  predicate FloatTakes(row: Csv.Row, dec: Dec, toFloat: ToFloat) {
    var d := Csv.FactorDecimal(Csv.Defra, Csv.Cell(Csv.Defra, row, FactorValue), dec);
    d.Some? && toFloat(d.value.text).Some?
  }

  /** What Python promises: float() takes the text of every finite decimal that Decimal() makes of a text. */
  ghost predicate ReadsDecimals(dec: Dec, toFloat: ToFloat) {
    forall s :: dec(s).Some? && dec(s).value.finite ==> toFloat(dec(s).value.text).Some?
  }

  lemma ReadsMeans(row: Csv.Row, dec: Dec, toFloat: ToFloat)
    requires P.Accepted(Csv.Defra, row, dec) && ReadsDecimals(dec, toFloat)
    ensures FloatTakes(row, dec, toFloat)
  {
    P.AcceptedCells(Csv.Defra, row, dec);
    hide Csv.Cell, P.Accepted, Csv.Year;
  }

  /** Decimal() and float() as far as plain digits go. */
  function PlainDecimal(s: string): Option<Decimal> {
    if IsDecimal(s) then
      DecimalBody(s);
      Some(Number(s, true))
    else None
  }

  function PlainFloat(s: string): Option<real> { if IsDecimal(s) then Some(NatOf(s) as real) else None }

  /** Such a float() keeps the promise, takes "12" and refuses "abc". */
  lemma PlainFloatReads()
    ensures ReadsDecimals(PlainDecimal, PlainFloat)
    ensures PlainDecimal("12").Some? && PlainFloat("12").Some? && PlainFloat("abc").None?
  {
    hide NatOf;
    assert "abc"[0] == 'a';
  }

  lemma WrittenNames()
    ensures forall name :: name in REQUIRED ==> P.Has(Csv.Defra, name)
    ensures P.Has(Csv.Defra, SourceYear)
  {
  }

  /** A required field of an accepted row is the year, the decimal, or a filled cell. */
  lemma RequiredValue(inp: Csv.Input, row: Csv.Row, number: nat, dec: Dec, name: Name)
    requires P.Accepted(Csv.Defra, row, dec) && name in REQUIRED
    ensures var v := Csv.RawField(Csv.Defra, inp, row, number, dec, name);
            !v.Nothing? && (v.Text? ==> Strip(v.text) != [])
    ensures name == FactorValue ==> Csv.RawField(Csv.Defra, inp, row, number, dec, name).Dec?
  {
    hide Csv.Cell, Csv.Year, Csv.FactorDecimal, Csv.RowIssues, Csv.AllBlank, Strip;
    Csv.RowOk(Csv.Defra, row, 0, dec);
    assert REQUIRED == Csv.Required(Csv.Defra);
    P.CellStripped(Csv.Defra, row, name);
    if name != SourceYear && name != FactorValue {
      assert Csv.RawField(Csv.Defra, inp, row, number, dec, name) == Text(Csv.Cell(Csv.Defra, row, name));
    }
  }

  lemma DecimalReads(inp: Csv.Input, row: Csv.Row, number: nat, dec: Dec, toFloat: ToFloat)
    requires P.Accepted(Csv.Defra, row, dec)
    ensures toFloat(TextOf(Csv.RawField(Csv.Defra, inp, row, number, dec, FactorValue))).Some? <==> FloatTakes(row, dec, toFloat)
  {
    hide Csv.Cell, Csv.Year, P.Accepted;
    P.AcceptedCells(Csv.Defra, row, dec);
    var d := Csv.FactorDecimal(Csv.Defra, Csv.Cell(Csv.Defra, row, FactorValue), dec).value;
    StripOf(d.text);
    hide Strip;
  }

  /** The record of an accepted row passes the gate, and the mapper exactly when float() takes its value. */
  lemma AcceptedFlows(inp: Csv.Input, row: Csv.Row, number: nat, dec: Dec, index: nat, skipped: nat, toFloat: ToFloat)
    requires P.Accepted(Csv.Defra, row, dec) && Csv.ValidInput(inp) && index >= 1
    ensures var r := Csv.RecordOf(Csv.Defra, inp, row, number, dec, index, skipped);
            P.GoodRecord(r) && IsExtraction(r) && (Mappable(r, toFloat) <==> FloatTakes(row, dec, toFloat))
  {
    hide Csv.RawFields, Csv.RawField, P.Accepted, FloatTakes, P.Has;
    var r := Csv.RecordOf(Csv.Defra, inp, row, number, dec, index, skipped);
    P.RawFieldAt(Csv.Defra, inp, row, number, dec);
    WrittenNames();
    assert SourceYear in r.fields;
    FamilyVisible();
    hide Strip;
    forall name | name in REQUIRED ensures !MissingRaw(r, name) { RequiredValue(inp, row, number, dec, name); }
    DecimalReads(inp, row, number, dec, toFloat);
    ValueRequired();
    hide REQUIRED;
  }

  lemma ValueRequired()
    ensures FactorValue in REQUIRED
  {
    assert REQUIRED[5] == FactorValue;
  }

  lemma FamilyVisible()
    ensures Csv.FamilyText(Csv.Defra) == "defra_desnz" && Strip("defra_desnz") != []
  {
    StripOf("defra_desnz");
    hide Strip;
  }

  lemma {:induction false} FieldAt(fields: seq<(Key, Cell)>, i: nat)
    requires i < |fields| && forall j :: i < j < |fields| ==> fields[j].0 != fields[i].0
    ensures FieldOf(fields, fields[i].0) == fields[i].1
    decreases |fields|
  {
    if i < |fields| - 1 { FieldAt(fields[..|fields| - 1], i); }
  }

  predicate IsSourceKey(key: Key) { key.KFamily? || key.KId? || key.KIndex? || key.KRow? }

  lemma {:induction false} FieldBefore(a: seq<(Key, Cell)>, b: seq<(Key, Cell)>, key: Key)
    requires forall j :: 0 <= j < |b| ==> b[j].0 != key
    ensures FieldOf(a + b, key) == FieldOf(a, key)
    decreases |b|
  {
    if b == [] {
      assert a + b == a;
    } else {
      assert (a + b)[..|a + b| - 1] == a + b[..|b| - 1];
      FieldBefore(a, b[..|b| - 1], key);
    }
  }

  lemma FactorKeys(r: Csv.Record, toFloat: ToFloat)
    ensures |FactorFields(r, toFloat)| == 9
    ensures forall j :: 0 <= j < 9 ==> !IsSourceKey(FactorFields(r, toFloat)[j].0)
  {
    hide TextOf, Raw, OptionalCell;
  }

  lemma SourceKeys(r: Csv.Record)
    ensures var fields := SourceFields(r);
            && |fields| == 6
            && FieldOf(fields, KFamily) == TextCell(r.sourceFamily) && FieldOf(fields, KId) == TextCell(r.sourceId)
            && FieldOf(fields, KIndex) == IntCell(r.index) && FieldOf(fields, KRow) == IntCell(r.rowNumber)
  {
    hide TextOf, Raw, FieldOf;
    var fields := SourceFields(r);
    FieldAt(fields, 0);
    FieldAt(fields, 1);
    FieldAt(fields, 4);
    FieldAt(fields, 5);
  }

  lemma NormalizedFields(r: Csv.Record, toFloat: ToFloat)
    requires IsExtraction(r)
    ensures var n := NormalizedOf(r, toFloat);
            && |n.fields| == 15
            && FieldOf(n.fields, KFamily) == TextCell(r.sourceFamily) && FieldOf(n.fields, KId) == TextCell(r.sourceId)
            && FieldOf(n.fields, KIndex) == IntCell(r.index) && FieldOf(n.fields, KRow) == IntCell(r.rowNumber)
            && exists tail :: n.recordId == r.sourceFamily + (":" + tail)
  {
    hide FieldOf, SourceFields, FactorFields, IsExtraction, TextOf, Id;
    RecordIdStart(r, toFloat);
    SourceKeys(r);
    FactorKeys(r, toFloat);
    assert IsSourceKey(KFamily) && IsSourceKey(KId) && IsSourceKey(KIndex) && IsSourceKey(KRow);
    hide IsSourceKey;
    FieldBefore(SourceFields(r), FactorFields(r, toFloat), KFamily);
    FieldBefore(SourceFields(r), FactorFields(r, toFloat), KId);
    FieldBefore(SourceFields(r), FactorFields(r, toFloat), KIndex);
    FieldBefore(SourceFields(r), FactorFields(r, toFloat), KRow);
  }

  lemma RecordIdStart(r: Csv.Record, toFloat: ToFloat)
    requires IsExtraction(r)
    ensures exists tail :: NormalizedOf(r, toFloat).recordId == r.sourceFamily + (":" + tail)
  {
    hide TextOf, Raw, OptionalCell, IsExtraction;
    var rest := TextOf(Raw(r, SourceYear)) + ":" + TextOf(Raw(r, SourceVersion)) + ":" + TextOf(Raw(r, FactorId));
    assert NormalizedOf(r, toFloat).recordId == Id(r) + rest;
    hide NormalizedOf;
    assert Id(r) + rest == r.sourceFamily + (":" + (r.sourceId + ":" + rest));
  }

  lemma VisibleStart(a: string, b: string)
    requires Strip(a) != []
    ensures Strip(a + b) != []
  {
    var l, r := StripParts(a);
    var core := Strip(a);
    assert a + b == l + (core + (r + b));
    LStripOfBlankPrefix(l, core + (r + b));
    var t := core + (r + b);
    assert t[0] == core[0];
    assert LStrip(t) == t;
    RStripKeeps(t, 0);
  }

  lemma NormalizedFlows(r: Csv.Record, toFloat: ToFloat)
    requires IsExtraction(r) && P.GoodRecord(r)
    ensures var n := NormalizedOf(r, toFloat);
            && Identified(n) && RequiredText(n, KFamily) == Some(r.sourceFamily) && RequiredText(n, KId) == Some(r.sourceId)
            && Insertable(PersistedOf(n))
            && PersistedOf(n).index == IntCell(r.index) && PersistedOf(n).row == IntCell(r.rowNumber)
  {
    hide IsExtraction, NormalizedOf, FieldOf, Strip;
    NormalizedFields(r, toFloat);
    var n := NormalizedOf(r, toFloat);
    var tail :| n.recordId == r.sourceFamily + (":" + tail);
    VisibleStart(r.sourceFamily, ":" + tail);
  }

  /** The column a normalized field comes from. */
  function ColumnOf(key: Key): Name {
    match key
    case KVersion => SourceVersion
    case KFactorId => FactorId
    case KFactorName => FactorName
    case KUnit => Unit
    case KCategory => Category
    case KSubcategory => Subcategory
    case KActivity => Activity
    case KGas => GreenhouseGas
    case _ => Provenance
  }

  predicate IsTextKey(key: Key) {
    key.KVersion? || key.KFactorId? || key.KFactorName? || key.KUnit? || key.KCategory? || key.KSubcategory? || key.KActivity?
    || key.KGas? || key.KProvenance?
  }

  predicate IsOptional(key: Key) { key.KSubcategory? || key.KActivity? || key.KGas? }

  function RawOfKey(r: Csv.Record, key: Key): Value { Raw(r, ColumnOf(key)) }

  lemma TextFieldOf(r: Csv.Record, toFloat: ToFloat, key: Key)
    requires IsExtraction(r) && IsTextKey(key)
    ensures FieldOf(NormalizedOf(r, toFloat).fields, key)
         == if IsOptional(key) then OptionalCell(RawOfKey(r, key)) else TextCell(TextOf(RawOfKey(r, key)))
  {
    hide FieldOf, TextOf, Raw, OptionalCell, IsExtraction, Id;
    var source, factor := SourceFields(r), FactorFields(r, toFloat);
    if key.KVersion? {
      FactorKeys(r, toFloat);
      FieldBefore(source, factor, key);
      FieldAt(source, 3);
    } else {
      FieldBehind(source, factor, key, if key.KFactorId? then 0 else if key.KFactorName? then 1 else if key.KUnit? then 3
        else if key.KCategory? then 4 else if key.KSubcategory? then 5 else if key.KActivity? then 6 else if key.KGas? then 7 else 8);
    }
  }

  lemma FieldBehind(a: seq<(Key, Cell)>, b: seq<(Key, Cell)>, key: Key, i: nat)
    requires i < |b| && b[i].0 == key && forall j :: i < j < |b| ==> b[j].0 != key
    ensures FieldOf(a + b, key) == b[i].1
  {
    hide FieldOf;
    assert (a + b)[|a| + i] == b[i];
    assert forall j :: |a| + i < j < |a + b| ==> (a + b)[j] == b[j - |a|];
    FieldAt(a + b, |a| + i);
  }

  /** What is inserted is what the file said: every text column of an accepted row arrives in the
      normalized fields stripped, a blank optional one as nothing. */
  lemma CellsArrive(inp: Csv.Input, row: Csv.Row, number: nat, dec: Dec, index: nat, skipped: nat, toFloat: ToFloat, key: Key)
    requires P.Accepted(Csv.Defra, row, dec) && Csv.ValidInput(inp) && index >= 1 && IsTextKey(key)
    ensures var n := NormalizedOf(Csv.RecordOf(Csv.Defra, inp, row, number, dec, index, skipped), toFloat);
            var cell := Csv.Cell(Csv.Defra, row, ColumnOf(key));
            FieldOf(n.fields, key) == if cell == [] && IsOptional(key) then Absent else TextCell(cell)
  {
    hide FieldOf, NormalizedOf, Csv.Cell, Csv.RawFields, P.Accepted, IsExtraction, Strip, P.GoodRecord, Mappable, FloatTakes;
    var r := Csv.RecordOf(Csv.Defra, inp, row, number, dec, index, skipped);
    AcceptedFlows(inp, row, number, dec, index, skipped, toFloat);
    TextFieldOf(r, toFloat, key);
    TextColumn(key);
    P.FieldsKeepCells(Csv.Defra, inp, row, number, dec, ColumnOf(key));
    P.CellStripped(Csv.Defra, row, ColumnOf(key));
    hide ColumnOf, IsOptional, IsTextKey;
  }

  lemma TextColumn(key: Key)
    requires IsTextKey(key)
    ensures P.IsTextColumn(ColumnOf(key)) && P.Has(Csv.Defra, ColumnOf(key))
  {
  }

  /** Every record of a successful DEFRA parse passes the gate, and the mapper exactly when float() takes the
      value in its row. */
  lemma PayloadFlows(inp: Csv.Input, rows: seq<Csv.Row>, dec: Dec, toFloat: ToFloat, records: seq<Csv.Record>)
    requires Csv.ValidInput(inp) && Csv.RecordsAre(Csv.Defra, inp, rows, dec, records)
    ensures forall r :: r in records ==>
              P.GoodRecord(r) && IsExtraction(r) && r.sourceFamily == "defra_desnz" && r.sourceId == inp.sourceId
    ensures forall k :: 0 <= k < |records| ==> records[k].index == k + 1
    ensures (forall r :: r in records ==> Mappable(r, toFloat))
            <==> forall row :: row in rows && P.Accepted(Csv.Defra, row, dec) ==> FloatTakes(row, dec, toFloat)
  {
    hide Csv.RecordOf, P.GoodRecord, Mappable, IsExtraction, Csv.AcceptedAt, P.Accepted, FloatTakes;
    P.MadeFromAccepted(Csv.Defra, inp, rows, dec, records);
    Csv.RecordsNumbered(Csv.Defra, inp, rows, dec, records);
    var at := Csv.AcceptedAt(Csv.Defra, rows, dec);
    forall k | 0 <= k < |records|
      ensures P.GoodRecord(records[k]) && IsExtraction(records[k])
      ensures records[k].sourceFamily == "defra_desnz" && records[k].sourceId == inp.sourceId
      ensures Mappable(records[k], toFloat) <==> FloatTakes(rows[at[k]], dec, toFloat)
    {
      AcceptedFlows(inp, rows[at[k]], at[k] + 2, dec, records[k].index, records[k].skipped, toFloat);
      RecordSource(inp, rows[at[k]], at[k] + 2, dec, records[k].index, records[k].skipped);
    }
    hide Csv.RecordsAre;
    AllMappable(rows, dec, toFloat, records, at);
  }

  lemma AllMappable(rows: seq<Csv.Row>, dec: Dec, toFloat: ToFloat, records: seq<Csv.Record>, at: seq<nat>)
    requires at == Csv.AcceptedAt(Csv.Defra, rows, dec) && |at| == |records|
    requires forall k :: 0 <= k < |at| ==>
               at[k] < |rows| && P.Accepted(Csv.Defra, rows[at[k]], dec)
               && (Mappable(records[k], toFloat) <==> FloatTakes(rows[at[k]], dec, toFloat))
    ensures (forall r :: r in records ==> Mappable(r, toFloat))
            <==> forall row :: row in rows && P.Accepted(Csv.Defra, row, dec) ==> FloatTakes(row, dec, toFloat)
  {
    hide Mappable, FloatTakes, Csv.AcceptedAt, Csv.KindOf;
    if forall r :: r in records ==> Mappable(r, toFloat) {
      forall row | row in rows && P.Accepted(Csv.Defra, row, dec) ensures FloatTakes(row, dec, toFloat) {
        var i :| 0 <= i < |rows| && rows[i] == row;
        Csv.AcceptedAtMeans(Csv.Defra, rows, dec, i);
        var k :| 0 <= k < |at| && at[k] == i;
        assert records[k] in records;
      }
    }
    if forall row :: row in rows && P.Accepted(Csv.Defra, row, dec) ==> FloatTakes(row, dec, toFloat) {
      forall r | r in records ensures Mappable(r, toFloat) {
        var k :| 0 <= k < |records| && records[k] == r;
        assert rows[at[k]] in rows;
      }
    }
  }

  lemma RecordSource(inp: Csv.Input, row: Csv.Row, number: nat, dec: Dec, index: nat, skipped: nat)
    ensures var r := Csv.RecordOf(Csv.Defra, inp, row, number, dec, index, skipped);
            r.sourceFamily == "defra_desnz" && r.sourceId == inp.sourceId
  {
  }

  // ---------------------------------------------------------------- records of the minimal fixture

  /** The value of a field is there and not blank. */
  predicate Given(fields: FieldMap, name: Name) {
    name in fields && match fields[name] case Nothing => false case Text(s) => Strip(s) != [] case _ => true
  }

  lemma PaddedMeans(n: nat)
    ensures AllDigits(Padded(n)) && NatOf(Padded(n)) == n && |Padded(n)| == if n < 1000 then 3 else |Digits(n)|
  {
    NatOfDigits(n);
    DigitsLength(n);
    var d := Digits(n);
    if |d| == 1 {
      LeadingZero(d);
      LeadingZero("0" + d);
      assert "0" + ("0" + d) == "00" + d;
    } else if |d| == 2 {
      LeadingZero(d);
    }
    hide Digits, NatOf;
  }

  lemma {:induction false} DigitsLength(n: nat)
    ensures |Digits(n)| == 1 <==> n < 10
    ensures |Digits(n)| == 2 <==> 10 <= n < 100
    ensures |Digits(n)| == 3 <==> 100 <= n < 1000
  {
    if n >= 10 { DigitsLength(n / 10); }
  }

  lemma {:induction false} LeadingZero(d: string)
    requires AllDigits(d)
    ensures AllDigits("0" + d) && NatOf("0" + d) == NatOf(d)
    decreases |d|
  {
    if d == [] {
      assert "0" + d == "0" && "0"[..0] == [];
    } else {
      var n := |d| - 1;
      assert ("0" + d)[..|"0" + d| - 1] == "0" + d[..n];
      LeadingZero(d[..n]);
    }
  }

  /** A record without the extraction's fields is mapped when it has an id, a name and a unit, and keeps their
      texts as they are, blanks included; it is named by its number, in three digits or more. */
  lemma MinimalMeans(r: Csv.Record, toFloat: ToFloat)
    requires forall name :: name in {SourceYear, SourceVersion, Category, FactorValue, Provenance} ==> name !in r.fields
    ensures Mappable(r, toFloat)
            <==> r.sourceFamily == "defra_desnz" && Given(r.fields, FactorId) && Given(r.fields, FactorName) && Given(r.fields, Unit)
    ensures var n := NormalizedOf(r, toFloat);
            && n.artificial && n.recordId == r.sourceFamily + ":" + r.sourceId + ":record-" + Padded(r.index)
            && |n.fields| == 7
            && n.fields[0] == (KFamily, TextCell(r.sourceFamily)) && n.fields[1] == (KId, TextCell(r.sourceId))
            && n.fields[2] == (KIndex, IntCell(r.index)) && n.fields[3] == (KRow, IntCell(r.rowNumber))
            && Holds(n.fields[4], KFactorId, r.fields, FactorId) && Holds(n.fields[5], KFactorName, r.fields, FactorName)
            && Holds(n.fields[6], KUnit, r.fields, Unit)
  {
    assert !IsExtraction(r);
    assert RequiredOf(r) == MINIMAL && forall name :: name in MINIMAL <==> name == FactorId || name == FactorName || name == Unit;
    forall name ensures MissingRaw(r, name) <==> !Given(r.fields, name) { hide Strip; }
    hide MissingRaw, Given, MINIMAL, RequiredOf;
    assert Id(r) + ("record-" + Padded(r.index)) == r.sourceFamily + ":" + r.sourceId + ":record-" + Padded(r.index) by { IdsJoined(r, Padded(r.index)); }
    hide IsExtraction, Strip, Padded, Id;
  }

  /** A record with any of the extraction's fields is mapped when it has all eight it needs and float() takes its
      value, and counts as real. */
  lemma ExtractionMeans(r: Csv.Record, toFloat: ToFloat)
    requires exists name :: name in {SourceYear, SourceVersion, Category, FactorValue, Provenance} && name in r.fields
    ensures Mappable(r, toFloat)
            <==> && r.sourceFamily == "defra_desnz" && Given(r.fields, SourceYear) && Given(r.fields, SourceVersion) && Given(r.fields, Category)
                 && Given(r.fields, FactorId) && Given(r.fields, FactorName) && Given(r.fields, FactorValue) && Given(r.fields, Unit)
                 && Given(r.fields, Provenance) && toFloat(TextOf(r.fields[FactorValue])).Some?
    ensures !NormalizedOf(r, toFloat).artificial
  {
    assert IsExtraction(r);
    assert RequiredOf(r) == REQUIRED && forall name :: name in REQUIRED <==>
      || name == SourceYear || name == SourceVersion || name == Category || name == FactorId || name == FactorName || name == FactorValue
      || name == Unit || name == Provenance;
    forall name ensures MissingRaw(r, name) <==> !Given(r.fields, name) { hide Strip; }
    assert Given(r.fields, FactorValue) ==> Raw(r, FactorValue) == r.fields[FactorValue];
    hide MissingRaw, Given, REQUIRED, RequiredOf, IsExtraction, TextOf;
  }

  lemma IdsJoined(r: Csv.Record, number: string)
    ensures Id(r) + ("record-" + number) == r.sourceFamily + ":" + r.sourceId + ":record-" + number
  {
    assert ":" + ("record-" + number) == ":record-" + number;
  }

  /** The entry is of this key and shows this field's text. */
  predicate Holds(entry: (Key, Cell), key: Key, fields: FieldMap, name: Name) {
    entry.0 == key && (name in fields && fields[name].Text? ==> entry.1 == TextCell(fields[name].text))
  }

  // ---------------------------------------------------------------- what is inserted, said on the cells

  function OptionalText(s: string): Cell { if s == [] then Absent else TextCell(s) }

  /** float() of the decimal in a row. */
  function FloatOf(row: Csv.Row, dec: Dec, toFloat: ToFloat): Option<real> {
    var d := dec(WithoutChar(C.At(row, 7), ','));
    if d.Some? then toFloat(d.value.text) else None
  }

  /** The year of a row, written out again. */
  function YearText(row: Csv.Row): string { if AllDigits(C.At(row, 0)) then IntText(NatOf(C.At(row, 0))) else [] }

  /** The normalized fields of the row that stands at this number in the file and is accepted as the index-th. */
  function RowFields(inp: Csv.Input, row: Csv.Row, number: nat, index: nat, value: real): seq<(Key, Cell)> {
    RowSource(inp, row, number, index) + RowFactor(row, value)
  }

  function RowSource(inp: Csv.Input, row: Csv.Row, number: nat, index: nat): seq<(Key, Cell)> {
    [(KFamily, TextCell("defra_desnz")), (KId, TextCell(inp.sourceId)), (KYear, TextCell(YearText(row))),
     (KVersion, TextCell(C.At(row, 1))), (KIndex, IntCell(index)), (KRow, IntCell(number))]
  }

  function RowFactor(row: Csv.Row, value: real): seq<(Key, Cell)> {
    [(KFactorId, TextCell(C.At(row, 5))), (KFactorName, TextCell(C.At(row, 6))), (KValue, FloatCell(value)),
     (KUnit, TextCell(C.At(row, 8))), (KCategory, TextCell(C.At(row, 2))), (KSubcategory, OptionalText(C.At(row, 3))),
     (KActivity, OptionalText(C.At(row, 4))), (KGas, OptionalText(C.At(row, 9))), (KProvenance, TextCell(C.At(row, 10)))]
  }

  function RowId(inp: Csv.Input, row: Csv.Row): string {
    "defra_desnz:" + inp.sourceId + ":" + YearText(row) + ":" + C.At(row, 1) + ":" + C.At(row, 5)
  }

  /** The values of one row of the insert statement. */
  ghost predicate Inserts(inp: Csv.Input, row: Csv.Row, number: nat, index: nat, dec: Dec, toFloat: ToFloat, parameters: seq<Parameter>) {
    && FloatOf(row, dec, toFloat).Some?
    && parameters == [TextParameter("defra_desnz"), TextParameter(inp.sourceId), TextParameter(RowId(inp, row)),
                      CellParameter(IntCell(index)), CellParameter(IntCell(number)),
                      FieldsParameter(RowFields(inp, row, number, index, FloatOf(row, dec, toFloat).value)),
                      TextParameter(inp.artifact), Null, Null, Null, Null, Null, Null]
  }

  lemma AtReads(row: Csv.Row, k: nat)
    ensures TextOf(Text(C.At(row, k))) == C.At(row, k) && OptionalCell(C.OrNone(C.At(row, k))) == OptionalText(C.At(row, k))
  {
    if k < |row| { StripIdempotent(row[k]); }
    hide Strip;
  }

  lemma RawHas(r: Csv.Record, name: Name, value: Value)
    requires C.Has(r, name, value)
    ensures Raw(r, name) == value
  {
  }

  lemma RowRaw(inp: Csv.Input, row: Csv.Row, number: nat, dec: Dec, index: nat, skipped: nat, r: Csv.Record)
    requires P.Accepted(Csv.Defra, row, dec) && r == Csv.RecordOf(Csv.Defra, inp, row, number, dec, index, skipped)
    ensures AllDigits(C.At(row, 0)) && NatOf(C.At(row, 0)) >= 1 && dec(WithoutChar(C.At(row, 7), ',')).Some?
    ensures Raw(r, SourceYear) == Int(NatOf(C.At(row, 0))) && Raw(r, FactorValue) == Dec(dec(WithoutChar(C.At(row, 7), ',')).value)
    ensures Raw(r, SourceVersion) == Text(C.At(row, 1)) && Raw(r, FactorId) == Text(C.At(row, 5))
    ensures Raw(r, FactorName) == Text(C.At(row, 6)) && Raw(r, Unit) == Text(C.At(row, 8)) && Raw(r, Category) == Text(C.At(row, 2))
    ensures Raw(r, Subcategory) == C.OrNone(C.At(row, 3)) && Raw(r, Activity) == C.OrNone(C.At(row, 4))
    ensures Raw(r, GreenhouseGas) == C.OrNone(C.At(row, 9)) && Raw(r, Provenance) == Text(C.At(row, 10))
    ensures r.sourceFamily == "defra_desnz" && r.sourceId == inp.sourceId && r.index == index && r.rowNumber == number
    ensures r.artifact == Some(inp.artifact)
  {
    assert Csv.KindOf(Csv.Defra, row, dec).Accepted?;
    C.DefraAccepts(row, dec);
    assert NatOf(C.At(row, 0)) >= 1;
    hide Csv.RecordOf, C.At, Csv.KindOf, C.PlainValue, C.PlainYear, C.Three, C.OrNone, NatOf, WithoutChar, C.Filled;
    C.DefraRecord(inp, row, number, dec, index, skipped);
  }

  lemma FloatOfRow(row: Csv.Row, dec: Dec, toFloat: ToFloat)
    requires P.Accepted(Csv.Defra, row, dec)
    ensures FloatOf(row, dec, toFloat).Some? <==> FloatTakes(row, dec, toFloat)
  {
    assert Csv.KindOf(Csv.Defra, row, dec).Accepted?;
    C.DefraAccepts(row, dec);
    C.DefraCells(row);
    C.PlainReads(Csv.Defra, C.At(row, 7), dec);
    hide Csv.Cell, C.At, Csv.KindOf, C.PlainValue, C.PlainYear, NatOf, WithoutChar, C.Filled, Csv.FactorDecimal;
  }

  /** What the mapper reads of an accepted row. */
  lemma RowTexts(inp: Csv.Input, row: Csv.Row, number: nat, dec: Dec, index: nat, skipped: nat, toFloat: ToFloat, r: Csv.Record)
    requires P.Accepted(Csv.Defra, row, dec) && r == Csv.RecordOf(Csv.Defra, inp, row, number, dec, index, skipped)
    ensures TextOf(Raw(r, SourceYear)) == YearText(row) && toFloat(TextOf(Raw(r, FactorValue))) == FloatOf(row, dec, toFloat)
    ensures TextOf(Raw(r, SourceVersion)) == C.At(row, 1) && TextOf(Raw(r, FactorId)) == C.At(row, 5)
    ensures TextOf(Raw(r, FactorName)) == C.At(row, 6) && TextOf(Raw(r, Unit)) == C.At(row, 8)
    ensures TextOf(Raw(r, Category)) == C.At(row, 2) && TextOf(Raw(r, Provenance)) == C.At(row, 10)
    ensures OptionalCell(Raw(r, Subcategory)) == OptionalText(C.At(row, 3)) && OptionalCell(Raw(r, Activity)) == OptionalText(C.At(row, 4))
    ensures OptionalCell(Raw(r, GreenhouseGas)) == OptionalText(C.At(row, 9))
  {
    RowRaw(inp, row, number, dec, index, skipped, r);
    P.PositiveReads(NatOf(C.At(row, 0)));
    var d := dec(WithoutChar(C.At(row, 7), ',')).value;
    StripOf(d.text);
    assert TextOf(Dec(d)) == d.text && TextOf(Int(NatOf(C.At(row, 0)))) == YearText(row);
    assert FloatOf(row, dec, toFloat) == toFloat(d.text);
    hide *;
    AtReads(row, 1);
    AtReads(row, 2);
    AtReads(row, 3);
    AtReads(row, 4);
    AtReads(row, 5);
    AtReads(row, 6);
    AtReads(row, 8);
    AtReads(row, 9);
    AtReads(row, 10);
  }

  /** The mapper's fields of an accepted row are those of its cells. */
  lemma FieldsOfRow(inp: Csv.Input, row: Csv.Row, number: nat, dec: Dec, index: nat, skipped: nat, toFloat: ToFloat, r: Csv.Record)
    requires P.Accepted(Csv.Defra, row, dec) && r == Csv.RecordOf(Csv.Defra, inp, row, number, dec, index, skipped)
    requires FloatOf(row, dec, toFloat).Some?
    ensures SourceFields(r) + FactorFields(r, toFloat) == RowFields(inp, row, number, index, FloatOf(row, dec, toFloat).value)
  {
    RowTexts(inp, row, number, dec, index, skipped, toFloat, r);
    RowRaw(inp, row, number, dec, index, skipped, r);
    hide *;
    SourceIs(inp, row, number, index, r);
    FactorIs(row, r, toFloat, FloatOf(row, dec, toFloat).value);
    BothParts(inp, row, number, index, FloatOf(row, dec, toFloat).value);
  }

  lemma BothParts(inp: Csv.Input, row: Csv.Row, number: nat, index: nat, value: real)
    ensures RowFields(inp, row, number, index, value) == RowSource(inp, row, number, index) + RowFactor(row, value)
  {
  }

  lemma SourceIs(inp: Csv.Input, row: Csv.Row, number: nat, index: nat, r: Csv.Record)
    requires r.sourceFamily == "defra_desnz" && r.sourceId == inp.sourceId && r.index == index && r.rowNumber == number
    requires TextOf(Raw(r, SourceYear)) == YearText(row) && TextOf(Raw(r, SourceVersion)) == C.At(row, 1)
    ensures SourceFields(r) == RowSource(inp, row, number, index)
  {
    hide TextOf, Raw, C.At, YearText;
  }

  lemma FactorIs(row: Csv.Row, r: Csv.Record, toFloat: ToFloat, value: real)
    requires toFloat(TextOf(Raw(r, FactorValue))) == Some(value)
    requires TextOf(Raw(r, FactorId)) == C.At(row, 5) && TextOf(Raw(r, FactorName)) == C.At(row, 6)
    requires TextOf(Raw(r, Unit)) == C.At(row, 8) && TextOf(Raw(r, Category)) == C.At(row, 2) && TextOf(Raw(r, Provenance)) == C.At(row, 10)
    requires OptionalCell(Raw(r, Subcategory)) == OptionalText(C.At(row, 3)) && OptionalCell(Raw(r, Activity)) == OptionalText(C.At(row, 4))
    requires OptionalCell(Raw(r, GreenhouseGas)) == OptionalText(C.At(row, 9))
    ensures FactorFields(r, toFloat) == RowFactor(row, value)
  {
    hide TextOf, Raw, C.At, OptionalCell, OptionalText;
  }

  lemma ColumnNames()
    ensures COLUMNS == [CSourceFamily, CSourceId, CRecordId, CRecordIndex, CRowNumber, CNormalizedFields, CSourceReference,
                        CSourceArtifactReference, CSourceChecksum, CParserMetadata, CNormalizationMetadata, CCreatedAt, CUpdatedAt]
  {
  }

  lemma RowIdOf(inp: Csv.Input, row: Csv.Row, r: Csv.Record)
    requires r.sourceFamily == "defra_desnz" && r.sourceId == inp.sourceId
    ensures Id(r) + (YearText(row) + ":" + C.At(row, 1) + ":" + C.At(row, 5)) == RowId(inp, row)
  {
    hide C.At, YearText;
  }

  lemma ParametersOf(p: Persisted)
    ensures ParameterRow(p) == [TextParameter(p.family), TextParameter(p.id), TextParameter(p.recordId), CellParameter(p.index),
                                CellParameter(p.row), FieldsParameter(p.fields),
                                if p.sourceReference.Some? then TextParameter(p.sourceReference.value) else Null,
                                Null, Null, Null, Null, Null, Null]
  {
    hide COLUMNS;
    ColumnNames();
  }

  /** The row inserted for an accepted row of the file. */
  lemma RowInserted(inp: Csv.Input, row: Csv.Row, number: nat, dec: Dec, index: nat, skipped: nat, toFloat: ToFloat)
    requires P.Accepted(Csv.Defra, row, dec) && Csv.ValidInput(inp) && index >= 1 && FloatTakes(row, dec, toFloat)
    ensures var r := Csv.RecordOf(Csv.Defra, inp, row, number, dec, index, skipped);
            Inserts(inp, row, number, index, dec, toFloat, ParameterRow(PersistedOf(NormalizedOf(r, toFloat))))
  {
    var r := Csv.RecordOf(Csv.Defra, inp, row, number, dec, index, skipped);
    AcceptedFlows(inp, row, number, dec, index, skipped, toFloat);
    NormalizedFlows(r, toFloat);
    FloatOfRow(row, dec, toFloat);
    RowTexts(inp, row, number, dec, index, skipped, toFloat, r);
    FieldsOfRow(inp, row, number, dec, index, skipped, toFloat, r);
    RowIdOf(inp, row, r);
    ArtifactVisible(inp);
    var n := NormalizedOf(r, toFloat);
    assert n.fields == RowFields(inp, row, number, index, FloatOf(row, dec, toFloat).value) && n.recordId == RowId(inp, row) by {
      hide SourceFields, FactorFields, RowFields, RowId, Id, Raw, TextOf, C.At, YearText, FloatOf, Csv.RecordOf, IsExtraction;
    }
    assert n.sourceReference == Some(inp.artifact) by {
      hide SourceFields, FactorFields, Id, Raw, TextOf, IsExtraction, Csv.RawFields;
    }
    ParametersOf(PersistedOf(n));
    assert PersistedOf(n).fields == n.fields && PersistedOf(n).recordId == n.recordId && PersistedOf(n).sourceReference == n.sourceReference;
    assert PersistedOf(n).family == "defra_desnz" && PersistedOf(n).id == inp.sourceId;
    hide *;
    assert Inserts(inp, row, number, index, dec, toFloat, ParameterRow(PersistedOf(n))) by { InsertsOf(inp, row, number, index, dec, toFloat, PersistedOf(n)); }
  }

  lemma ArtifactVisible(inp: Csv.Input)
    requires Csv.ValidInput(inp)
    ensures inp.artifact != []
  {
  }

  lemma InsertsOf(inp: Csv.Input, row: Csv.Row, number: nat, index: nat, dec: Dec, toFloat: ToFloat, p: Persisted)
    requires FloatOf(row, dec, toFloat).Some?
    requires p == Persisted("defra_desnz", inp.sourceId, RowId(inp, row), RowFields(inp, row, number, index, FloatOf(row, dec, toFloat).value),
                            IntCell(index), IntCell(number), Some(inp.artifact))
    ensures Inserts(inp, row, number, index, dec, toFloat, ParameterRow(p))
  {
    hide FloatOf, RowFields, RowId, ParameterRow;
    ParametersOf(p);
  }

  /** The parameters are those of the accepted rows, in order. */
  ghost predicate InsertsRows(inp: Csv.Input, rows: seq<Csv.Row>, dec: Dec, toFloat: ToFloat, parameters: seq<seq<Parameter>>) {
    var at := Csv.AcceptedAt(Csv.Defra, rows, dec);
    && |parameters| == |at|
    && forall k :: 0 <= k < |at| ==> at[k] < |rows| && Inserts(inp, rows[at[k]], at[k] + 2, k + 1, dec, toFloat, parameters[k])
  }

  /** From csv rows to an insert statement. When the parse succeeds, a statement is ready exactly when float()
      takes the value of every accepted row; then no stage rejects anything, and the statement inserts one row for
      each of them, in order, with what its cells say. */
  method DefraToInsert(inp: Csv.Input, rows: seq<Csv.Row>, dec: Dec, toFloat: ToFloat)
    returns (parsed: Csv.Result, ready: bool, parameters: seq<seq<Parameter>>)
    requires Csv.ValidInput(inp)
    ensures parsed == Csv.Parsed(Csv.Defra, inp, rows, dec)
    ensures parsed.status.Success? ==>
              (ready <==> forall row :: row in rows && P.Accepted(Csv.Defra, row, dec) ==> FloatTakes(row, dec, toFloat))
    ensures parsed.status.Success? && ReadsDecimals(dec, toFloat) ==> ready
    ensures !ready ==> parameters == []
    ensures parsed.status.Success? && ready ==> |parameters| == parsed.count > 0 && InsertsRows(inp, rows, dec, toFloat, parameters)
  {
    hide Csv.Parsed, Strip, NormalizedOf, PersistedOf, Mappable, P.GoodRecord, IsExtraction, Insertable, Identified, SameSource, ReadsDecimals,
      FloatTakes, P.Accepted, InsertsRows;
    parsed := Csv.ParseDefraNormalized(inp, rows, dec);
    ready, parameters := false, [];
    Csv.ParsedMeans(Csv.Defra, inp, rows, dec);
    hide Csv.RecordsAre, Csv.AnyRowInError, Csv.AcceptedAt;
    if parsed.payload.None? || !parsed.status.Success? { return; }
    var records := parsed.payload.value;
    PayloadFlows(inp, rows, dec, toFloat, records);
    ReadsAll(rows, dec, toFloat);
    FamilyVisible();
    var gate := Gate("defra_desnz", inp.sourceId, records);
    if gate != 0 { return; }
    var mapStatus, normalized, errors := MapAll(records, toFloat);
    if !mapStatus.Mapped? { return; }
    AllOneSource(records, normalized, toFloat, inp.sourceId);
    var inputStatus, persisted := BuildInput(normalized, errors);
    if !inputStatus.InputReady? { return; }
    AllInsertable(records, normalized, persisted, toFloat, inp.sourceId);
    ready, parameters := BuildInsert(persisted);
    if ready { AllInserted(inp, rows, dec, toFloat, records, parameters); }
  }

  lemma ReadsAll(rows: seq<Csv.Row>, dec: Dec, toFloat: ToFloat)
    ensures ReadsDecimals(dec, toFloat) ==>
              forall row :: row in rows && P.Accepted(Csv.Defra, row, dec) ==> FloatTakes(row, dec, toFloat)
  {
    hide ReadsDecimals, P.Accepted, FloatTakes;
    if ReadsDecimals(dec, toFloat) {
      forall row | row in rows && P.Accepted(Csv.Defra, row, dec) ensures FloatTakes(row, dec, toFloat) { ReadsMeans(row, dec, toFloat); }
    }
  }

  lemma AllOneSource(records: seq<Csv.Record>, normalized: seq<Normalized>, toFloat: ToFloat, id: string)
    requires |normalized| == |records| && forall k :: 0 <= k < |records| ==> normalized[k] == NormalizedOf(records[k], toFloat)
    requires forall r :: r in records ==> P.GoodRecord(r) && IsExtraction(r) && r.sourceFamily == "defra_desnz" && r.sourceId == id
    ensures OneSource(normalized)
  {
    hide NormalizedOf, P.GoodRecord, IsExtraction, RequiredText;
    forall k | 0 <= k < |records|
      ensures Identified(normalized[k]) && RequiredText(normalized[k], KFamily) == Some("defra_desnz") && RequiredText(normalized[k], KId) == Some(id)
    {
      assert records[k] in records;
      NormalizedFlows(records[k], toFloat);
    }
  }

  lemma AllInsertable(records: seq<Csv.Record>, normalized: seq<Normalized>, persisted: seq<Persisted>, toFloat: ToFloat, id: string)
    requires |normalized| == |records| == |persisted|
    requires forall k :: 0 <= k < |records| ==> normalized[k] == NormalizedOf(records[k], toFloat) && persisted[k] == PersistedOf(normalized[k])
    requires forall r :: r in records ==> P.GoodRecord(r) && IsExtraction(r) && r.sourceFamily == "defra_desnz" && r.sourceId == id
    ensures forall p :: p in persisted ==> Insertable(p)
  {
    hide NormalizedOf, P.GoodRecord, IsExtraction, Insertable, PersistedOf;
    forall k | 0 <= k < |records| ensures Insertable(persisted[k]) {
      assert records[k] in records;
      NormalizedFlows(records[k], toFloat);
    }
  }

  lemma AllInserted(inp: Csv.Input, rows: seq<Csv.Row>, dec: Dec, toFloat: ToFloat, records: seq<Csv.Record>, parameters: seq<seq<Parameter>>)
    requires Csv.ValidInput(inp) && Csv.RecordsAre(Csv.Defra, inp, rows, dec, records) && |records| == |parameters|
    requires forall k :: 0 <= k < |records| ==> parameters[k] == ParameterRow(PersistedOf(NormalizedOf(records[k], toFloat)))
    requires forall row :: row in rows && P.Accepted(Csv.Defra, row, dec) ==> FloatTakes(row, dec, toFloat)
    ensures InsertsRows(inp, rows, dec, toFloat, parameters)
  {
    P.MadeFromAccepted(Csv.Defra, inp, rows, dec, records);
    Csv.RecordsNumbered(Csv.Defra, inp, rows, dec, records);
    var at := Csv.AcceptedAt(Csv.Defra, rows, dec);
    P.Sizes(Csv.Defra, inp, rows, dec, records, at);
    hide *;
    forall k | 0 <= k < |at| ensures Inserts(inp, rows[at[k]], at[k] + 2, k + 1, dec, toFloat, parameters[k]) {
      KthInserted(inp, rows, dec, toFloat, records, at, k);
    }
    ManyInserted(inp, rows, dec, toFloat, parameters, at);
  }

  lemma ManyInserted(inp: Csv.Input, rows: seq<Csv.Row>, dec: Dec, toFloat: ToFloat, parameters: seq<seq<Parameter>>, at: seq<nat>)
    requires at == Csv.AcceptedAt(Csv.Defra, rows, dec) && |at| == |parameters|
    requires forall k :: 0 <= k < |at| ==> at[k] < |rows| && Inserts(inp, rows[at[k]], at[k] + 2, k + 1, dec, toFloat, parameters[k])
    ensures InsertsRows(inp, rows, dec, toFloat, parameters)
  {
    hide Inserts, Csv.AcceptedAt;
  }

  lemma KthInserted(inp: Csv.Input, rows: seq<Csv.Row>, dec: Dec, toFloat: ToFloat, records: seq<Csv.Record>, at: seq<nat>, k: nat)
    requires Csv.ValidInput(inp) && P.MadeFrom(Csv.Defra, inp, rows, dec, records, at) && k < |at| && records[k].index == k + 1
    requires forall row :: row in rows && P.Accepted(Csv.Defra, row, dec) ==> FloatTakes(row, dec, toFloat)
    ensures Inserts(inp, rows[at[k]], at[k] + 2, k + 1, dec, toFloat, ParameterRow(PersistedOf(NormalizedOf(records[k], toFloat))))
  {
    hide NormalizedOf, PersistedOf, ParameterRow, Csv.RecordOf, P.Accepted, FloatTakes, Inserts, Csv.ValidInput;
    assert rows[at[k]] in rows;
    RowInserted(inp, rows[at[k]], at[k] + 2, dec, k + 1, records[k].skipped, toFloat);
  }
}
