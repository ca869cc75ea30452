/** Parser and writer put together: whatever a normalized CSV parser accepts, the writer maps, and the
    only thing left to complain about is a repeated detail key. */
module ParsedPersistence {
  import opened Text
  import opened Footers
  import opened Fields
  import opened Firsts
  import opened TaskStatus
  import Csv = NormalizedCsv
  import W = FactorWriter

  type Dec = string -> Option<Decimal>

  function RowId(index: nat): string { "record-" + Digits(index) }

  /** _row_from_raw_record. */
  function RowOf(r: Csv.Record): W.Row {
    W.Row(r.sourceFamily, r.sourceId, RowId(r.index), r.fields,
          if r.artifact.Some? then NonBlank(r.artifact.value) else None,
          if r.checksum.Some? then NonBlank(r.checksum.value) else None, r.rowNumber, false)
  }

  function RowsOf(records: seq<Csv.Record>): (r: seq<W.Row>)
    ensures |r| == |records| && forall k :: 0 <= k < |r| ==> r[k] == RowOf(records[k])
  {
    seq(|records|, k requires 0 <= k < |records| => RowOf(records[k]))
  }

  function PersistedFamily(f: Csv.Family): W.SourceFamily {
    match f case Ghg => W.GHG case Ipcc => W.IPCC case Defra => W.DEFRA
  }

  lemma PlainText(text: string)
    requires text != [] && forall i :: 0 <= i < |text| ==> text[i] == '_' || 'a' <= text[i] <= 'z'
    ensures Lower(Strip(text)) == text
  {
    StripOf(text);
    hide Strip;
    assert Lower(text) == text;
  }

  lemma FamilyMaps(f: Csv.Family)
    ensures W.FamilyAlias(Csv.FamilyText(f)) == Some(PersistedFamily(f))
  {
    hide Strip, Lower, Stripped;
    match f
    case Ghg => PlainText("ghg_protocol");
    case Defra => PlainText("defra_desnz");
    case Ipcc =>
      PlainText("ipcc_efdb");
      assert |"ipcc_efdb"| == 9;
  }

  // ---------------------------------------------------------------- src/carbonfactor_parser/parsers/raw_record.py

  predicate GoodRecord(r: Csv.Record) { Strip(r.sourceFamily) != [] && Strip(r.sourceId) != [] && r.index >= 1 && r.fields != map[] }

  datatype ShapeIssue = PayloadFamily | PayloadId | RecordFamily(position: nat) | RecordId(position: nat)
                      | RecordIndex(position: nat) | RecordFields(position: nat)

  /** What is wrong with a payload; positions count from 1. */
  predicate IsShapeIssue(family: string, id: string, records: seq<Csv.Record>, issue: ShapeIssue) {
    match issue
    case PayloadFamily => Strip(family) == []
    case PayloadId => Strip(id) == []
    case RecordFamily(p) => 0 < p <= |records| && Strip(records[p - 1].sourceFamily) == []
    case RecordId(p) => 0 < p <= |records| && Strip(records[p - 1].sourceId) == []
    case RecordIndex(p) => 0 < p <= |records| && records[p - 1].index < 1
    case RecordFields(p) => 0 < p <= |records| && records[p - 1].fields == map[]
  }

  predicate InFront(issue: ShapeIssue, n: nat) {
    match issue
    case PayloadFamily => true
    case PayloadId => true
    case RecordFamily(p) => p <= n
    case RecordId(p) => p <= n
    case RecordIndex(p) => p <= n
    case RecordFields(p) => p <= n
  }

  /** validate_parsed_raw_record_payload, the gate in front of the writer. */
  method ValidatePayload(family: string, id: string, records: seq<Csv.Record>) returns (issues: seq<ShapeIssue>)
    ensures issues == [] <==> Strip(family) != [] && Strip(id) != [] && forall r :: r in records ==> GoodRecord(r)
    ensures forall issue :: issue in issues <==> IsShapeIssue(family, id, records, issue)
  {
    hide Strip;
    issues := [];
    if Strip(family) == [] { issues := issues + [PayloadFamily]; }
    if Strip(id) == [] { issues := issues + [PayloadId]; }
    ghost var own := issues == [];
    for i := 0 to |records|
      invariant issues == [] <==> own && forall j :: 0 <= j < i ==> GoodRecord(records[j])
      invariant forall issue :: issue in issues <==> IsShapeIssue(family, id, records, issue) && InFront(issue, i)
    {
      if Strip(records[i].sourceFamily) == [] { issues := issues + [RecordFamily(i + 1)]; }
      if Strip(records[i].sourceId) == [] { issues := issues + [RecordId(i + 1)]; }
      if records[i].index < 1 { issues := issues + [RecordIndex(i + 1)]; }
      if records[i].fields == map[] { issues := issues + [RecordFields(i + 1)]; }
    }
  }

  // ---------------------------------------------------------------- an accepted row, read by the writer

  function Version(f: Csv.Family, row: Csv.Row): string { Csv.Cell(f, row, SourceVersion) }

  /** The year the writer files a row under: a year found in the version wins over the source year. */
  function MasterYear(f: Csv.Family, row: Csv.Row): string {
    if W.YearIn(Version(f, row)).Some? then W.YearIn(Version(f, row)).value
    else IntText(Csv.Year(f, Csv.Cell(f, row, SourceYear)))
  }

  predicate Accepted(f: Csv.Family, row: Csv.Row, dec: Dec) { Csv.KindOf(f, row, dec).Accepted? }

  lemma CellStripped(f: Csv.Family, row: Csv.Row, name: Name)
    ensures NonBlank(Csv.Cell(f, row, name)) == if Csv.Cell(f, row, name) == [] then None else Some(Csv.Cell(f, row, name))
  {
    var k := Csv.Column(Csv.Header(f), name);
    if k < |Csv.Header(f)| && k < |row| { StripIdempotent(row[k]); }
    hide Strip;
  }

  lemma AcceptedCells(f: Csv.Family, row: Csv.Row, dec: Dec)
    requires Accepted(f, row, dec)
    ensures Csv.Cell(f, row, SourceVersion) != [] && Csv.Cell(f, row, FactorId) != [] && Csv.Cell(f, row, Unit) != []
    ensures Csv.Year(f, Csv.Cell(f, row, SourceYear)) >= 1
    ensures Csv.FactorDecimal(f, Csv.Cell(f, row, FactorValue), dec).Some?
  {
    hide Csv.Cell, Csv.Year, Csv.FactorDecimal, Csv.RowIssues, Csv.AllBlank;
    Csv.RowOk(f, row, 0, dec);
    var required := Csv.Required(f);
    assert SourceVersion in required && FactorId in required && Unit in required;
  }

  lemma LookupHead(fields: FieldMap, names: seq<Name>)
    requires names != [] && names[0] in fields
    ensures Lookup(fields, names) == fields[names[0]]
  {
  }

  lemma {:induction false} LookupAbsent(fields: FieldMap, names: seq<Name>)
    requires forall name :: name in names ==> name !in fields
    ensures Lookup(fields, names) == Nothing
  {
    if names != [] {
      assert names[0] in names;
      assert forall name :: name in names[1..] ==> name in names;
      LookupAbsent(fields, names[1..]);
    }
  }

  predicate Has(f: Csv.Family, name: Name) { name in Csv.COLUMNS && Csv.Writes(f, name) }

  lemma NamesWritten(f: Csv.Family)
    ensures Has(f, SourceVersion) && Has(f, SourceYear) && Has(f, FactorValue) && Has(f, DetailExternalKey)
            && Has(f, ProvenanceArtifactReference) && Has(f, ProvenanceChecksumValue) && Has(f, Unit)
    ensures forall late :: !Has(f, Late(late))
  {
  }

  lemma RawFieldAt(f: Csv.Family, inp: Csv.Input, row: Csv.Row, number: nat, dec: Dec)
    ensures forall name :: name in Csv.RawFields(f, inp, row, number, dec) <==> Has(f, name)
    ensures forall name :: Has(f, name) ==>
              Csv.RawFields(f, inp, row, number, dec)[name] == Csv.RawField(f, inp, row, number, dec, name)
  {
    hide Csv.RawField, Csv.Writes, Csv.COLUMNS;
  }

  lemma WrittenValues(f: Csv.Family, inp: Csv.Input, row: Csv.Row, number: nat, dec: Dec)
    ensures Csv.RawField(f, inp, row, number, dec, SourceVersion) == Text(Csv.Cell(f, row, SourceVersion))
    ensures Csv.RawField(f, inp, row, number, dec, SourceYear) == Int(Csv.Year(f, Csv.Cell(f, row, SourceYear)))
    ensures Csv.RawField(f, inp, row, number, dec, DetailExternalKey) == Text(Csv.DetailKey(f, row))
    ensures Csv.RawField(f, inp, row, number, dec, ProvenanceArtifactReference) == Text(inp.artifact)
    ensures Csv.RawField(f, inp, row, number, dec, ProvenanceChecksumValue) == Csv.OptionText(inp.checksum)
    ensures Csv.RawField(f, inp, row, number, dec, Unit) == Text(Csv.Cell(f, row, Unit))
  {
    hide Csv.Cell, Csv.Year, Csv.FactorDecimal, Csv.DetailKey, Csv.YearVersionId;
  }

  /** The names the writer looks for first in a parser's fields, which are always there. */
  lemma LookupWritten(f: Csv.Family, inp: Csv.Input, row: Csv.Row, number: nat, dec: Dec)
    ensures var fs := Csv.RawFields(f, inp, row, number, dec);
            && Lookup(fs, [SourceVersion]) == Text(Csv.Cell(f, row, SourceVersion))
            && Lookup(fs, [SourceYear]) == Int(Csv.Year(f, Csv.Cell(f, row, SourceYear)))
            && Lookup(fs, [FactorValue, Late(PlainValue)]) == Csv.RawField(f, inp, row, number, dec, FactorValue)
            && Lookup(fs, [DetailExternalKey]) == Text(Csv.DetailKey(f, row))
            && Lookup(fs, [ProvenanceArtifactReference, Late(ArtifactReference)]) == Text(inp.artifact)
            && Lookup(fs, [ProvenanceChecksumValue, Late(SourceChecksumSha256)]) == Csv.OptionText(inp.checksum)
  {
    hide Csv.Cell, Csv.Year, Csv.FactorDecimal, Csv.DetailKey, Csv.YearVersionId, Lookup;
    var fs := Csv.RawFields(f, inp, row, number, dec);
    NamesWritten(f);
    WrittenValues(f, inp, row, number, dec);
    RawFieldAt(f, inp, row, number, dec);
    hide Csv.RawField, Csv.RawFields, Has;
    LookupHead(fs, [SourceVersion]);
    LookupHead(fs, [SourceYear]);
    LookupHead(fs, [FactorValue, Late(PlainValue)]);
    LookupHead(fs, [DetailExternalKey]);
    LookupHead(fs, [ProvenanceArtifactReference, Late(ArtifactReference)]);
    LookupHead(fs, [ProvenanceChecksumValue, Late(SourceChecksumSha256)]);
  }

  lemma LookupPast(fields: FieldMap, names: seq<Name>, rest: seq<Name>)
    requires names != [] && names[0] !in fields && names[1..] == rest
    ensures Lookup(fields, names) == Lookup(fields, rest)
  {
  }

  /** The names looked for in vain. */
  lemma LookupUnwritten(f: Csv.Family, inp: Csv.Input, row: Csv.Row, number: nat, dec: Dec)
    ensures var fs := Csv.RawFields(f, inp, row, number, dec);
            && Lookup(fs, [Late(FactorUnit), Unit]) == Text(Csv.Cell(f, row, Unit))
            && Lookup(fs, [Late(SourceChecksumSha256), Late(ChecksumSha256), ProvenanceChecksumValue]) == Csv.OptionText(inp.checksum)
            && Lookup(fs, [Late(SourceArtifactYear), Late(ArtifactYear), Late(ReportingYear)]) == Nothing
            && Lookup(fs, [Late(SourceDocumentId)]) == Nothing
  {
    hide Csv.Cell, Csv.Year, Csv.FactorDecimal, Csv.DetailKey, Csv.YearVersionId, Lookup;
    var fs := Csv.RawFields(f, inp, row, number, dec);
    NamesWritten(f);
    WrittenValues(f, inp, row, number, dec);
    RawFieldAt(f, inp, row, number, dec);
    hide Csv.RawField, Csv.RawFields, Has;
    LookupPast(fs, [Late(FactorUnit), Unit], [Unit]);
    LookupHead(fs, [Unit]);
    LookupPast(fs, [Late(SourceChecksumSha256), Late(ChecksumSha256), ProvenanceChecksumValue], [Late(ChecksumSha256), ProvenanceChecksumValue]);
    LookupPast(fs, [Late(ChecksumSha256), ProvenanceChecksumValue], [ProvenanceChecksumValue]);
    LookupHead(fs, [ProvenanceChecksumValue]);
    LookupAbsent(fs, [Late(SourceArtifactYear), Late(ArtifactYear), Late(ReportingYear)]);
    LookupAbsent(fs, [Late(SourceDocumentId)]);
  }

  lemma {:induction false} NoOptionals(fields: FieldMap, names: seq<LateName>)
    requires forall late :: Late(late) !in fields
    ensures W.Optionals(fields, names) == seq(|names|, i => None)
  {
    if names != [] {
      LookupAbsent(fields, [Late(names[0])]);
      NoOptionals(fields, names[1..]);
    }
  }

  lemma EdgesStripped(head: string, middle: string, tail: string)
    requires head != [] && Stripped(head) && tail != [] && !IsSpace(tail[|tail| - 1])
    ensures NonBlank(head + (middle + tail)) == Some(head + (middle + tail))
  {
    var key := head + (middle + tail);
    assert key[0] == head[0] && key[|key| - 1] == tail[|tail| - 1];
    hide IsSpace;
    StripOf(key);
  }

  lemma LastOf(front: string, s: string)
    requires Stripped(s)
    ensures var t := front + (":" + s); t != [] && !IsSpace(t[|t| - 1])
  {
    var t := front + (":" + s);
    assert t[|t| - 1] == (":" + s)[|s|];
  }

  lemma TailEnds(f: Csv.Family, row: Csv.Row)
    requires Csv.Cell(f, row, Unit) != [] && Stripped(Csv.Cell(f, row, Unit))
    requires Stripped(Csv.Cell(f, row, GreenhouseGas)) && Stripped(Csv.Cell(f, row, IpccSector))
    ensures var tail := Csv.DetailTail(f, row); tail != [] && !IsSpace(tail[|tail| - 1])
  {
    hide Csv.Cell, IsSpace;
    var unit := Csv.Cell(f, row, Unit);
    match f
    case Ghg =>
    case Ipcc => LastOf(unit + ":" + Csv.Cell(f, row, Gas), Csv.Cell(f, row, IpccSector));
    case Defra => LastOf(unit, Csv.Cell(f, row, GreenhouseGas));
  }

  lemma DetailKeyStripped(f: Csv.Family, row: Csv.Row, dec: Dec)
    requires Accepted(f, row, dec)
    ensures NonBlank(Csv.DetailKey(f, row)) == Some(Csv.DetailKey(f, row))
  {
    hide Csv.Cell, NonBlank, Accepted, Stripped, Csv.DetailTail;
    AcceptedCells(f, row, dec);
    CellEnds(f, row, FactorId);
    CellEnds(f, row, Unit);
    CellEnds(f, row, GreenhouseGas);
    CellEnds(f, row, IpccSector);
    TailEnds(f, row);
    EdgesStripped(Csv.Cell(f, row, FactorId), ":", Csv.DetailTail(f, row));
  }

  lemma CellEnds(f: Csv.Family, row: Csv.Row, name: Name)
    ensures Stripped(Csv.Cell(f, row, name))
  {
    var k := Csv.Column(Csv.Header(f), name);
    if k < |Csv.Header(f)| && k < |row| { var l, r := StripParts(row[k]); }
  }

  lemma YearReads(f: Csv.Family, row: Csv.Row, dec: Dec)
    requires Accepted(f, row, dec)
    ensures TextOrNone(Int(Csv.Year(f, Csv.Cell(f, row, SourceYear)))) == Some(IntText(Csv.Year(f, Csv.Cell(f, row, SourceYear))))
    ensures IntOf(MasterYear(f, row)).Some? && ':' !in MasterYear(f, row)
  {
    hide Csv.Cell, Csv.Year, Accepted, IntOf, TextOrNone, W.YearIn, Digits, NatOf;
    AcceptedCells(f, row, dec);
    PositiveReads(Csv.Year(f, Csv.Cell(f, row, SourceYear)));
    var found := W.YearIn(Version(f, row));
    if found.Some? {
      IntOfDecimal(found.value);
      DigitsHaveNoColon(found.value);
    }
  }

  lemma PositiveReads(y: int)
    requires y >= 1
    ensures TextOrNone(Int(y)) == Some(IntText(y)) && IntOf(IntText(y)).Some? && ':' !in IntText(y)
  {
    hide Digits, IntOf, Strip;
    DigitsStripped(y);
    IntOfText(y);
    DigitsHaveNoColon(Digits(y));
  }

  lemma DigitsHaveNoColon(s: string)
    requires AllDigits(s)
    ensures ':' !in s
  {
  }

  // ---------------------------------------------------------------- the writer's keys

  function ArtifactPart(inp: Csv.Input): string { Or(NonBlank(inp.artifact), "artifact-unavailable") }

  function ChecksumPart(inp: Csv.Input): string {
    Or(if inp.checksum.Some? then NonBlank(inp.checksum.value) else None, "checksum-unavailable")
  }

  function MasterKeyText(f: Csv.Family, inp: Csv.Input, row: Csv.Row): string {
    W.JoinKey(MasterYear(f, row), Version(f, row), ArtifactPart(inp), ChecksumPart(inp))
  }

  lemma RowReads(f: Csv.Family, inp: Csv.Input, row: Csv.Row, number: nat, dec: Dec, index: nat, skipped: nat)
    requires Accepted(f, row, dec) && Csv.ValidInput(inp)
    ensures var r := RowOf(Csv.RecordOf(f, inp, row, number, dec, index, skipped));
            && W.YearText(r) == MasterYear(f, row)
            && W.ReadText(r.fields, [SourceVersion]) == Some(Version(f, row))
            && W.ReadText(r.fields, [FactorValue, Late(PlainValue)]).Some?
            && W.ReadText(r.fields, [Late(FactorUnit), Unit]).Some?
            && W.DetailKeyOf(r) == Csv.DetailKey(f, row)
  {
    hide Csv.RawFields, Csv.Cell, Csv.Year, Csv.FactorDecimal, Csv.DetailKey, Lookup, Accepted, W.YearIn, Strip, NonBlank, IntText;
    LookupWritten(f, inp, row, number, dec);
    LookupUnwritten(f, inp, row, number, dec);
    AcceptedCells(f, row, dec);
    CellStripped(f, row, SourceVersion);
    CellStripped(f, row, Unit);
    YearReads(f, row, dec);
    DetailKeyStripped(f, row, dec);
    var d := Csv.FactorDecimal(f, Csv.Cell(f, row, FactorValue), dec).value;
    StripOf(d.text);
  }

  lemma RowPlaces(f: Csv.Family, inp: Csv.Input, row: Csv.Row, number: nat, dec: Dec, index: nat, skipped: nat)
    requires Csv.ValidInput(inp)
    ensures var r := RowOf(Csv.RecordOf(f, inp, row, number, dec, index, skipped));
            && W.ArtifactOf(r) == ArtifactPart(inp) && W.ChecksumOf(r) == ChecksumPart(inp)
            && r.artifact == NonBlank(inp.artifact)
            && OrElse(r.checksum, W.ReadText(r.fields, [ProvenanceChecksumValue, Late(SourceChecksumSha256)]))
               == (if inp.checksum.Some? then NonBlank(inp.checksum.value) else None)
            && W.ReadText(r.fields, [Late(SourceDocumentId)]) == None
            && W.ReadText(r.fields, [ProvenanceArtifactReference, Late(ArtifactReference)]) == NonBlank(inp.artifact)
            && W.ReadText(r.fields, [ProvenanceChecksumValue, Late(SourceChecksumSha256)])
               == (if inp.checksum.Some? then NonBlank(inp.checksum.value) else None)
  {
    hide Csv.RawFields, Lookup, Strip;
    LookupWritten(f, inp, row, number, dec);
    LookupUnwritten(f, inp, row, number, dec);
  }

  /** The document every row of one payload is filed under. */
  function PayloadDocument(f: Csv.Family, inp: Csv.Input, ctx: W.Context): string {
    var explicit := if ctx.documentId.Some? then NonBlank(ctx.documentId.value) else None;
    if explicit.Some? then explicit.value
    else
      "source_document_" + W.Short(ctx.digest([Text(Csv.FamilyText(f)), Text(inp.sourceId), W.OptionValue(NonBlank(inp.artifact)),
        W.OptionValue(if inp.checksum.Some? then NonBlank(inp.checksum.value) else None)]), 24)
  }

  lemma DocumentReads(f: Csv.Family, inp: Csv.Input, row: Csv.Row, number: nat, dec: Dec, index: nat, skipped: nat, ctx: W.Context)
    requires Csv.ValidInput(inp)
    ensures var r := RowOf(Csv.RecordOf(f, inp, row, number, dec, index, skipped));
            W.DocumentId(r, ctx) == Some(PayloadDocument(f, inp, ctx)) && NonBlank(PayloadDocument(f, inp, ctx)).Some?
  {
    hide Csv.RawFields, Lookup, W.ReadText, Strip, W.Short;
    RowPlaces(f, inp, row, number, dec, index, skipped);
    DocumentNonBlank(f, inp, ctx);
  }

  lemma DocumentNonBlank(f: Csv.Family, inp: Csv.Input, ctx: W.Context)
    ensures NonBlank(PayloadDocument(f, inp, ctx)).Some?
  {
    var document := PayloadDocument(f, inp, ctx);
    if ctx.documentId.Some? && NonBlank(ctx.documentId.value).Some? {
      StripIdempotent(ctx.documentId.value);
    } else {
      assert document[0] == 's';
      LStripCut(document);
      assert LStrip(document) == document;
      RStripKeeps(document, 0);
    }
  }

  // ---------------------------------------------------------------- mapping one accepted row

  function ChecksumText(inp: Csv.Input): Option<string> {
    if inp.checksum.Some? then NonBlank(inp.checksum.value) else None
  }

  /** The master of a year and a version: nothing else of a row reaches it. */
  function MasterFor(f: Csv.Family, inp: Csv.Input, year: string, version: string, ctx: W.Context): W.Master {
    var family := PersistedFamily(f);
    var key := W.JoinKey(year, version, ArtifactPart(inp), ChecksumPart(inp));
    var document := PayloadDocument(f, inp, ctx);
    W.Master(family, W.MasterId(family, key, ctx.digest), Or(IntOf(year), 0), version, document, key, ctx.status,
             NonBlank(inp.artifact), ChecksumText(inp),
             ctx.digest([Text("master"), Text(W.FamilyValue(family)), Text(document), Text(key), Text(ctx.status)]),
             seq(|W.OPTIONAL|, i => None))
  }

  lemma MasterMaps(f: Csv.Family, inp: Csv.Input, row: Csv.Row, number: nat, dec: Dec, index: nat, skipped: nat, ctx: W.Context)
    requires Accepted(f, row, dec) && Csv.ValidInput(inp)
    ensures IntOf(MasterYear(f, row)).Some?
    ensures var r := RowOf(Csv.RecordOf(f, inp, row, number, dec, index, skipped));
            && W.MasterKeyOf(r) == MasterKeyText(f, inp, row)
            && W.MasterOf(r, ctx, PersistedFamily(f), PayloadDocument(f, inp, ctx), IntOf(MasterYear(f, row)).value)
               == MasterFor(f, inp, MasterYear(f, row), Version(f, row), ctx)
  {
    hide Csv.RawFields, W.ReadText, W.YearText, W.ArtifactOf, W.ChecksumOf, MasterYear, Version, PayloadDocument, W.JoinKey,
      W.MasterId, W.Optionals, IntOf, NonBlank, W.DetailKeyOf, Accepted, Csv.ValidInput, ArtifactPart, ChecksumPart;
    var r := RowOf(Csv.RecordOf(f, inp, row, number, dec, index, skipped));
    RowReads(f, inp, row, number, dec, index, skipped);
    RowPlaces(f, inp, row, number, dec, index, skipped);
    YearReads(f, row, dec);
    assert W.Optionals(r.fields, W.OPTIONAL) == seq(|W.OPTIONAL|, i => None) by {
      NoLateFields(f, inp, row, number, dec);
      NoOptionals(r.fields, W.OPTIONAL);
    }
  }

  lemma NoLateFields(f: Csv.Family, inp: Csv.Input, row: Csv.Row, number: nat, dec: Dec)
    ensures forall late :: Late(late) !in Csv.RawFields(f, inp, row, number, dec)
  {
    NamesWritten(f);
    RawFieldAt(f, inp, row, number, dec);
    hide Csv.RawFields, Has;
  }

  lemma AcceptedMaps(f: Csv.Family, inp: Csv.Input, row: Csv.Row, number: nat, dec: Dec, index: nat, skipped: nat, position: nat, ctx: W.Context)
    requires Accepted(f, row, dec) && Csv.ValidInput(inp)
    ensures IntOf(MasterYear(f, row)).Some?
    ensures var r := RowOf(Csv.RecordOf(f, inp, row, number, dec, index, skipped));
            W.MapRow(r, position, ctx)
            == W.Mapped(Some((MasterFor(f, inp, MasterYear(f, row), Version(f, row), ctx), W.DetailOf(r, ctx, PersistedFamily(f)))), [])
  {
    hide Csv.RawFields, W.ReadText, W.YearText, MasterYear, Version, PayloadDocument, W.MasterOf, W.DetailOf, MasterFor,
      W.DocumentId, IntOf, NonBlank, W.DetailKeyOf, W.MasterKeyOf, Accepted, Csv.ValidInput, W.FamilyAlias, PersistedFamily,
      W.MapRow;
    var r := RowOf(Csv.RecordOf(f, inp, row, number, dec, index, skipped));
    RowReads(f, inp, row, number, dec, index, skipped);
    MasterMaps(f, inp, row, number, dec, index, skipped, ctx);
    DocumentReads(f, inp, row, number, dec, index, skipped, ctx);
    FamilyMaps(f);
    assert r.sourceFamily == Csv.FamilyText(f);
    hide RowOf, Csv.RecordOf;
    W.MapRowComplete(r, position, ctx, PersistedFamily(f), PayloadDocument(f, inp, ctx), IntOf(MasterYear(f, row)).value);
  }

  lemma DetailKeyed(f: Csv.Family, inp: Csv.Input, row: Csv.Row, number: nat, dec: Dec, index: nat, skipped: nat, ctx: W.Context)
    requires Accepted(f, row, dec) && Csv.ValidInput(inp)
    ensures var d := W.DetailOf(RowOf(Csv.RecordOf(f, inp, row, number, dec, index, skipped)), ctx, PersistedFamily(f));
            && W.KeyOfDetail(d)
               == (PersistedFamily(f), W.MasterId(PersistedFamily(f), MasterKeyText(f, inp, row), ctx.digest), Csv.DetailKey(f, row))
            && d.rowNumber == number
  {
    hide Csv.RawFields, W.ReadText, W.YearText, MasterYear, Version, PayloadDocument, W.MasterOf, MasterKeyText,
      IntOf, NonBlank, W.DetailKeyOf, W.MasterKeyOf, Accepted, Csv.ValidInput, PersistedFamily, Csv.DetailKey, W.MasterId;
    RowReads(f, inp, row, number, dec, index, skipped);
    MasterMaps(f, inp, row, number, dec, index, skipped, ctx);
  }

  // ---------------------------------------------------------------- delimited keys do not clash

  lemma UpToColon(a: string, x: string, b: string, y: string)
    requires ':' !in a && ':' !in b && a + (":" + x) == b + (":" + y)
    ensures a == b && x == y
  {
    var s := a + (":" + x);
    assert s == a + [':'] + x && s == b + [':'] + y;
    FirstAfter(a, ':', x);
    FirstAfter(b, ':', y);
    assert s[..|a|] == a && s[..|b|] == b;
    assert s[|a| + 1..] == x && s[|b| + 1..] == y;
  }

  /** Within one payload the key year:version:artifact:checksum determines the year and the version,
      whatever the version looks like: a year holds no colon and the end of the key is fixed. */
  lemma MasterKeyInjective(inp: Csv.Input, y1: string, v1: string, y2: string, v2: string)
    requires ':' !in y1 && ':' !in y2
    requires W.JoinKey(y1, v1, ArtifactPart(inp), ChecksumPart(inp)) == W.JoinKey(y2, v2, ArtifactPart(inp), ChecksumPart(inp))
    ensures y1 == y2 && v1 == v2
  {
    hide ArtifactPart, ChecksumPart;
    var end := ":" + ArtifactPart(inp) + ":" + ChecksumPart(inp);
    assert W.JoinKey(y1, v1, ArtifactPart(inp), ChecksumPart(inp)) == y1 + (":" + (v1 + end));
    assert W.JoinKey(y2, v2, ArtifactPart(inp), ChecksumPart(inp)) == y2 + (":" + (v2 + end));
    UpToColon(y1, v1 + end, y2, v2 + end);
    var s := v1 + end;
    assert |v1| == |v2|;
    assert s[..|v1|] == v1 && s[..|v2|] == v2;
  }

  // ---------------------------------------------------------------- rows without surprises

  /** Every row maps; rows with one master key have one master; no two details are equal. */
  ghost predicate Clean(rows: seq<W.Row>, pairs: seq<(W.Master, W.Detail)>, ctx: W.Context) {
    && |pairs| == |rows|
    && (forall k :: 0 <= k < |rows| ==> W.MapRow(rows[k], k + 1, ctx) == W.Mapped(Some(pairs[k]), []))
    && (forall j, k :: 0 <= j < k < |rows| && W.KeyOfMaster(pairs[j].0) == W.KeyOfMaster(pairs[k].0) ==> pairs[j].0 == pairs[k].0)
    && (forall j, k :: 0 <= j < k < |rows| ==> pairs[j].1 != pairs[k].1)
  }

  predicate Repeats(pairs: seq<(W.Master, W.Detail)>, k: nat)
    requires k < |pairs|
  {
    exists j :: 0 <= j < k && W.KeyOfDetail(pairs[j].1) == W.KeyOfDetail(pairs[k].1)
  }

  function RepeatIssues(pairs: seq<(W.Master, W.Detail)>, n: nat): seq<W.Issue>
    requires n <= |pairs|
  {
    if n == 0 then [] else RepeatIssues(pairs, n - 1) + if Repeats(pairs, n - 1) then [W.DetailConflict(n)] else []
  }

  /** Such rows give no issue but one conflict for each repeated detail key, and nothing is skipped. */
  lemma {:induction false} CleanLoop(rows: seq<W.Row>, pairs: seq<(W.Master, W.Detail)>, ctx: W.Context, n: nat)
    requires Clean(rows, pairs, ctx) && n <= |rows|
    ensures var l := W.WriteAll(rows[..n], ctx);
            && l.masters == Kept(W.MasterEntries(pairs[..n])) && l.details == Kept(W.DetailEntries(pairs[..n]))
            && l.skipped == 0 && l.issues == RepeatIssues(pairs, n)
  {
    hide W.MapRow, Kept, Clean, W.MasterEntries, W.DetailEntries, W.TakeMapped, Repeats;
    SizesOfClean(rows, pairs, ctx);
    if n > 0 {
      CleanLoop(rows, pairs, ctx, n - 1);
      WriteMore(rows, n - 1, ctx);
      CleanStep(rows, pairs, ctx, n - 1, W.WriteAll(rows[..n - 1], ctx));
      hide W.WriteAll;
    } else {
      NothingKept();
      assert rows[..0] == [] && pairs[..0] == [];
    }
  }

  lemma WriteMore(rows: seq<W.Row>, n: nat, ctx: W.Context)
    requires n < |rows|
    ensures W.WriteAll(rows[..n + 1], ctx) == W.TakeMapped(W.WriteAll(rows[..n], ctx), W.MapRow(rows[n], n + 1, ctx), n + 1)
  {
    hide W.MapRow, W.TakeMapped;
    assert rows[..n + 1][..n] == rows[..n];
  }

  lemma NothingKept()
    ensures Kept(W.MasterEntries([])) == [] && Kept(W.DetailEntries([])) == []
  {
  }

  lemma CleanStep(rows: seq<W.Row>, pairs: seq<(W.Master, W.Detail)>, ctx: W.Context, n: nat, l: W.Loop)
    requires Clean(rows, pairs, ctx) && n < |rows|
    requires l.masters == Kept(W.MasterEntries(pairs[..n])) && l.details == Kept(W.DetailEntries(pairs[..n]))
    requires l.skipped == 0 && l.issues == RepeatIssues(pairs, n)
    ensures var m := W.TakeMapped(l, W.MapRow(rows[n], n + 1, ctx), n + 1);
            && m.masters == Kept(W.MasterEntries(pairs[..n + 1])) && m.details == Kept(W.DetailEntries(pairs[..n + 1]))
            && m.skipped == 0 && m.issues == RepeatIssues(pairs, n + 1)
  {
    hide W.MapRow, Kept, Get, W.MasterEntries, W.DetailEntries, Put;
    var (master, detail) := pairs[n];
    assert pairs[..n + 1] == pairs[..n] + [pairs[n]];
    W.EntriesMore(pairs[..n], pairs[n]);
    KeptMore(W.MasterEntries(pairs[..n]), (W.KeyOfMaster(master), master));
    KeptMore(W.DetailEntries(pairs[..n]), (W.KeyOfDetail(detail), detail));
    MasterAgrees(rows, pairs, ctx, n);
    DetailDiffers(rows, pairs, ctx, n);
    assert W.MapRow(rows[n], n + 1, ctx).issues == [];
    hide Clean;
    assert l.issues + [] + [] == l.issues;
  }

  lemma MasterAgrees(rows: seq<W.Row>, pairs: seq<(W.Master, W.Detail)>, ctx: W.Context, n: nat)
    requires Clean(rows, pairs, ctx) && n < |rows|
    ensures var existing := Get(Kept(W.MasterEntries(pairs[..n])), W.KeyOfMaster(pairs[n].0));
            existing.Some? ==> existing.value == pairs[n].0
  {
    hide W.MapRow, Kept;
    var entries := W.MasterEntries(pairs[..n]);
    KeptGet(entries, W.KeyOfMaster(pairs[n].0));
    if Get(entries, W.KeyOfMaster(pairs[n].0)).Some? {
      var j := GetFirst(entries, W.KeyOfMaster(pairs[n].0));
      assert entries[j].1 == pairs[j].0;
    }
  }

  lemma DetailDiffers(rows: seq<W.Row>, pairs: seq<(W.Master, W.Detail)>, ctx: W.Context, n: nat)
    requires Clean(rows, pairs, ctx) && n < |rows|
    ensures var existing := Get(Kept(W.DetailEntries(pairs[..n])), W.KeyOfDetail(pairs[n].1));
            (existing.Some? <==> Repeats(pairs, n)) && existing != Some(pairs[n].1)
  {
    hide W.MapRow, Kept;
    var entries := W.DetailEntries(pairs[..n]);
    var key := W.KeyOfDetail(pairs[n].1);
    KeptGet(entries, key);
    if Get(entries, key).Some? {
      var j := GetFirst(entries, key);
      assert entries[j].1 == pairs[j].1 && W.KeyOfDetail(pairs[j].1) == key;
    } else {
      GetNone(entries, key);
      forall j | 0 <= j < n ensures W.KeyOfDetail(pairs[j].1) != key { assert entries[j].0 == W.KeyOfDetail(pairs[j].1); }
    }
  }

  lemma {:induction false} RepeatIssuesMean(pairs: seq<(W.Master, W.Detail)>, n: nat)
    requires n <= |pairs|
    ensures forall issue :: issue in RepeatIssues(pairs, n) <==>
              issue.DetailConflict? && 0 < issue.position <= n && Repeats(pairs, issue.position - 1)
  {
    hide Repeats;
    if n > 0 { RepeatIssuesMean(pairs, n - 1); }
  }

  // ---------------------------------------------------------------- the composition

  /** Two accepted rows that the writer files under one master and one detail key. */
  predicate SameIdentity(f: Csv.Family, a: Csv.Row, b: Csv.Row) {
    MasterYear(f, a) == MasterYear(f, b) && Version(f, a) == Version(f, b) && Csv.DetailKey(f, a) == Csv.DetailKey(f, b)
  }

  /** The shortened digests of the payload's own master keys do not collide. */
  ghost predicate NoCollision(f: Csv.Family, inp: Csv.Input, rows: seq<Csv.Row>, dec: Dec, ctx: W.Context) {
    forall i, j :: 0 <= i < |rows| && 0 <= j < |rows| && Accepted(f, rows[i], dec) && Accepted(f, rows[j], dec)
      && W.MasterId(PersistedFamily(f), MasterKeyText(f, inp, rows[i]), ctx.digest)
         == W.MasterId(PersistedFamily(f), MasterKeyText(f, inp, rows[j]), ctx.digest)
      ==> MasterKeyText(f, inp, rows[i]) == MasterKeyText(f, inp, rows[j])
  }

  function PairOf(f: Csv.Family, inp: Csv.Input, row: Csv.Row, record: Csv.Record, ctx: W.Context): (W.Master, W.Detail) {
    (MasterFor(f, inp, MasterYear(f, row), Version(f, row), ctx), W.DetailOf(RowOf(record), ctx, PersistedFamily(f)))
  }

  /** record k was made from row at[k], which was accepted. */
  ghost predicate MadeFrom(f: Csv.Family, inp: Csv.Input, rows: seq<Csv.Row>, dec: Dec, records: seq<Csv.Record>, at: seq<nat>) {
    && |at| == |records|
    && forall k :: 0 <= k < |at| ==>
         && at[k] < |rows| && Accepted(f, rows[at[k]], dec)
         && records[k] == Csv.RecordOf(f, inp, rows[at[k]], at[k] + 2, dec, records[k].index, records[k].skipped)
  }

  lemma MadeFromAccepted(f: Csv.Family, inp: Csv.Input, rows: seq<Csv.Row>, dec: Dec, records: seq<Csv.Record>)
    requires Csv.RecordsAre(f, inp, rows, dec, records)
    ensures MadeFrom(f, inp, rows, dec, records, Csv.AcceptedAt(f, rows, dec))
  {
    var at := Csv.AcceptedAt(f, rows, dec);
    hide Csv.AcceptedAt, Csv.RawFields, Csv.KindOf;
    forall k | 0 <= k < |at|
      ensures at[k] < |rows| && Accepted(f, rows[at[k]], dec)
      ensures records[k] == Csv.RecordOf(f, inp, rows[at[k]], at[k] + 2, dec, records[k].index, records[k].skipped)
    {
      assert Csv.RecordIs(f, inp, rows, dec, records[k], at[k], k);
      assert at[k] in at;
      Csv.AcceptedAtMeans(f, rows, dec, at[k]);
    }
  }

  lemma RecordPair(f: Csv.Family, inp: Csv.Input, rows: seq<Csv.Row>, dec: Dec, records: seq<Csv.Record>, at: seq<nat>, k: nat, ctx: W.Context)
    requires MadeFrom(f, inp, rows, dec, records, at) && k < |at| && Csv.ValidInput(inp)
    ensures var row := rows[at[k]];
            && IntOf(MasterYear(f, row)).Some? && ':' !in MasterYear(f, row)
            && W.MapRow(RowOf(records[k]), k + 1, ctx) == W.Mapped(Some(PairOf(f, inp, row, records[k], ctx)), [])
            && W.KeyOfDetail(PairOf(f, inp, row, records[k], ctx).1)
               == (PersistedFamily(f), W.MasterId(PersistedFamily(f), MasterKeyText(f, inp, row), ctx.digest), Csv.DetailKey(f, row))
            && W.KeyOfMaster(PairOf(f, inp, row, records[k], ctx).0)
               == (PersistedFamily(f), W.MasterId(PersistedFamily(f), MasterKeyText(f, inp, row), ctx.digest))
            && PairOf(f, inp, row, records[k], ctx).1.rowNumber == at[k] + 2
  {
    hide Csv.RecordOf, W.MapRow, W.DetailOf, Accepted, Csv.ValidInput, MasterYear, Version, IntOf, Csv.DetailKey, W.MasterId;
    var row, r := rows[at[k]], records[k];
    AcceptedMaps(f, inp, row, at[k] + 2, dec, r.index, r.skipped, k + 1, ctx);
    DetailKeyed(f, inp, row, at[k] + 2, dec, r.index, r.skipped, ctx);
    YearReads(f, row, dec);
  }

  function PairsOf(f: Csv.Family, inp: Csv.Input, rows: seq<Csv.Row>, records: seq<Csv.Record>, at: seq<nat>, ctx: W.Context): seq<(W.Master, W.Detail)>
    requires |at| == |records| && forall k :: 0 <= k < |at| ==> at[k] < |rows|
  {
    seq(|at|, k requires 0 <= k < |at| => PairOf(f, inp, rows[at[k]], records[k], ctx))
  }

  /** Equal keys mean equal rows as far as the writer files them. */
  lemma KeysIdentify(f: Csv.Family, inp: Csv.Input, rows: seq<Csv.Row>, dec: Dec, records: seq<Csv.Record>, at: seq<nat>, j: nat, k: nat, ctx: W.Context)
    requires MadeFrom(f, inp, rows, dec, records, at) && j < |at| && k < |at| && Csv.ValidInput(inp)
    requires NoCollision(f, inp, rows, dec, ctx)
    ensures var p, q := PairOf(f, inp, rows[at[j]], records[j], ctx), PairOf(f, inp, rows[at[k]], records[k], ctx);
            && (W.KeyOfMaster(p.0) == W.KeyOfMaster(q.0) ==> p.0 == q.0)
            && (W.KeyOfDetail(p.1) == W.KeyOfDetail(q.1) <==> SameIdentity(f, rows[at[j]], rows[at[k]]))
  {
    RecordPair(f, inp, rows, dec, records, at, j, ctx);
    RecordPair(f, inp, rows, dec, records, at, k, ctx);
    var a, b := rows[at[j]], rows[at[k]];
    if MasterKeyText(f, inp, a) == MasterKeyText(f, inp, b) {
      MasterKeyInjective(inp, MasterYear(f, a), Version(f, a), MasterYear(f, b), Version(f, b));
    }
    hide Csv.RecordOf, W.MapRow, W.DetailOf, Accepted, MasterYear, Version, IntOf, Csv.DetailKey, W.MasterId, W.JoinKey;
    assert Accepted(f, a, dec) && Accepted(f, b, dec);
  }

  lemma PayloadClean(f: Csv.Family, inp: Csv.Input, rows: seq<Csv.Row>, dec: Dec, records: seq<Csv.Record>, at: seq<nat>, ctx: W.Context)
    requires MadeFrom(f, inp, rows, dec, records, at) && Csv.ValidInput(inp) && NoCollision(f, inp, rows, dec, ctx)
    requires Csv.Increasing(at, |rows|)
    ensures var pairs := PairsOf(f, inp, rows, records, at, ctx);
            && Clean(RowsOf(records), pairs, ctx)
            && forall k :: 0 <= k < |pairs| ==>
                 (Repeats(pairs, k) <==> exists j :: 0 <= j < k && SameIdentity(f, rows[at[j]], rows[at[k]]))
  {
    hide MadeFrom, NoCollision, PairOf, W.MapRow, RowOf, SameIdentity, W.KeyOfMaster, W.KeyOfDetail;
    assert |at| == |records| && forall k :: 0 <= k < |at| ==> at[k] < |rows| by { Sizes(f, inp, rows, dec, records, at); }
    var pairs := PairsOf(f, inp, rows, records, at, ctx);
    forall k | 0 <= k < |at| ensures W.MapRow(RowsOf(records)[k], k + 1, ctx) == W.Mapped(Some(pairs[k]), []) {
      RecordPair(f, inp, rows, dec, records, at, k, ctx);
    }
    forall j, k | 0 <= j < k < |at|
      ensures W.KeyOfMaster(pairs[j].0) == W.KeyOfMaster(pairs[k].0) ==> pairs[j].0 == pairs[k].0
      ensures pairs[j].1 != pairs[k].1
    {
      KeysIdentify(f, inp, rows, dec, records, at, j, k, ctx);
      RecordPair(f, inp, rows, dec, records, at, j, ctx);
      RecordPair(f, inp, rows, dec, records, at, k, ctx);
    }
    forall k | 0 <= k < |pairs|
      ensures Repeats(pairs, k) <==> exists j :: 0 <= j < k && SameIdentity(f, rows[at[j]], rows[at[k]])
    {
      forall j | 0 <= j < k
        ensures W.KeyOfDetail(pairs[j].1) == W.KeyOfDetail(pairs[k].1) <==> SameIdentity(f, rows[at[j]], rows[at[k]])
      {
        KeysIdentify(f, inp, rows, dec, records, at, j, k, ctx);
      }
    }
  }

  lemma Sizes(f: Csv.Family, inp: Csv.Input, rows: seq<Csv.Row>, dec: Dec, records: seq<Csv.Record>, at: seq<nat>)
    requires MadeFrom(f, inp, rows, dec, records, at)
    ensures |at| == |records| && forall k :: 0 <= k < |at| ==> at[k] < |rows|
  {
  }

  /** A successful parse of any family persists without a missing field, an unsupported family or a
      master conflict. The issues are exactly one conflict for each record whose year, version and
      detail key an earlier record has too; nothing is skipped; all other records become details. */
  lemma ParsedPersists(f: Csv.Family, inp: Csv.Input, rows: seq<Csv.Row>, dec: Dec, ctx: W.Context)
    requires Csv.ValidInput(inp) && NoCollision(f, inp, rows, dec, ctx)
    requires Csv.Parsed(f, inp, rows, dec).status.Success?
    ensures var r, at := Csv.Parsed(f, inp, rows, dec), Csv.AcceptedAt(f, rows, dec);
            r.payload.Some? && |at| == |r.payload.value| && (forall k :: 0 <= k < |at| ==> at[k] < |rows|) &&
            var c := W.CommandOf(RowsOf(r.payload.value), ctx);
            && c.skipped == 0
            && (forall issue :: issue in c.issues <==>
                  issue.DetailConflict? && 0 < issue.position <= |at|
                  && exists j :: 0 <= j < issue.position - 1 && SameIdentity(f, rows[at[j]], rows[at[issue.position - 1]]))
            && |c.details| + |c.issues| == |at|
  {
    Csv.ParsedMeans(f, inp, rows, dec);
    hide Csv.Parsed, Csv.AcceptedAt;
    var records, at := Csv.Parsed(f, inp, rows, dec).payload.value, Csv.AcceptedAt(f, rows, dec);
    MadeFromAccepted(f, inp, rows, dec, records);
    Csv.AcceptedAtIncreasing(f, rows, dec);
    PayloadCommand(f, inp, rows, dec, records, at, ctx);
  }

  lemma PayloadCommand(f: Csv.Family, inp: Csv.Input, rows: seq<Csv.Row>, dec: Dec, records: seq<Csv.Record>, at: seq<nat>, ctx: W.Context)
    requires MadeFrom(f, inp, rows, dec, records, at) && Csv.ValidInput(inp) && NoCollision(f, inp, rows, dec, ctx)
    requires Csv.Increasing(at, |rows|) && records != []
    ensures |at| == |records| && (forall k :: 0 <= k < |at| ==> at[k] < |rows|) &&
            var c := W.CommandOf(RowsOf(records), ctx);
            && c.skipped == 0
            && (forall issue :: issue in c.issues <==>
                  issue.DetailConflict? && 0 < issue.position <= |at|
                  && exists j :: 0 <= j < issue.position - 1 && SameIdentity(f, rows[at[j]], rows[at[issue.position - 1]]))
            && |c.details| + |c.issues| == |at|
  {
    hide MadeFrom, NoCollision, PairOf, RowOf, SameIdentity, W.WriteAll, Clean, Repeats, Csv.ValidInput;
    Sizes(f, inp, rows, dec, records, at);
    var pairs := PairsOf(f, inp, rows, records, at, ctx);
    PayloadClean(f, inp, rows, dec, records, at, ctx);
    assert RowsOf(records)[..|records|] == RowsOf(records) && pairs[..|records|] == pairs;
    CleanLoop(RowsOf(records), pairs, ctx, |records|);
    RepeatIssuesMean(pairs, |records|);
    CleanCount(RowsOf(records), pairs, ctx, |records|);
  }

  lemma {:induction false} CleanCount(rows: seq<W.Row>, pairs: seq<(W.Master, W.Detail)>, ctx: W.Context, n: nat)
    requires Clean(rows, pairs, ctx) && n <= |rows|
    ensures |Kept(W.DetailEntries(pairs[..n]))| + |RepeatIssues(pairs, n)| == n
  {
    hide Clean, Repeats, W.KeyOfDetail, Kept, Get, W.DetailEntries;
    SizesOfClean(rows, pairs, ctx);
    if n > 0 {
      CleanCount(rows, pairs, ctx, n - 1);
      CountMore(rows, pairs, ctx, n - 1);
    } else {
      assert pairs[..0] == [];
      NothingKept();
    }
  }

  lemma CountMore(rows: seq<W.Row>, pairs: seq<(W.Master, W.Detail)>, ctx: W.Context, n: nat)
    requires Clean(rows, pairs, ctx) && n < |rows| == |pairs|
    ensures |Kept(W.DetailEntries(pairs[..n + 1]))| == |Kept(W.DetailEntries(pairs[..n]))| + if Repeats(pairs, n) then 0 else 1
  {
    hide Clean, Repeats, W.KeyOfDetail, Kept, Get, W.DetailEntries;
    assert pairs[..n + 1] == pairs[..n] + [pairs[n]];
    W.EntriesMore(pairs[..n], pairs[n]);
    KeptMore(W.DetailEntries(pairs[..n]), (W.KeyOfDetail(pairs[n].1), pairs[n].1));
    DetailDiffers(rows, pairs, ctx, n);
  }

  lemma SizesOfClean(rows: seq<W.Row>, pairs: seq<(W.Master, W.Detail)>, ctx: W.Context)
    requires Clean(rows, pairs, ctx)
    ensures |pairs| == |rows|
  {
  }

  /** A successful payload passes the gate, so the writer starts without issues. */
  lemma SuccessIsWellShaped(f: Csv.Family, inp: Csv.Input, rows: seq<Csv.Row>, dec: Dec)
    requires Csv.ValidInput(inp) && Csv.Parsed(f, inp, rows, dec).status.Success?
    ensures Csv.Parsed(f, inp, rows, dec).payload.Some?
    ensures forall r :: r in Csv.Parsed(f, inp, rows, dec).payload.value ==> GoodRecord(r)
    ensures Strip(Csv.FamilyText(f)) != []
  {
    Csv.ParsedMeans(f, inp, rows, dec);
    hide Csv.Parsed, Csv.AcceptedAt, Strip, Csv.AnyRowInError, Csv.RecordsAre, GoodRecord, Csv.ValidInput;
    var records := Csv.Parsed(f, inp, rows, dec).payload.value;
    MadeFromAccepted(f, inp, rows, dec, records);
    Csv.RecordsNumbered(f, inp, rows, dec, records);
    hide MadeFrom;
    FamilyNotBlank(f);
    RecordsGood(f, inp, rows, dec, records, Csv.AcceptedAt(f, rows, dec));
  }

  lemma RecordsGood(f: Csv.Family, inp: Csv.Input, rows: seq<Csv.Row>, dec: Dec, records: seq<Csv.Record>, at: seq<nat>)
    requires Csv.ValidInput(inp) && MadeFrom(f, inp, rows, dec, records, at)
    requires forall k :: 0 <= k < |records| ==> records[k].index == k + 1
    ensures forall r :: r in records ==> GoodRecord(r)
  {
    hide Csv.RecordOf, GoodRecord, Csv.ValidInput, Accepted;
    forall k | 0 <= k < |records| ensures GoodRecord(records[k]) {
      RecordIsGood(f, inp, rows[at[k]], at[k] + 2, dec, records[k].index, records[k].skipped);
    }
  }

  lemma RecordIsGood(f: Csv.Family, inp: Csv.Input, row: Csv.Row, number: nat, dec: Dec, index: nat, skipped: nat)
    requires Csv.ValidInput(inp) && index >= 1
    ensures GoodRecord(Csv.RecordOf(f, inp, row, number, dec, index, skipped))
  {
    FamilyNotBlank(f);
    NamesWritten(f);
    RawFieldAt(f, inp, row, number, dec);
    hide Csv.RawFields, Has, Strip, Csv.FamilyText;
    assert SourceYear in Csv.RecordOf(f, inp, row, number, dec, index, skipped).fields;
  }

  lemma FamilyNotBlank(f: Csv.Family)
    ensures Strip(Csv.FamilyText(f)) != []
  {
    StripOf(Csv.FamilyText(f));
    hide Strip;
  }

  // ---------------------------------------------------------------- fields keep what the cells say

  function CellBack(v: Value): string { if v.Text? then v.text else [] }

  /** Columns whose cells a record carries as they are. */
  predicate IsTextColumn(name: Name) {
    match name
    case SourceVersion => true
    case FactorId => true
    case FactorName => true
    case Unit => true
    case Category => true
    case Subcategory => true
    case Scope => true
    case Gas => true
    case ProvenanceNote => true
    case IpccSector => true
    case Region => true
    case Technology => true
    case Provenance => true
    case Activity => true
    case GreenhouseGas => true
    case _ => false
  }

  lemma TextColumnValue(f: Csv.Family, inp: Csv.Input, row: Csv.Row, number: nat, dec: Dec, name: Name)
    requires IsTextColumn(name)
    ensures var v := Csv.RawField(f, inp, row, number, dec, name);
            (v.Text? || v.Nothing?) && CellBack(v) == Csv.Cell(f, row, name)
  {
    hide Csv.Cell, Csv.Year, Csv.FactorDecimal, Csv.DetailKey, Csv.YearVersionId, Csv.Prefixed;
  }

  /** Every text column a family has can be read back from the record's fields, blank ones as nothing. */
  lemma FieldsKeepCells(f: Csv.Family, inp: Csv.Input, row: Csv.Row, number: nat, dec: Dec, name: Name)
    requires Has(f, name) && IsTextColumn(name)
    ensures var fields := Csv.RawFields(f, inp, row, number, dec);
            name in fields && (fields[name].Text? || fields[name].Nothing?) && CellBack(fields[name]) == Csv.Cell(f, row, name)
  {
    TextColumnValue(f, inp, row, number, dec, name);
    RawFieldAt(f, inp, row, number, dec);
    hide Csv.RawFields, Csv.RawField, Has, IsTextColumn, CellBack;
  }
}
