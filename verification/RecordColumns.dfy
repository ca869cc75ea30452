/** The records of the three parsers said on the cells of their rows, column by column: which rows are
    accepted, and what every field of an accepted row's record holds. */
module RecordColumns {
  import opened Text
  import opened Footers
  import opened Fields
  import opened NormalizedCsv
  import P = ParsedPersistence

  type Reader = string -> Option<Decimal>

  /** The k-th cell of a row, stripped; a short row reads as blank. */
  function At(row: Row, k: nat): string { if k < |row| then Strip(row[k]) else [] }

  lemma {:induction false} ColumnIs(header: seq<Name>, k: nat)
    requires k < |header| && forall j :: 0 <= j < k ==> header[j] != header[k]
    ensures Column(header, header[k]) == k
  {
    if k > 0 { ColumnIs(header[1..], k - 1); }
  }

  lemma HeaderDistinct(f: Family)
    ensures forall j, k :: 0 <= j < k < |Header(f)| ==> Header(f)[j] != Header(f)[k]
  {
    var h := Header(f);
    forall k | 0 <= k < |h| ensures Place(f, h[k]) == k {}
  }

  /** Where a column stands. */
  function Place(f: Family, name: Name): nat {
    match name
    case RecordType => 0
    case SourceYear => if f.Defra? then 0 else 1
    case SourceVersion => if f.Defra? then 1 else 2
    case FactorId => if f.Defra? then 5 else 3
    case FactorName => if f.Defra? then 6 else 4
    case FactorValue => if f.Defra? then 7 else 5
    case Unit => if f.Defra? then 8 else 6
    case Category => if f.Defra? then 2 else 7
    case Subcategory => if f.Defra? then 3 else 8
    case Scope => 9
    case IpccSector => 9
    case Gas => 10
    case ProvenanceNote => 11
    case Region => 11
    case Technology => 12
    case Provenance => if f.Defra? then 10 else 13
    case Activity => 4
    case _ => 9
  }

  lemma CellIs(f: Family, row: Row, k: nat)
    requires k < |Header(f)|
    ensures Cell(f, row, Header(f)[k]) == At(row, k)
  {
    HeaderDistinct(f);
    ColumnIs(Header(f), k);
    hide Header, Strip;
  }

  // ---------------------------------------------------------------- the columns by name

  /** The cells that say which factor a row holds; value as it is handed to Decimal(), key the cells a detail is
      filed under, joined by colons. */
  datatype Columns = Columns(year: string, version: string, id: string, name: string, value: string, unit: string, key: string)

  function ColumnsOf(f: Family, row: Row): Columns {
    match f
    case Ghg => Columns(At(row, 1), At(row, 2), At(row, 3), At(row, 4), At(row, 5), At(row, 6), At(row, 3) + ":" + At(row, 6))
    case Ipcc =>
      Columns(At(row, 1), At(row, 2), At(row, 3), At(row, 4), WithoutChar(At(row, 5), ','), At(row, 6),
              At(row, 3) + ":" + At(row, 6) + ":" + At(row, 10) + ":" + At(row, 9))
    case Defra =>
      Columns(At(row, 0), At(row, 1), At(row, 5), At(row, 6), WithoutChar(At(row, 7), ','), At(row, 8),
              At(row, 5) + ":" + At(row, 8) + ":" + At(row, 9))
  }

  function Word(f: Family): string { match f case Ghg => "ghg" case Ipcc => "ipcc" case Defra => "defra" }

  // ---------------------------------------------------------------- where the cells stand

  lemma GhgCells(row: Row)
    ensures |Header(Ghg)| == 12
    ensures Cell(Ghg, row, RecordType) == At(row, 0) && Cell(Ghg, row, SourceYear) == At(row, 1)
    ensures Cell(Ghg, row, SourceVersion) == At(row, 2) && Cell(Ghg, row, FactorId) == At(row, 3)
    ensures Cell(Ghg, row, FactorName) == At(row, 4) && Cell(Ghg, row, FactorValue) == At(row, 5)
    ensures Cell(Ghg, row, Unit) == At(row, 6) && Cell(Ghg, row, Category) == At(row, 7)
    ensures Cell(Ghg, row, Subcategory) == At(row, 8) && Cell(Ghg, row, Scope) == At(row, 9)
    ensures Cell(Ghg, row, Gas) == At(row, 10) && Cell(Ghg, row, ProvenanceNote) == At(row, 11)
  {
    hide Cell, At;
    var h := Header(Ghg);
    forall k | 0 <= k < |h| ensures Cell(Ghg, row, h[k]) == At(row, k) { CellIs(Ghg, row, k); }
    assert h[0] == RecordType && h[1] == SourceYear && h[2] == SourceVersion && h[3] == FactorId && h[4] == FactorName
           && h[5] == FactorValue && h[6] == Unit && h[7] == Category && h[8] == Subcategory && h[9] == Scope && h[10] == Gas
           && h[11] == ProvenanceNote;
  }

  lemma IpccCells(row: Row)
    ensures |Header(Ipcc)| == 14
    ensures Cell(Ipcc, row, RecordType) == At(row, 0) && Cell(Ipcc, row, SourceYear) == At(row, 1)
    ensures Cell(Ipcc, row, SourceVersion) == At(row, 2) && Cell(Ipcc, row, FactorId) == At(row, 3)
    ensures Cell(Ipcc, row, FactorName) == At(row, 4) && Cell(Ipcc, row, FactorValue) == At(row, 5)
    ensures Cell(Ipcc, row, Unit) == At(row, 6) && Cell(Ipcc, row, Category) == At(row, 7)
    ensures Cell(Ipcc, row, Subcategory) == At(row, 8) && Cell(Ipcc, row, IpccSector) == At(row, 9)
    ensures Cell(Ipcc, row, Gas) == At(row, 10) && Cell(Ipcc, row, Region) == At(row, 11)
    ensures Cell(Ipcc, row, Technology) == At(row, 12) && Cell(Ipcc, row, Provenance) == At(row, 13)
  {
    hide Cell, At;
    var h := Header(Ipcc);
    forall k | 0 <= k < |h| ensures Cell(Ipcc, row, h[k]) == At(row, k) { CellIs(Ipcc, row, k); }
    assert h[0] == RecordType && h[1] == SourceYear && h[2] == SourceVersion && h[3] == FactorId && h[4] == FactorName
           && h[5] == FactorValue && h[6] == Unit && h[7] == Category && h[8] == Subcategory && h[9] == IpccSector && h[10] == Gas
           && h[11] == Region && h[12] == Technology && h[13] == Provenance;
  }

  lemma DefraCells(row: Row)
    ensures |Header(Defra)| == 11
    ensures Cell(Defra, row, SourceYear) == At(row, 0) && Cell(Defra, row, SourceVersion) == At(row, 1)
    ensures Cell(Defra, row, Category) == At(row, 2) && Cell(Defra, row, Subcategory) == At(row, 3)
    ensures Cell(Defra, row, Activity) == At(row, 4) && Cell(Defra, row, FactorId) == At(row, 5)
    ensures Cell(Defra, row, FactorName) == At(row, 6) && Cell(Defra, row, FactorValue) == At(row, 7)
    ensures Cell(Defra, row, Unit) == At(row, 8) && Cell(Defra, row, GreenhouseGas) == At(row, 9)
    ensures Cell(Defra, row, Provenance) == At(row, 10)
  {
    hide Cell, At;
    var h := Header(Defra);
    forall k | 0 <= k < |h| ensures Cell(Defra, row, h[k]) == At(row, k) { CellIs(Defra, row, k); }
    assert h[0] == SourceYear && h[1] == SourceVersion && h[2] == Category && h[3] == Subcategory && h[4] == Activity
           && h[5] == FactorId && h[6] == FactorName && h[7] == FactorValue && h[8] == Unit && h[9] == GreenhouseGas
           && h[10] == Provenance;
  }

  // ---------------------------------------------------------------- which rows are accepted

  predicate Filled(row: Row, columns: set<nat>) { forall k :: k in columns ==> At(row, k) != [] }

  lemma AcceptedIs(f: Family, row: Row, dec: Reader)
    ensures KindOf(f, row, dec).Accepted?
            <==> |row| <= |Header(f)| && (f.Defra? || Cell(f, row, RecordType) == EMISSION_FACTOR)
                 && (forall name :: name in Required(f) ==> Cell(f, row, name) != [])
                 && Year(f, Cell(f, row, SourceYear)) >= 1 && FactorDecimal(f, Cell(f, row, FactorValue), dec).Some?
  {
    hide Cell, Year, FactorDecimal, RowIssues, Header;
    RowOk(f, row, 0, dec);
    YearRequired(f);
  }

  lemma YearRequired(f: Family)
    ensures SourceYear in Required(f) && SourceYear in Header(f)
  {
    assert Required(f)[0] == SourceYear;
    assert if f.Defra? then Header(f)[0] == SourceYear else Header(f)[1] == SourceYear;
  }

  /** A GHG row is accepted exactly when it has at most twelve cells, is an emission factor, has its year,
      version, id, name, value, unit and category, and the year is an integer above 0 and the value a decimal. */
  lemma GhgAccepts(row: Row, dec: Reader)
    ensures KindOf(Ghg, row, dec).Accepted?
            <==> (&& |row| <= 12 && At(row, 0) == "emission_factor" && Filled(row, {1, 2, 3, 4, 5, 6, 7})
                  && IntOf(At(row, 1)).Some? && IntOf(At(row, 1)).value >= 1 && dec(At(row, 5)).Some?)
  {
    hide Cell, At, IntOf;
    GhgCells(row);
    AcceptedIs(Ghg, row, dec);
  }

  predicate PlainYear(s: string) { s != [] && (forall i :: 0 <= i < |s| ==> '0' <= s[i] <= '9') && NatOf(s) >= 1 }

  predicate PlainValue(s: string, dec: Reader) {
    'e' !in s && 'E' !in s && dec(WithoutChar(s, ',')).Some? && dec(WithoutChar(s, ',')).value.finite
  }

  /** What the IPCC and DEFRA parsers read of a year and of a value. */
  lemma PlainReads(f: Family, s: string, dec: Reader)
    requires !f.Ghg?
    ensures (Year(f, s) >= 1 <==> PlainYear(s)) && (PlainYear(s) ==> Year(f, s) == NatOf(s))
    ensures FactorDecimal(f, s, dec).Some? <==> PlainValue(s, dec)
    ensures PlainValue(s, dec) ==> FactorDecimal(f, s, dec) == dec(WithoutChar(s, ','))
  {
    hide NatOf, WithoutChar;
    var low := Lower(s);
    if 'e' in low {
      var i :| 0 <= i < |low| && low[i] == 'e';
      assert s[i] in s;
    } else {
      forall i | 0 <= i < |s| ensures s[i] != 'e' && s[i] != 'E' { assert low[i] in low; }
    }
  }

  /** An IPCC row has at most fourteen cells and needs its sector, gas and provenance too; its year is written in
      digits, and its value, the commas dropped, is a finite decimal without an exponent. */
  lemma IpccAccepts(row: Row, dec: Reader)
    ensures KindOf(Ipcc, row, dec).Accepted?
            <==> (&& |row| <= 14 && At(row, 0) == "emission_factor" && Filled(row, {1, 2, 3, 4, 5, 6, 7, 9, 10, 13})
                  && PlainYear(At(row, 1)) && PlainValue(At(row, 5), dec))
  {
    hide Cell, At, Year, FactorDecimal, PlainYear, PlainValue;
    IpccCells(row);
    AcceptedIs(Ipcc, row, dec);
    PlainReads(Ipcc, At(row, 1), dec);
    PlainReads(Ipcc, At(row, 5), dec);
  }

  /** A DEFRA row has at most eleven cells and no type; all but its subcategory, activity and gas are needed. */
  lemma DefraAccepts(row: Row, dec: Reader)
    ensures KindOf(Defra, row, dec).Accepted?
            <==> (&& |row| <= 11 && Filled(row, {0, 1, 2, 5, 6, 7, 8, 10})
                  && PlainYear(At(row, 0)) && PlainValue(At(row, 7), dec))
  {
    hide Cell, At, Year, FactorDecimal, PlainYear, PlainValue;
    DefraCells(row);
    AcceptedIs(Defra, row, dec);
    PlainReads(Defra, At(row, 0), dec);
    PlainReads(Defra, At(row, 7), dec);
  }

  // ---------------------------------------------------------------- what the record holds

  function OrNone(s: string): Value { if s == [] then Nothing else Text(s) }

  /** The words joined by a separator. */
  function Three(a: string, separator: string, b: string, c: string): string { a + separator + b + separator + c }

  /** What every family's record holds, whichever cells the year, version, id and unit are. */
  predicate Common(r: Record, inp: Input, family: string, word: string, index: nat, number: nat, year: string, version: string, id: string) {
    && r.sourceFamily == family && r.sourceId == inp.sourceId && r.index == index && r.rowNumber == number
    && r.artifact == Some(inp.artifact)
    && Has(r, SourceFamily, Text(family)) && Has(r, SourceId, Text(inp.sourceId))
    && Has(r, SourceVersion, Text(version)) && Has(r, FactorId, Text(id))
    && Has(r, SourceFamilyMasterId, Text(word + "_master_" + Three(year, "_", version, id)))
    && Has(r, SourceFamilyDetailId, Text(word + "_detail_" + Three(year, "_", version, id)))
    && Has(r, MasterExternalKey, Text(Three(year, ":", version, id)))
    && Has(r, ProvenanceArtifactReference, Text(inp.artifact)) && Has(r, ProvenanceRowNumber, Int(number))
    && Has(r, ProvenanceChecksumAlgorithm, if inp.checksum.Some? then Text("sha256") else Nothing)
    && Has(r, ProvenanceChecksumValue, if inp.checksum.Some? then Text(inp.checksum.value) else Nothing)
  }

  predicate Has(r: Record, name: Name, value: Value) { name in r.fields && r.fields[name] == value }

  lemma Holds(f: Family, inp: Input, row: Row, number: nat, dec: Reader, index: nat, skipped: nat, name: Name)
    requires P.Has(f, name)
    ensures Has(RecordOf(f, inp, row, number, dec, index, skipped), name, RawField(f, inp, row, number, dec, name))
  {
    P.RawFieldAt(f, inp, row, number, dec);
    hide RawField, RawFields, P.Has;
  }

  /** The names every family writes. */
  predicate IsCommon(name: Name) {
    || name.SourceFamily? || name.SourceId? || name.SourceYear? || name.SourceVersion? || name.FactorId? || name.FactorName?
    || name.FactorValue? || name.Unit? || name.Category? || name.Subcategory? || name.ProvenanceArtifactReference?
    || name.ProvenanceChecksumAlgorithm? || name.ProvenanceChecksumValue? || name.ProvenanceRowNumber?
    || name.SourceFamilyMasterId? || name.SourceFamilyDetailId? || name.MasterExternalKey? || name.DetailExternalKey?
  }

  lemma Written(f: Family, name: Name)
    ensures P.Has(f, name) <==>
              || IsCommon(name) || (f.Ghg? && (name.Scope? || name.Gas? || name.ProvenanceNote?))
              || (f.Ipcc? && (name.IpccSector? || name.Gas? || name.Region? || name.Technology? || name.Provenance?))
              || (f.Defra? && (name.Activity? || name.GreenhouseGas? || name.Provenance?))
  {
  }

  lemma PlainRaw(f: Family, inp: Input, row: Row, number: nat, dec: Reader)
    ensures RawField(f, inp, row, number, dec, SourceFamily) == Text(FamilyText(f))
    ensures RawField(f, inp, row, number, dec, SourceId) == Text(inp.sourceId)
    ensures RawField(f, inp, row, number, dec, SourceVersion) == Text(Cell(f, row, SourceVersion))
    ensures RawField(f, inp, row, number, dec, FactorId) == Text(Cell(f, row, FactorId))
    ensures RawField(f, inp, row, number, dec, ProvenanceArtifactReference) == Text(inp.artifact)
    ensures RawField(f, inp, row, number, dec, ProvenanceRowNumber) == Int(number)
    ensures RawField(f, inp, row, number, dec, ProvenanceChecksumAlgorithm) == if inp.checksum.Some? then Text("sha256") else Nothing
    ensures RawField(f, inp, row, number, dec, ProvenanceChecksumValue) == if inp.checksum.Some? then Text(inp.checksum.value) else Nothing
  {
    hide Cell, Year, FactorDecimal, DetailKey, FamilyText, YearVersionId, Prefixed;
  }

  lemma IdsRaw(f: Family, inp: Input, row: Row, number: nat, dec: Reader)
    ensures var id := YearVersionId(f, row, "_");
            && RawField(f, inp, row, number, dec, SourceFamilyMasterId) == Text(Prefixed(f, "_master_") + id)
            && RawField(f, inp, row, number, dec, SourceFamilyDetailId) == Text(Prefixed(f, "_detail_") + id)
            && RawField(f, inp, row, number, dec, MasterExternalKey) == Text(YearVersionId(f, row, ":"))
  {
    hide Cell, Year, FactorDecimal, DetailKey, FamilyText, YearVersionId, Prefixed;
  }

  lemma Spelled(f: Family, row: Row, part: string, separator: string, word: string)
    requires word == Word(f)
    ensures Prefixed(f, part) == word + part
    ensures YearVersionId(f, row, separator) == Three(Cell(f, row, SourceYear), separator, Cell(f, row, SourceVersion), Cell(f, row, FactorId))
  {
    hide Cell;
  }

  lemma CommonRaw(f: Family, inp: Input, row: Row, number: nat, dec: Reader, word: string)
    requires word == Word(f)
    ensures var year, version, id := Cell(f, row, SourceYear), Cell(f, row, SourceVersion), Cell(f, row, FactorId);
            && RawField(f, inp, row, number, dec, SourceFamilyMasterId) == Text(word + "_master_" + Three(year, "_", version, id))
            && RawField(f, inp, row, number, dec, SourceFamilyDetailId) == Text(word + "_detail_" + Three(year, "_", version, id))
            && RawField(f, inp, row, number, dec, MasterExternalKey) == Text(Three(year, ":", version, id))
  {
    IdsRaw(f, inp, row, number, dec);
    Spelled(f, row, "_master_", "_", word);
    Spelled(f, row, "_detail_", ":", word);
    hide *;
  }

  lemma CommonHolds(f: Family, inp: Input, row: Row, number: nat, dec: Reader, index: nat, skipped: nat, word: string)
    requires word == Word(f)
    ensures Common(RecordOf(f, inp, row, number, dec, index, skipped), inp, FamilyText(f), word, index, number,
                   Cell(f, row, SourceYear), Cell(f, row, SourceVersion), Cell(f, row, FactorId))
  {
    hide Cell, RawFields, P.Has, Has, FamilyText, RawField, IsCommon, Three;
    PlainRaw(f, inp, row, number, dec);
    CommonRaw(f, inp, row, number, dec, word);
    forall name | IsCommon(name)
      ensures Has(RecordOf(f, inp, row, number, dec, index, skipped), name, RawField(f, inp, row, number, dec, name))
    {
      Written(f, name);
      Holds(f, inp, row, number, dec, index, skipped, name);
    }
    CommonNames();
  }

  lemma CommonNames()
    ensures IsCommon(SourceFamily) && IsCommon(SourceId) && IsCommon(SourceVersion) && IsCommon(FactorId)
    ensures IsCommon(SourceFamilyMasterId) && IsCommon(SourceFamilyDetailId) && IsCommon(MasterExternalKey)
    ensures IsCommon(ProvenanceArtifactReference) && IsCommon(ProvenanceRowNumber)
    ensures IsCommon(ProvenanceChecksumAlgorithm) && IsCommon(ProvenanceChecksumValue)
    ensures IsCommon(SourceYear) && IsCommon(FactorName) && IsCommon(FactorValue) && IsCommon(Unit) && IsCommon(Category)
    ensures IsCommon(Subcategory) && IsCommon(DetailExternalKey)
  {
  }

  /** The year, value, name, unit and key of a row. */
  predicate Factor(r: Record, year: int, value: Decimal, name: string, unit: string, category: string, subcategory: string, key: string) {
    && Has(r, SourceYear, Int(year)) && Has(r, FactorValue, Dec(value)) && Has(r, FactorName, Text(name)) && Has(r, Unit, Text(unit))
    && Has(r, Category, Text(category)) && Has(r, Subcategory, OrNone(subcategory)) && Has(r, DetailExternalKey, Text(key))
  }

  lemma FactorRaw(f: Family, inp: Input, row: Row, number: nat, dec: Reader)
    ensures RawField(f, inp, row, number, dec, SourceYear) == Int(Year(f, Cell(f, row, SourceYear)))
    ensures RawField(f, inp, row, number, dec, FactorName) == Text(Cell(f, row, FactorName))
    ensures RawField(f, inp, row, number, dec, Unit) == Text(Cell(f, row, Unit))
    ensures RawField(f, inp, row, number, dec, Category) == Text(Cell(f, row, Category))
    ensures RawField(f, inp, row, number, dec, Subcategory) == OrNone(Cell(f, row, Subcategory))
    ensures RawField(f, inp, row, number, dec, DetailExternalKey) == Text(DetailKey(f, row))
    ensures var d := FactorDecimal(f, Cell(f, row, FactorValue), dec);
            d.Some? ==> RawField(f, inp, row, number, dec, FactorValue) == Dec(d.value)
  {
    hide Cell, Year, FactorDecimal, DetailKey, FamilyText, YearVersionId, Prefixed;
  }

  lemma FactorHolds(f: Family, inp: Input, row: Row, number: nat, dec: Reader, index: nat, skipped: nat, value: Decimal)
    requires FactorDecimal(f, Cell(f, row, FactorValue), dec) == Some(value)
    ensures Factor(RecordOf(f, inp, row, number, dec, index, skipped), Year(f, Cell(f, row, SourceYear)), value,
                   Cell(f, row, FactorName), Cell(f, row, Unit), Cell(f, row, Category), Cell(f, row, Subcategory), DetailKey(f, row))
  {
    hide Cell, RawFields, P.Has, Has, FamilyText, RawField, IsCommon, Year, FactorDecimal, DetailKey, OrNone;
    FactorRaw(f, inp, row, number, dec);
    forall name | IsCommon(name)
      ensures Has(RecordOf(f, inp, row, number, dec, index, skipped), name, RawField(f, inp, row, number, dec, name))
    {
      Written(f, name);
      Holds(f, inp, row, number, dec, index, skipped, name);
    }
    CommonNames();
  }

  lemma OwnRaw(f: Family, inp: Input, row: Row, number: nat, dec: Reader)
    ensures f.Ghg? ==>
              && RawField(f, inp, row, number, dec, Scope) == OrNone(Cell(f, row, Scope))
              && RawField(f, inp, row, number, dec, Gas) == OrNone(Cell(f, row, Gas))
              && RawField(f, inp, row, number, dec, ProvenanceNote) == OrNone(Cell(f, row, ProvenanceNote))
    ensures f.Ipcc? ==>
              && RawField(f, inp, row, number, dec, IpccSector) == Text(Cell(f, row, IpccSector))
              && RawField(f, inp, row, number, dec, Gas) == Text(Cell(f, row, Gas))
              && RawField(f, inp, row, number, dec, Region) == OrNone(Cell(f, row, Region))
              && RawField(f, inp, row, number, dec, Technology) == OrNone(Cell(f, row, Technology))
              && RawField(f, inp, row, number, dec, Provenance) == Text(Cell(f, row, Provenance))
    ensures f.Defra? ==>
              && RawField(f, inp, row, number, dec, Activity) == OrNone(Cell(f, row, Activity))
              && RawField(f, inp, row, number, dec, GreenhouseGas) == OrNone(Cell(f, row, GreenhouseGas))
              && RawField(f, inp, row, number, dec, Provenance) == Text(Cell(f, row, Provenance))
  {
    hide Cell, Year, FactorDecimal, DetailKey, FamilyText, YearVersionId, Prefixed;
  }

  lemma KeySpelled(row: Row)
    ensures DetailKey(Ghg, row) == Cell(Ghg, row, FactorId) + ":" + Cell(Ghg, row, Unit)
    ensures DetailKey(Ipcc, row)
         == Cell(Ipcc, row, FactorId) + ":" + Cell(Ipcc, row, Unit) + ":" + Cell(Ipcc, row, Gas) + ":" + Cell(Ipcc, row, IpccSector)
    ensures DetailKey(Defra, row) == Cell(Defra, row, FactorId) + ":" + Cell(Defra, row, Unit) + ":" + Cell(Defra, row, GreenhouseGas)
  {
    hide Cell;
  }

  /** The record of an accepted GHG row. */
  lemma GhgRecord(inp: Input, row: Row, number: nat, dec: Reader, index: nat, skipped: nat)
    requires KindOf(Ghg, row, dec).Accepted?
    ensures IntOf(At(row, 1)).Some? && dec(At(row, 5)).Some?
    ensures var r := RecordOf(Ghg, inp, row, number, dec, index, skipped);
            && Common(r, inp, "ghg_protocol", "ghg", index, number, At(row, 1), At(row, 2), At(row, 3))
            && Factor(r, IntOf(At(row, 1)).value, dec(At(row, 5)).value, At(row, 4), At(row, 6), At(row, 7), At(row, 8),
                      At(row, 3) + ":" + At(row, 6))
            && Has(r, Scope, OrNone(At(row, 9))) && Has(r, Gas, OrNone(At(row, 10))) && Has(r, ProvenanceNote, OrNone(At(row, 11)))
            && r.checksum == inp.checksum && r.skipped == skipped
  {
    GhgAccepts(row, dec);
    GhgCells(row);
    KeySpelled(row);
    var year, value := IntOf(At(row, 1)).value, dec(At(row, 5)).value;
    assert Year(Ghg, At(row, 1)) == year && FactorDecimal(Ghg, At(row, 5), dec) == Some(value);
    OwnRaw(Ghg, inp, row, number, dec);
    Written(Ghg, Scope);
    Written(Ghg, Gas);
    Written(Ghg, ProvenanceNote);
    assert FamilyText(Ghg) == "ghg_protocol";
    hide *;
    CommonHolds(Ghg, inp, row, number, dec, index, skipped, "ghg");
    FactorHolds(Ghg, inp, row, number, dec, index, skipped, value);
    Holds(Ghg, inp, row, number, dec, index, skipped, Scope);
    Holds(Ghg, inp, row, number, dec, index, skipped, Gas);
    Holds(Ghg, inp, row, number, dec, index, skipped, ProvenanceNote);
    RecordFrame(Ghg, inp, row, number, dec, index, skipped);
  }

  lemma RecordFrame(f: Family, inp: Input, row: Row, number: nat, dec: Reader, index: nat, skipped: nat)
    ensures var r := RecordOf(f, inp, row, number, dec, index, skipped);
            r.checksum == (if f.Defra? then None else inp.checksum) && r.skipped == skipped
  {
  }

  /** The record of an accepted IPCC row. */
  lemma IpccRecord(inp: Input, row: Row, number: nat, dec: Reader, index: nat, skipped: nat)
    requires KindOf(Ipcc, row, dec).Accepted?
    ensures AllDigits(At(row, 1)) && dec(WithoutChar(At(row, 5), ',')).Some?
    ensures var r := RecordOf(Ipcc, inp, row, number, dec, index, skipped);
            && Common(r, inp, "ipcc_efdb", "ipcc", index, number, At(row, 1), At(row, 2), At(row, 3))
            && Factor(r, NatOf(At(row, 1)), dec(WithoutChar(At(row, 5), ',')).value, At(row, 4), At(row, 6), At(row, 7), At(row, 8),
                      At(row, 3) + ":" + At(row, 6) + ":" + At(row, 10) + ":" + At(row, 9))
            && Has(r, IpccSector, Text(At(row, 9))) && Has(r, Gas, Text(At(row, 10))) && Has(r, Region, OrNone(At(row, 11)))
            && Has(r, Technology, OrNone(At(row, 12))) && Has(r, Provenance, Text(At(row, 13)))
            && r.checksum == inp.checksum && r.skipped == skipped
  {
    IpccAccepts(row, dec);
    IpccCells(row);
    KeySpelled(row);
    PlainReads(Ipcc, At(row, 1), dec);
    PlainReads(Ipcc, At(row, 5), dec);
    var value := dec(WithoutChar(At(row, 5), ',')).value;
    OwnRaw(Ipcc, inp, row, number, dec);
    Written(Ipcc, IpccSector);
    Written(Ipcc, Gas);
    Written(Ipcc, Region);
    Written(Ipcc, Technology);
    Written(Ipcc, Provenance);
    assert FamilyText(Ipcc) == "ipcc_efdb";
    hide *;
    CommonHolds(Ipcc, inp, row, number, dec, index, skipped, "ipcc");
    FactorHolds(Ipcc, inp, row, number, dec, index, skipped, value);
    Holds(Ipcc, inp, row, number, dec, index, skipped, IpccSector);
    Holds(Ipcc, inp, row, number, dec, index, skipped, Gas);
    Holds(Ipcc, inp, row, number, dec, index, skipped, Region);
    Holds(Ipcc, inp, row, number, dec, index, skipped, Technology);
    Holds(Ipcc, inp, row, number, dec, index, skipped, Provenance);
    RecordFrame(Ipcc, inp, row, number, dec, index, skipped);
  }

  /** The record of an accepted DEFRA row: the checksum is in its fields and not in its source context. */
  lemma DefraRecord(inp: Input, row: Row, number: nat, dec: Reader, index: nat, skipped: nat)
    requires KindOf(Defra, row, dec).Accepted?
    ensures AllDigits(At(row, 0)) && dec(WithoutChar(At(row, 7), ',')).Some?
    ensures var r := RecordOf(Defra, inp, row, number, dec, index, skipped);
            && Common(r, inp, "defra_desnz", "defra", index, number, At(row, 0), At(row, 1), At(row, 5))
            && Factor(r, NatOf(At(row, 0)), dec(WithoutChar(At(row, 7), ',')).value, At(row, 6), At(row, 8), At(row, 2), At(row, 3),
                      At(row, 5) + ":" + At(row, 8) + ":" + At(row, 9))
            && Has(r, Activity, OrNone(At(row, 4))) && Has(r, GreenhouseGas, OrNone(At(row, 9))) && Has(r, Provenance, Text(At(row, 10)))
            && r.checksum == None && r.skipped == skipped
  {
    DefraAccepts(row, dec);
    DefraCells(row);
    KeySpelled(row);
    PlainReads(Defra, At(row, 0), dec);
    PlainReads(Defra, At(row, 7), dec);
    var value := dec(WithoutChar(At(row, 7), ',')).value;
    OwnRaw(Defra, inp, row, number, dec);
    Written(Defra, Activity);
    Written(Defra, GreenhouseGas);
    Written(Defra, Provenance);
    assert FamilyText(Defra) == "defra_desnz";
    hide *;
    CommonHolds(Defra, inp, row, number, dec, index, skipped, "defra");
    FactorHolds(Defra, inp, row, number, dec, index, skipped, value);
    Holds(Defra, inp, row, number, dec, index, skipped, Activity);
    Holds(Defra, inp, row, number, dec, index, skipped, GreenhouseGas);
    Holds(Defra, inp, row, number, dec, index, skipped, Provenance);
    RecordFrame(Defra, inp, row, number, dec, index, skipped);
  }

  /** A record has these fields and no others. */
  lemma FieldNames(f: Family, inp: Input, row: Row, number: nat, dec: Reader, index: nat, skipped: nat, name: Name)
    ensures name in RecordOf(f, inp, row, number, dec, index, skipped).fields
            <==> || IsCommon(name) || (f.Ghg? && (name.Scope? || name.Gas? || name.ProvenanceNote?))
                 || (f.Ipcc? && (name.IpccSector? || name.Gas? || name.Region? || name.Technology? || name.Provenance?))
                 || (f.Defra? && (name.Activity? || name.GreenhouseGas? || name.Provenance?))
  {
    Written(f, name);
    P.RawFieldAt(f, inp, row, number, dec);
    hide RawFields, P.Has, IsCommon;
  }

  lemma Tagged(word: string, a: string, b: string)
    ensures word + "_detail_" + a != word + "_master_" + b
    ensures word + "_detail_" + a == word + "_detail_" + b <==> a == b
    ensures word + "_master_" + a == word + "_master_" + b <==> a == b
  {
    var front, other := word + "_detail_", word + "_master_";
    assert (front + a)[|word| + 1] == 'd' && (other + b)[|word| + 1] == 'm';
    assert (front + a)[|front|..] == a && (front + b)[|front|..] == b && (other + a)[|other|..] == a && (other + b)[|other|..] == b;
  }

  function YearVersionIdOf(f: Family, row: Row): string {
    var c := ColumnsOf(f, row);
    Three(c.year, "_", c.version, c.id)
  }

  /** Of two records of a family: a detail id is never a master id, and both ids are the same exactly when
      year, version and factor id, joined by underscores, are. */
  lemma IdsCompare(f: Family, a: Record, b: Record, inp: Input, rows: seq<Row>, dec: Reader, m: nat, n: nat)
    requires m < |rows| && n < |rows|
    requires a == RecordOf(f, inp, rows[m], m + 2, dec, a.index, a.skipped) && b == RecordOf(f, inp, rows[n], n + 2, dec, b.index, b.skipped)
    ensures forall r :: r in {a, b} ==> SourceFamilyDetailId in r.fields && SourceFamilyMasterId in r.fields
    ensures a.fields[SourceFamilyDetailId] != b.fields[SourceFamilyMasterId]
    ensures a.fields[SourceFamilyDetailId] == b.fields[SourceFamilyDetailId] <==> YearVersionIdOf(f, rows[m]) == YearVersionIdOf(f, rows[n])
    ensures a.fields[SourceFamilyMasterId] == b.fields[SourceFamilyMasterId] <==> YearVersionIdOf(f, rows[m]) == YearVersionIdOf(f, rows[n])
  {
    var word := Word(f);
    IdsHeld(f, inp, rows[m], m + 2, dec, a.index, a.skipped, word);
    IdsHeld(f, inp, rows[n], n + 2, dec, b.index, b.skipped, word);
    Tagged(word, YearVersionIdOf(f, rows[m]), YearVersionIdOf(f, rows[n]));
    hide *;
  }

  lemma IdsHeld(f: Family, inp: Input, row: Row, number: nat, dec: Reader, index: nat, skipped: nat, word: string)
    requires word == Word(f)
    ensures var r := RecordOf(f, inp, row, number, dec, index, skipped);
            && SourceFamilyDetailId in r.fields && r.fields[SourceFamilyDetailId] == Text(word + "_detail_" + YearVersionIdOf(f, row))
            && SourceFamilyMasterId in r.fields && r.fields[SourceFamilyMasterId] == Text(word + "_master_" + YearVersionIdOf(f, row))
  {
    CommonHolds(f, inp, row, number, dec, index, skipped, word);
    ColumnCells(f, row);
    hide RecordOf, Cell, Three, FamilyText, ColumnsOf, Word;
  }

  // ---------------------------------------------------------------- the columns of an accepted row

  lemma ColumnCells(f: Family, row: Row)
    ensures var c := ColumnsOf(f, row);
            && Cell(f, row, SourceYear) == c.year && Cell(f, row, SourceVersion) == c.version && Cell(f, row, FactorId) == c.id
            && Cell(f, row, FactorName) == c.name && Cell(f, row, Unit) == c.unit && DetailKey(f, row) == c.key
  {
    KeySpelled(row);
    match f {
      case Ghg => GhgCells(row);
      case Ipcc => IpccCells(row);
      case Defra => DefraCells(row);
    }
    hide Cell, At, Header, DetailKey;
  }

  /** The record of an accepted row holds its version, id, name and unit, its value as a decimal, and as detail
      id the family's word, the kind, and the three cells joined by underscores. */
  lemma RecordHolds(f: Family, inp: Input, row: Row, number: nat, dec: Reader, index: nat, skipped: nat)
    requires KindOf(f, row, dec).Accepted?
    ensures var r, c := RecordOf(f, inp, row, number, dec, index, skipped), ColumnsOf(f, row);
            && c.version != [] && c.id != [] && c.name != [] && c.unit != [] && dec(c.value).Some?
            && Has(r, SourceVersion, Text(c.version)) && Has(r, FactorId, Text(c.id)) && Has(r, FactorName, Text(c.name))
            && Has(r, Unit, Text(c.unit)) && Has(r, FactorValue, Dec(dec(c.value).value)) && Has(r, DetailExternalKey, Text(c.key))
            && Has(r, SourceFamilyDetailId, Text(Word(f) + "_detail_" + Three(c.year, "_", c.version, c.id)))
  {
    match f {
      case Ghg => GhgRecord(inp, row, number, dec, index, skipped); GhgAccepts(row, dec);
      case Ipcc => IpccRecord(inp, row, number, dec, index, skipped); IpccAccepts(row, dec);
      case Defra => DefraRecord(inp, row, number, dec, index, skipped); DefraAccepts(row, dec);
    }
    hide RecordOf, At, Has, KindOf, PlainYear, IntOf, Three;
  }
}
