/** The three normalized-CSV content parsers, from rows already split into cells: how each row is
    classified, which records come out, and what the result says. */
module NormalizedCsv {
  import opened Text
  import opened Footers
  import opened Fields

  datatype Family = Ghg | Ipcc | Defra

  function FamilyText(f: Family): string {
    match f case Ghg => "ghg_protocol" case Ipcc => "ipcc_efdb" case Defra => "defra_desnz"
  }

  function Header(f: Family): seq<Name> {
    match f
    case Ghg => [RecordType, SourceYear, SourceVersion, FactorId, FactorName, FactorValue, Unit, Category, Subcategory,
                 Scope, Gas, ProvenanceNote]
    case Ipcc => [RecordType, SourceYear, SourceVersion, FactorId, FactorName, FactorValue, Unit, Category, Subcategory,
                  IpccSector, Gas, Region, Technology, Provenance]
    case Defra => [SourceYear, SourceVersion, Category, Subcategory, Activity, FactorId, FactorName, FactorValue, Unit,
                   GreenhouseGas, Provenance]
  }

  function Required(f: Family): seq<Name> {
    match f
    case Ghg => [SourceYear, SourceVersion, FactorId, FactorName, FactorValue, Unit, Category]
    case Ipcc => [SourceYear, SourceVersion, FactorId, FactorName, FactorValue, Unit, Category, IpccSector, Gas, Provenance]
    case Defra => [SourceYear, SourceVersion, Category, FactorId, FactorName, FactorValue, Unit, Provenance]
  }

  /** What the parser was called with; blank texts were refused before. */
  datatype Input = Input(sourceId: string, artifact: string, checksum: Option<string>)

  predicate ValidInput(inp: Input) {
    Strip(inp.sourceId) != [] && Strip(inp.artifact) != [] && (inp.checksum.Some? ==> Strip(inp.checksum.value) != [])
  }

  // ---------------------------------------------------------------- one row

  type Row = seq<string>

  function Column(header: seq<Name>, name: Name): (k: nat)
    ensures k <= |header| && (k < |header| ==> header[k] == name)
    ensures k == |header| <==> name !in header
  {
    if header == [] || header[0] == name then 0 else Column(header[1..], name) + 1
  }

  /** The stripped cell of a column; a row may be shorter than the header. */
  function Cell(f: Family, row: Row, name: Name): string {
    var k := Column(Header(f), name);
    if k < |Header(f)| && k < |row| then Strip(row[k]) else []
  }

  predicate HasExtraCell(f: Family, row: Row) { |row| > |Header(f)| }

  predicate AllBlank(f: Family, row: Row) { forall name :: name in Header(f) ==> Cell(f, row, name) == [] }

  /** The GHG parser calls int() and takes a ValueError for 0; the others ask isdecimal() first. */
  function Year(f: Family, text: string): int {
    if f.Ghg? then Or(IntOf(text), 0) else if IsDecimal(text) then NatOf(text) else 0
  }

  /** The GHG parser takes every Decimal, the others drop commas and refuse exponents and non-finite values. */
  function FactorDecimal(f: Family, text: string, dec: string -> Option<Decimal>): Option<Decimal> {
    if f.Ghg? then dec(text)
    else if 'e' in Lower(text) then None
    else
      var d := dec(WithoutChar(text, ','));
      if d.Some? && d.value.finite then d else None
  }

  datatype Issue =
    | InvalidRow(row: nat)
    | UnsupportedSkipped(row: nat, recordType: string)
    | MissingField(row: nat, field: Name)
    | InvalidYear(row: nat)
    | InvalidValue(row: nat)
    | NoRecordsFound

  predicate IsError(issue: Issue) { !issue.UnsupportedSkipped? && !issue.NoRecordsFound? }

  function MissingFields(f: Family, row: Row, number: nat, names: seq<Name>): seq<Issue> {
    if names == [] then []
    else (if Cell(f, row, names[0]) == [] then [MissingField(number, names[0])] else []) + MissingFields(f, row, number, names[1..])
  }

  function RowIssues(f: Family, row: Row, number: nat, dec: string -> Option<Decimal>): seq<Issue> {
    MissingFields(f, row, number, Required(f))
    + (if Year(f, Cell(f, row, SourceYear)) < 1 then [InvalidYear(number)] else [])
    + (if FactorDecimal(f, Cell(f, row, FactorValue), dec).None? then [InvalidValue(number)] else [])
  }

  method CheckRow(f: Family, row: Row, number: nat, dec: string -> Option<Decimal>) returns (issues: seq<Issue>)
    ensures issues == RowIssues(f, row, number, dec)
  {
    hide Cell, Required, Year, FactorDecimal;
    issues := [];
    var names := Required(f);
    for i := 0 to |names|
      invariant issues + MissingFields(f, row, number, names[i..]) == MissingFields(f, row, number, names)
    {
      assert names[i..][1..] == names[i + 1..];
      if Cell(f, row, names[i]) == [] {
        Assoc(issues, [MissingField(number, names[i])], MissingFields(f, row, number, names[i + 1..]));
        issues := issues + [MissingField(number, names[i])];
      } else {
        assert [] + MissingFields(f, row, number, names[i + 1..]) == MissingFields(f, row, number, names[i + 1..]);
      }
    }
    assert issues + [] == issues;
    if Year(f, Cell(f, row, SourceYear)) < 1 { issues := issues + [InvalidYear(number)]; }
    else { assert issues + [] == issues; }
    if FactorDecimal(f, Cell(f, row, FactorValue), dec).None? { issues := issues + [InvalidValue(number)]; }
    else { assert issues + [] == issues; }
  }

  datatype Kind = Extra | Blank | Unsupported | Bad | Accepted

  const EMISSION_FACTOR := "emission_factor"

  function KindOf(f: Family, row: Row, dec: string -> Option<Decimal>): Kind {
    if HasExtraCell(f, row) then Extra
    else if AllBlank(f, row) then Blank
    else if !f.Defra? && Cell(f, row, RecordType) != EMISSION_FACTOR then Unsupported
    else if RowIssues(f, row, 0, dec) != [] then Bad
    else Accepted
  }

  lemma {:induction false} NoneMissing(f: Family, row: Row, number: nat, names: seq<Name>)
    ensures MissingFields(f, row, number, names) == [] <==> forall name :: name in names ==> Cell(f, row, name) != []
    ensures forall issue :: issue in MissingFields(f, row, number, names) ==> IsError(issue)
  {
    hide Cell;
    if names != [] {
      NoneMissing(f, row, number, names[1..]);
      assert names[0] in names;
      assert forall name :: name in names <==> name == names[0] || name in names[1..];
    }
  }

  /** No issue, whatever the row's number, exactly when the required cells are filled, the year is a
      positive integer and the value a decimal the parser takes. */
  lemma RowOk(f: Family, row: Row, number: nat, dec: string -> Option<Decimal>)
    ensures RowIssues(f, row, number, dec) == []
            <==> (forall name :: name in Required(f) ==> Cell(f, row, name) != [])
                 && Year(f, Cell(f, row, SourceYear)) >= 1 && FactorDecimal(f, Cell(f, row, FactorValue), dec).Some?
    ensures forall issue :: issue in RowIssues(f, row, number, dec) ==> IsError(issue)
  {
    hide Cell, Required, Year, FactorDecimal;
    NoneMissing(f, row, number, Required(f));
  }

  // ---------------------------------------------------------------- the record of an accepted row

  function OrNothing(s: string): Value { if s == [] then Nothing else Text(s) }

  function OptionText(s: Option<string>): Value { if s.Some? then Text(s.value) else Nothing }

  function Prefixed(f: Family, part: string): string {
    (match f case Ghg => "ghg" case Ipcc => "ipcc" case Defra => "defra") + part
  }

  function YearVersionId(f: Family, row: Row, separator: string): string {
    Cell(f, row, SourceYear) + separator + Cell(f, row, SourceVersion) + separator + Cell(f, row, FactorId)
  }

  function DetailKey(f: Family, row: Row): string { Cell(f, row, FactorId) + (":" + DetailTail(f, row)) }

  function DetailTail(f: Family, row: Row): string {
    var unit := Cell(f, row, Unit);
    match f
    case Ghg => unit
    case Ipcc => unit + ":" + Cell(f, row, Gas) + (":" + Cell(f, row, IpccSector))
    case Defra => unit + (":" + Cell(f, row, GreenhouseGas))
  }

  /** Every name some family writes. */
  const COLUMNS := {SourceFamily, SourceId, SourceYear, SourceVersion, FactorId, FactorName, FactorValue, Unit, Category,
                    Subcategory, Scope, Gas, ProvenanceNote, IpccSector, Region, Technology, Provenance, Activity,
                    GreenhouseGas, ProvenanceArtifactReference, ProvenanceChecksumAlgorithm, ProvenanceChecksumValue,
                    ProvenanceRowNumber, SourceFamilyMasterId, SourceFamilyDetailId, MasterExternalKey, DetailExternalKey}

  /** The fields every family's record has, and the ones of its own. */
  predicate Writes(f: Family, name: Name) {
    match name
    case Scope => f.Ghg?
    case ProvenanceNote => f.Ghg?
    case Gas => !f.Defra?
    case IpccSector => f.Ipcc?
    case Region => f.Ipcc?
    case Technology => f.Ipcc?
    case Provenance => !f.Ghg?
    case Activity => f.Defra?
    case GreenhouseGas => f.Defra?
    case RecordType => false
    case Late(_) => false
    case _ => true
  }

  function RawField(f: Family, inp: Input, row: Row, number: nat, dec: string -> Option<Decimal>, name: Name): Value {
    match name
    case SourceFamily => Text(FamilyText(f))
    case SourceId => Text(inp.sourceId)
    case SourceYear => Int(Year(f, Cell(f, row, SourceYear)))
    case FactorValue =>
      var d := FactorDecimal(f, Cell(f, row, FactorValue), dec);
      if d.Some? then Dec(d.value) else Nothing
    case ProvenanceArtifactReference => Text(inp.artifact)
    case ProvenanceChecksumAlgorithm => if inp.checksum.Some? then Text("sha256") else Nothing
    case ProvenanceChecksumValue => OptionText(inp.checksum)
    case ProvenanceRowNumber => Int(number)
    case SourceFamilyMasterId => Text(Prefixed(f, "_master_") + YearVersionId(f, row, "_"))
    case SourceFamilyDetailId => Text(Prefixed(f, "_detail_") + YearVersionId(f, row, "_"))
    case MasterExternalKey => Text(YearVersionId(f, row, ":"))
    case DetailExternalKey => Text(DetailKey(f, row))
    case Subcategory => OrNothing(Cell(f, row, name))
    case Scope => OrNothing(Cell(f, row, name))
    case ProvenanceNote => OrNothing(Cell(f, row, name))
    case Region => OrNothing(Cell(f, row, name))
    case Technology => OrNothing(Cell(f, row, name))
    case Activity => OrNothing(Cell(f, row, name))
    case GreenhouseGas => OrNothing(Cell(f, row, name))
    case Gas => if f.Ghg? then OrNothing(Cell(f, row, name)) else Text(Cell(f, row, name))
    case _ => Text(Cell(f, row, name))
  }

  function RawFields(f: Family, inp: Input, row: Row, number: nat, dec: string -> Option<Decimal>): FieldMap {
    map name | name in COLUMNS && Writes(f, name) :: RawField(f, inp, row, number, dec, name)
  }

  datatype Record = Record(sourceFamily: string, sourceId: string, index: nat, rowNumber: nat, fields: FieldMap,
                           artifact: Option<string>, checksum: Option<string>, skipped: nat)

  /** The DEFRA parser leaves the checksum out of a record's source context and counts no skipped rows. */
  function RecordOf(f: Family, inp: Input, row: Row, number: nat, dec: string -> Option<Decimal>, index: nat, skipped: nat): Record {
    Record(FamilyText(f), inp.sourceId, index, number, RawFields(f, inp, row, number, dec), Some(inp.artifact),
           if f.Defra? then None else inp.checksum, skipped)
  }

  // ---------------------------------------------------------------- the loop

  datatype Tally = Tally(issues: seq<Issue>, records: seq<Record>, skipped: nat)

  function TakeRow(f: Family, inp: Input, t: Tally, row: Row, number: nat, dec: string -> Option<Decimal>): Tally {
    match KindOf(f, row, dec)
    case Extra => t.(issues := t.issues + [InvalidRow(number)])
    case Blank => t
    case Unsupported =>
      t.(issues := t.issues + [UnsupportedSkipped(number, Cell(f, row, RecordType))], skipped := t.skipped + 1)
    case Bad => t.(issues := t.issues + RowIssues(f, row, number, dec))
    case Accepted => t.(records := t.records + [RecordOf(f, inp, row, number, dec, |t.records| + 1, t.skipped)])
  }

  /** Row numbers count from 2: the header is row 1. */
  function Scan(f: Family, inp: Input, rows: seq<Row>, dec: string -> Option<Decimal>): Tally {
    if rows == [] then Tally([], [], 0)
    else
      var n := |rows| - 1;
      TakeRow(f, inp, Scan(f, inp, rows[..n], dec), rows[n], n + 2, dec)
  }

  datatype Status = Success | Failed | NoRecords

  datatype Result = Result(status: Status, count: nat, issues: seq<Issue>, skipped: nat, payload: Option<seq<Record>>)

  function Nonempty(records: seq<Record>): Option<seq<Record>> { if records == [] then None else Some(records) }

  predicate AnyError(issues: seq<Issue>) { exists issue :: issue in issues && IsError(issue) }

  /** What becomes of the tally. A failed GHG parse reports no count and no payload; the others do. */
  function Finish(f: Family, t: Tally): Result {
    if AnyError(t.issues) then
      if f.Ghg? then Result(Failed, 0, t.issues, t.skipped, None)
      else Result(Failed, |t.records|, t.issues, t.skipped, Nonempty(t.records))
    else if t.records == [] then Result(NoRecords, 0, t.issues + [NoRecordsFound], t.skipped, None)
    else Result(Success, |t.records|, t.issues, t.skipped, Some(t.records))
  }

  function FirstExtra(f: Family, rows: seq<Row>): (k: nat)
    ensures k <= |rows| && forall i :: 0 <= i < k ==> !HasExtraCell(f, rows[i])
    ensures k < |rows| ==> HasExtraCell(f, rows[k])
  {
    if rows == [] || HasExtraCell(f, rows[0]) then 0 else FirstExtra(f, rows[1..]) + 1
  }

  /** The DEFRA parser gives up at the first row with a cell too many. */
  function Parsed(f: Family, inp: Input, rows: seq<Row>, dec: string -> Option<Decimal>): Result {
    var k := FirstExtra(f, rows);
    if f.Defra? && k < |rows| then Result(Failed, 0, [InvalidRow(k + 2)], 0, None)
    else Finish(f, Scan(f, inp, rows, dec))
  }

  lemma ScanMore(f: Family, inp: Input, rows: seq<Row>, i: nat, dec: string -> Option<Decimal>)
    requires i < |rows|
    ensures Scan(f, inp, rows[..i + 1], dec) == TakeRow(f, inp, Scan(f, inp, rows[..i], dec), rows[i], i + 2, dec)
  {
    hide TakeRow;
    assert rows[..i + 1][..i] == rows[..i];
  }

  /** The GHG and IPCC loops, which differ in the row checks and in what a failure reports. */
  method ParseNormalized(f: Family, inp: Input, rows: seq<Row>, dec: string -> Option<Decimal>) returns (r: Result)
    requires !f.Defra?
    ensures r == Parsed(f, inp, rows, dec)
  {
    hide RecordOf, RowIssues, AllBlank, Cell, HasExtraCell;
    var issues: seq<Issue>, records: seq<Record>, count: nat, skipped: nat := [], [], 0, 0;
    for i := 0 to |rows|
      invariant Tally(issues, records, skipped) == Scan(f, inp, rows[..i], dec) && count == |records|
    {
      ScanMore(f, inp, rows, i, dec);
      var row, rowNumber := rows[i], i + 2;
      if HasExtraCell(f, row) {
        issues := issues + [InvalidRow(rowNumber)];
        continue;
      }
      if AllBlank(f, row) { continue; }
      if Cell(f, row, RecordType) != EMISSION_FACTOR {
        skipped := skipped + 1;
        issues := issues + [UnsupportedSkipped(rowNumber, Cell(f, row, RecordType))];
        continue;
      }
      var rowIssues := CheckRow(f, row, rowNumber, dec);
      SameIssues(f, row, rowNumber, dec);
      issues := issues + rowIssues;
      if rowIssues != [] { continue; }
      count := count + 1;
      records := records + [RecordOf(f, inp, row, rowNumber, dec, count, skipped)];
    }
    assert rows[..|rows|] == rows;
    return Finish(f, Tally(issues, records, skipped));
  }

  lemma SameIssues(f: Family, row: Row, number: nat, dec: string -> Option<Decimal>)
    ensures RowIssues(f, row, number, dec) == [] <==> RowIssues(f, row, 0, dec) == []
  {
    hide RowIssues;
    RowOk(f, row, number, dec);
    RowOk(f, row, 0, dec);
  }

  method ParseDefraNormalized(inp: Input, rows: seq<Row>, dec: string -> Option<Decimal>) returns (r: Result)
    ensures r == Parsed(Defra, inp, rows, dec)
  {
    hide RecordOf, RowIssues, AllBlank, Cell, HasExtraCell;
    var issues: seq<Issue>, records: seq<Record>, count: nat := [], [], 0;
    for i := 0 to |rows|
      invariant i <= FirstExtra(Defra, rows)
      invariant Tally(issues, records, 0) == Scan(Defra, inp, rows[..i], dec) && count == |records|
    {
      ScanMore(Defra, inp, rows, i, dec);
      var row, rowNumber := rows[i], i + 2;
      if HasExtraCell(Defra, row) { return Result(Failed, 0, [InvalidRow(rowNumber)], 0, None); }
      if AllBlank(Defra, row) { continue; }
      var rowIssues := CheckRow(Defra, row, rowNumber, dec);
      SameIssues(Defra, row, rowNumber, dec);
      issues := issues + rowIssues;
      if rowIssues != [] { continue; }
      count := count + 1;
      records := records + [RecordOf(Defra, inp, row, rowNumber, dec, count, 0)];
    }
    assert rows[..|rows|] == rows;
    return Finish(Defra, Tally(issues, records, 0));
  }

  // ---------------------------------------------------------------- what the parse means

  predicate RowInError(f: Family, row: Row, dec: string -> Option<Decimal>) {
    KindOf(f, row, dec).Extra? || KindOf(f, row, dec).Bad?
  }

  function Count(f: Family, rows: seq<Row>, dec: string -> Option<Decimal>, kind: Kind): nat {
    if rows == [] then 0
    else
      var n := |rows| - 1;
      Count(f, rows[..n], dec, kind) + if KindOf(f, rows[n], dec) == kind then 1 else 0
  }

  function InvalidRows(issues: seq<Issue>): nat {
    if issues == [] then 0 else InvalidRows(issues[..|issues| - 1]) + if issues[|issues| - 1].InvalidRow? then 1 else 0
  }

  lemma {:induction false} InvalidAppend(a: seq<Issue>, b: seq<Issue>)
    ensures InvalidRows(a + b) == InvalidRows(a) + InvalidRows(b)
    decreases |b|
  {
    if b == [] {
      assert a + b == a;
    } else {
      assert (a + b)[..|a + b| - 1] == a + b[..|b| - 1];
      InvalidAppend(a, b[..|b| - 1]);
    }
  }

  lemma {:induction false} NoInvalidRow(issues: seq<Issue>)
    requires forall issue :: issue in issues ==> !issue.InvalidRow?
    ensures InvalidRows(issues) == 0
    decreases |issues|
  {
    if issues != [] {
      assert issues[|issues| - 1] in issues;
      assert forall issue :: issue in issues[..|issues| - 1] ==> issue in issues;
      NoInvalidRow(issues[..|issues| - 1]);
    }
  }

  lemma {:induction false} OnlyMissing(f: Family, row: Row, number: nat, names: seq<Name>)
    ensures forall issue :: issue in MissingFields(f, row, number, names) ==> issue.MissingField?
  {
    hide Cell;
    if names != [] { OnlyMissing(f, row, number, names[1..]); }
  }

  lemma RowIssuesValid(f: Family, row: Row, number: nat, dec: string -> Option<Decimal>)
    ensures InvalidRows(RowIssues(f, row, number, dec)) == 0
  {
    hide Cell, Required, Year, FactorDecimal;
    OnlyMissing(f, row, number, Required(f));
    NoInvalidRow(RowIssues(f, row, number, dec));
  }

  /** What one row adds to the counters of the loop. */
  lemma RowTallied(f: Family, inp: Input, t: Tally, row: Row, number: nat, dec: string -> Option<Decimal>)
    ensures var u := TakeRow(f, inp, t, row, number, dec);
            && |u.records| == |t.records| + (if KindOf(f, row, dec).Accepted? then 1 else 0)
            && u.skipped == t.skipped + (if KindOf(f, row, dec).Unsupported? then 1 else 0)
            && InvalidRows(u.issues) == InvalidRows(t.issues) + (if KindOf(f, row, dec).Extra? then 1 else 0)
  {
    hide KindOf, RecordOf, RowIssues, Cell;
    match KindOf(f, row, dec)
    case Extra => assert (t.issues + [InvalidRow(number)])[..|t.issues|] == t.issues;
    case Blank =>
    case Unsupported =>
      var skipped := UnsupportedSkipped(number, Cell(f, row, RecordType));
      assert (t.issues + [skipped])[..|t.issues|] == t.issues;
    case Bad =>
      InvalidAppend(t.issues, RowIssues(f, row, number, dec));
      RowIssuesValid(f, row, number, dec);
    case Accepted =>
  }

  /** The counters of the loop count the rows of each kind, and every row that is neither blank nor in
      error is accepted or skipped: the accepted, skipped, malformed, faulty and blank rows are all the
      rows. DEFRA skips none. */
  lemma {:induction false} KindsPartition(f: Family, inp: Input, rows: seq<Row>, dec: string -> Option<Decimal>)
    ensures var t := Scan(f, inp, rows, dec);
            && |t.records| == Count(f, rows, dec, Accepted) && t.skipped == Count(f, rows, dec, Unsupported)
            && InvalidRows(t.issues) == Count(f, rows, dec, Extra)
            && |t.records| + t.skipped + InvalidRows(t.issues) + Count(f, rows, dec, Bad) + Count(f, rows, dec, Blank) == |rows|
            && (f.Defra? ==> t.skipped == 0)
    decreases |rows|
  {
    hide TakeRow, InvalidRows, KindOf;
    if rows != [] {
      var n := |rows| - 1;
      KindsPartition(f, inp, rows[..n], dec);
      RowTallied(f, inp, Scan(f, inp, rows[..n], dec), rows[n], n + 2, dec);
      CountMore(f, rows, dec);
      DefraSkipsNone(f, rows[n], dec);
      hide Count;
    } else {
      NoInvalidRow([]);
    }
  }

  lemma CountMore(f: Family, rows: seq<Row>, dec: string -> Option<Decimal>)
    requires rows != []
    ensures var n := |rows| - 1;
            forall kind :: Count(f, rows, dec, kind) == Count(f, rows[..n], dec, kind) + if KindOf(f, rows[n], dec) == kind then 1 else 0
  {
    hide KindOf;
  }

  lemma DefraSkipsNone(f: Family, row: Row, dec: string -> Option<Decimal>)
    ensures f.Defra? ==> !KindOf(f, row, dec).Unsupported?
  {
    hide RowIssues, AllBlank, Cell, HasExtraCell;
  }

  /** The positions of the accepted rows. */
  function AcceptedAt(f: Family, rows: seq<Row>, dec: string -> Option<Decimal>): seq<nat> {
    if rows == [] then []
    else
      var n := |rows| - 1;
      AcceptedAt(f, rows[..n], dec) + if KindOf(f, rows[n], dec).Accepted? then [n] else []
  }

  predicate Increasing(at: seq<nat>, bound: nat) {
    && (forall k :: 0 <= k < |at| ==> at[k] < bound)
    && forall j, k :: 0 <= j < k < |at| ==> at[j] < at[k]
  }

  lemma {:induction false} AcceptedAtIncreasing(f: Family, rows: seq<Row>, dec: string -> Option<Decimal>)
    ensures Increasing(AcceptedAt(f, rows, dec), |rows|)
    ensures |AcceptedAt(f, rows, dec)| == Count(f, rows, dec, Accepted)
  {
    hide KindOf;
    if rows != [] { AcceptedAtIncreasing(f, rows[..|rows| - 1], dec); }
  }

  lemma {:induction false} AcceptedAtMeans(f: Family, rows: seq<Row>, dec: string -> Option<Decimal>, i: nat)
    requires i < |rows|
    ensures i in AcceptedAt(f, rows, dec) <==> KindOf(f, rows[i], dec).Accepted?
  {
    hide KindOf;
    var n := |rows| - 1;
    if i < n {
      AcceptedAtMeans(f, rows[..n], dec, i);
      assert rows[..n][i] == rows[i];
    } else {
      AcceptedAtIncreasing(f, rows[..n], dec);
    }
  }

  /** Record k is the k-th accepted row, with index k and that row's number, and remembers how many
      rows had been skipped before it. */
  ghost predicate RecordIs(f: Family, inp: Input, rows: seq<Row>, dec: string -> Option<Decimal>, record: Record, at: nat, k: nat) {
    && at < |rows|
    && record == RecordOf(f, inp, rows[at], at + 2, dec, k + 1, Count(f, rows[..at], dec, Unsupported))
  }

  ghost predicate RecordsAre(f: Family, inp: Input, rows: seq<Row>, dec: string -> Option<Decimal>, records: seq<Record>) {
    var at := AcceptedAt(f, rows, dec);
    && |records| == |at|
    && forall k :: 0 <= k < |at| ==> RecordIs(f, inp, rows, dec, records[k], at[k], k)
  }

  lemma RecordStays(f: Family, inp: Input, rows: seq<Row>, n: nat, dec: string -> Option<Decimal>, record: Record, at: nat, k: nat)
    requires n <= |rows| && RecordIs(f, inp, rows[..n], dec, record, at, k)
    ensures RecordIs(f, inp, rows, dec, record, at, k)
  {
    hide RecordOf, Count;
    assert rows[..n][at] == rows[at] && rows[..n][..at] == rows[..at];
  }

  lemma RecordsStay(f: Family, inp: Input, rows: seq<Row>, n: nat, dec: string -> Option<Decimal>, records: seq<Record>)
    requires n <= |rows| && RecordsAre(f, inp, rows[..n], dec, records)
    ensures var at := AcceptedAt(f, rows[..n], dec);
            |records| == |at| && forall k :: 0 <= k < |at| ==> RecordIs(f, inp, rows, dec, records[k], at[k], k)
  {
    hide AcceptedAt, RecordIs;
    var at := AcceptedAt(f, rows[..n], dec);
    forall k | 0 <= k < |at| ensures RecordIs(f, inp, rows, dec, records[k], at[k], k) {
      RecordStays(f, inp, rows, n, dec, records[k], at[k], k);
    }
  }

  lemma AppendRecord(f: Family, inp: Input, rows: seq<Row>, dec: string -> Option<Decimal>, records: seq<Record>, record: Record)
    requires rows != []
    requires var n, at := |rows| - 1, AcceptedAt(f, rows[..|rows| - 1], dec);
             && |records| == |at| && (forall k :: 0 <= k < |at| ==> RecordIs(f, inp, rows, dec, records[k], at[k], k))
             && RecordIs(f, inp, rows, dec, record, n, |at|) && KindOf(f, rows[n], dec).Accepted?
    ensures RecordsAre(f, inp, rows, dec, records + [record])
  {
    hide AcceptedAt, RecordIs, KindOf;
    AcceptedAtMore(f, rows, dec);
    var n, before := |rows| - 1, AcceptedAt(f, rows[..|rows| - 1], dec);
    forall k | 0 <= k < |before| + 1 ensures RecordIs(f, inp, rows, dec, (records + [record])[k], (before + [n])[k], k) {
      if k < |before| { assert (records + [record])[k] == records[k]; }
    }
  }

  lemma AcceptedAtMore(f: Family, rows: seq<Row>, dec: string -> Option<Decimal>)
    requires rows != [] && KindOf(f, rows[|rows| - 1], dec).Accepted?
    ensures AcceptedAt(f, rows, dec) == AcceptedAt(f, rows[..|rows| - 1], dec) + [|rows| - 1]
  {
    hide KindOf;
  }

  lemma {:induction false} ScanRecords(f: Family, inp: Input, rows: seq<Row>, dec: string -> Option<Decimal>)
    ensures var t := Scan(f, inp, rows, dec);
            RecordsAre(f, inp, rows, dec, t.records) && t.skipped == Count(f, rows, dec, Unsupported)
  {
    hide KindOf, RecordOf, RowIssues, Cell, RecordIs;
    if rows != [] {
      var n := |rows| - 1;
      var t := Scan(f, inp, rows[..n], dec);
      ScanRecords(f, inp, rows[..n], dec);
      RecordsStay(f, inp, rows, n, dec, t.records);
      if KindOf(f, rows[n], dec).Accepted? {
        var record := RecordOf(f, inp, rows[n], n + 2, dec, |t.records| + 1, t.skipped);
        NewRecordIs(f, inp, rows, dec, t.skipped, |t.records|);
        AppendRecord(f, inp, rows, dec, t.records, record);
        assert Scan(f, inp, rows, dec).records == t.records + [record];
        hide RecordsAre;
      }
    }
  }

  lemma NewRecordIs(f: Family, inp: Input, rows: seq<Row>, dec: string -> Option<Decimal>, skipped: nat, k: nat)
    requires rows != [] && skipped == Count(f, rows[..|rows| - 1], dec, Unsupported)
    ensures var n := |rows| - 1;
            RecordIs(f, inp, rows, dec, RecordOf(f, inp, rows[n], n + 2, dec, k + 1, skipped), n, k)
  {
    hide RecordOf, Count;
  }

  predicate AnyRowInError(f: Family, rows: seq<Row>, dec: string -> Option<Decimal>) {
    exists i :: 0 <= i < |rows| && RowInError(f, rows[i], dec)
  }

  lemma AnyRowMore(f: Family, rows: seq<Row>, dec: string -> Option<Decimal>)
    requires rows != []
    ensures AnyRowInError(f, rows, dec)
            <==> AnyRowInError(f, rows[..|rows| - 1], dec) || RowInError(f, rows[|rows| - 1], dec)
  {
    hide RowInError;
    var n := |rows| - 1;
    if AnyRowInError(f, rows[..n], dec) {
      var i :| 0 <= i < n && RowInError(f, rows[..n][i], dec);
      assert RowInError(f, rows[i], dec);
    }
    if AnyRowInError(f, rows, dec) {
      var i :| 0 <= i < |rows| && RowInError(f, rows[i], dec);
      if i < n { assert RowInError(f, rows[..n][i], dec); }
    }
  }

  lemma {:induction false} ScanErrors(f: Family, inp: Input, rows: seq<Row>, dec: string -> Option<Decimal>)
    ensures AnyError(Scan(f, inp, rows, dec).issues) <==> AnyRowInError(f, rows, dec)
  {
    if rows != [] {
      var n := |rows| - 1;
      ScanErrors(f, inp, rows[..n], dec);
      TakeRowErrors(f, inp, Scan(f, inp, rows[..n], dec), rows[n], n + 2, dec);
      AnyRowMore(f, rows, dec);
      hide RowInError, AnyError, AnyRowInError, TakeRow;
    }
  }

  lemma TakeRowErrors(f: Family, inp: Input, t: Tally, row: Row, number: nat, dec: string -> Option<Decimal>)
    ensures AnyError(TakeRow(f, inp, t, row, number, dec).issues) <==> AnyError(t.issues) || RowInError(f, row, dec)
  {
    hide RowIssues, AllBlank, Cell, HasExtraCell, RecordOf;
    var issues := TakeRow(f, inp, t, row, number, dec).issues;
    RowOk(f, row, number, dec);
    SameIssues(f, row, number, dec);
    assert t.issues <= issues;
    assert forall issue :: issue in t.issues ==> issue in issues;
    if RowInError(f, row, dec) { assert IsError(issues[|t.issues|]); }
  }

  /** SUCCESS exactly when no row is in error and one is accepted, FAILED exactly when one is in error;
      a success carries one record per accepted row, in row order, and counts them. */
  lemma ParsedMeans(f: Family, inp: Input, rows: seq<Row>, dec: string -> Option<Decimal>)
    ensures var r, at := Parsed(f, inp, rows, dec), AcceptedAt(f, rows, dec);
            && (r.status.Failed? <==> AnyRowInError(f, rows, dec))
            && (r.status.Success? <==> !AnyRowInError(f, rows, dec) && at != [])
            && (r.status.Success? ==>
                  && r.payload.Some? && |r.payload.value| == r.count == |at| > 0
                  && RecordsAre(f, inp, rows, dec, r.payload.value) && r.skipped == Count(f, rows, dec, Unsupported))
  {
    ScanErrors(f, inp, rows, dec);
    ScanRecords(f, inp, rows, dec);
    var k := FirstExtra(f, rows);
    if k < |rows| { assert RowInError(f, rows[k], dec); }
    hide Scan, RowInError, AcceptedAt, AnyError;
  }

  /** Indices run from 1 and row numbers strictly increase. */
  lemma RecordsNumbered(f: Family, inp: Input, rows: seq<Row>, dec: string -> Option<Decimal>, records: seq<Record>)
    requires RecordsAre(f, inp, rows, dec, records)
    ensures forall k :: 0 <= k < |records| ==> records[k].index == k + 1
    ensures forall j, k :: 0 <= j < k < |records| ==> records[j].rowNumber < records[k].rowNumber
  {
    AcceptedAtIncreasing(f, rows, dec);
    hide AcceptedAt, RawFields;
    assert forall k :: 0 <= k < |records| ==> RecordIs(f, inp, rows, dec, records[k], AcceptedAt(f, rows, dec)[k], k);
  }

  // ---------------------------------------------------------------- failures

  /** What a failed parse hands on: the GHG parser nothing, the others the records accepted all the same,
      except that the DEFRA parser gives up at a row with a cell too many and names the first. */
  lemma FailedMeans(f: Family, inp: Input, rows: seq<Row>, dec: string -> Option<Decimal>)
    requires Parsed(f, inp, rows, dec).status.Failed?
    ensures var r, at, k := Parsed(f, inp, rows, dec), AcceptedAt(f, rows, dec), FirstExtra(f, rows);
            if f.Ghg? then r.count == 0 && r.payload.None?
            else if f.Defra? && k < |rows| then r.count == 0 && r.payload.None? && r.issues == [InvalidRow(k + 2)]
            else r.count == |at| && (r.payload.None? <==> at == [])
                 && (r.payload.Some? ==> RecordsAre(f, inp, rows, dec, r.payload.value))
  {
    hide Scan, AcceptedAt, AnyError, RecordIs, FirstExtra, Finish;
    ScanRecords(f, inp, rows, dec);
    var t := Scan(f, inp, rows, dec);
    if !(f.Defra? && FirstExtra(f, rows) < |rows|) { FinishFailed(f, t); }
  }

  lemma FinishFailed(f: Family, t: Tally)
    requires Finish(f, t).status.Failed?
    ensures if f.Ghg? then Finish(f, t).count == 0 && Finish(f, t).payload.None?
            else Finish(f, t).count == |t.records| && Finish(f, t).payload == Nonempty(t.records)
  {
    hide AnyError;
  }

  /** The issue a row of this kind gives rise to. */
  predicate Reports(f: Family, row: Row, dec: string -> Option<Decimal>, issue: Issue) {
    match issue
    case InvalidRow(_) => KindOf(f, row, dec).Extra?
    case UnsupportedSkipped(_, text) => KindOf(f, row, dec).Unsupported? && text == Cell(f, row, RecordType)
    case MissingField(_, name) => KindOf(f, row, dec).Bad? && name in Required(f) && Cell(f, row, name) == []
    case InvalidYear(_) => KindOf(f, row, dec).Bad? && Year(f, Cell(f, row, SourceYear)) < 1
    case InvalidValue(_) => KindOf(f, row, dec).Bad? && FactorDecimal(f, Cell(f, row, FactorValue), dec).None?
    case NoRecordsFound => false
  }

  lemma {:induction false} MissingMean(f: Family, row: Row, number: nat, names: seq<Name>, issue: Issue)
    ensures issue in MissingFields(f, row, number, names)
            <==> issue.MissingField? && issue.row == number && issue.field in names && Cell(f, row, issue.field) == []
  {
    hide Cell;
    if names != [] {
      MissingMean(f, row, number, names[1..], issue);
      assert forall name :: name in names <==> name == names[0] || name in names[1..];
    }
  }

  lemma RowIssuesMean(f: Family, row: Row, number: nat, dec: string -> Option<Decimal>, issue: Issue)
    requires KindOf(f, row, dec).Bad?
    ensures issue in RowIssues(f, row, number, dec) <==> !issue.NoRecordsFound? && issue.row == number && Reports(f, row, dec, issue)
  {
    hide Cell, Required, Year, FactorDecimal, AllBlank, HasExtraCell, MissingFields;
    MissingMean(f, row, number, Required(f), issue);
  }

  lemma TakenIssue(f: Family, inp: Input, t: Tally, row: Row, number: nat, dec: string -> Option<Decimal>, issue: Issue)
    ensures issue in TakeRow(f, inp, t, row, number, dec).issues
            <==> issue in t.issues || (!issue.NoRecordsFound? && issue.row == number && Reports(f, row, dec, issue))
  {
    hide KindOf, Cell, RecordOf, RowIssues, Required, Year, FactorDecimal;
    if KindOf(f, row, dec).Bad? { RowIssuesMean(f, row, number, dec, issue); }
  }

  /** The issues are sound and complete, row by row: each names a row that gives rise to it, and every
      row's issues are there. */
  lemma {:induction false} IssuesMean(f: Family, inp: Input, rows: seq<Row>, dec: string -> Option<Decimal>, issue: Issue)
    ensures issue in Scan(f, inp, rows, dec).issues
            <==> !issue.NoRecordsFound? && 2 <= issue.row < |rows| + 2 && Reports(f, rows[issue.row - 2], dec, issue)
    decreases |rows|
  {
    hide TakeRow, Reports;
    if rows != [] {
      var n := |rows| - 1;
      IssuesMean(f, inp, rows[..n], dec, issue);
      TakenIssue(f, inp, Scan(f, inp, rows[..n], dec), rows[n], n + 2, dec, issue);
    }
  }

  /** What a parse that goes through all rows reports: the issues of its rows, and that nothing was found when no row
      is in error and none accepted; then it hands on nothing. Rows of another type are counted either way. */
  lemma ResultMeans(f: Family, inp: Input, rows: seq<Row>, dec: string -> Option<Decimal>, issue: Issue)
    requires f.Defra? ==> FirstExtra(f, rows) == |rows|
    ensures var r := Parsed(f, inp, rows, dec);
            && (issue in r.issues <==>
                  if issue.NoRecordsFound? then r.status.NoRecords?
                  else 2 <= issue.row < |rows| + 2 && Reports(f, rows[issue.row - 2], dec, issue))
            && (r.status.NoRecords? <==> !AnyRowInError(f, rows, dec) && AcceptedAt(f, rows, dec) == [])
            && (r.status.NoRecords? ==> r.count == 0 && r.payload.None?)
            && r.skipped == Count(f, rows, dec, Unsupported)
  {
    hide Reports, AcceptedAt, AnyRowInError, RecordsAre, FirstExtra, AnyError;
    var t := Scan(f, inp, rows, dec);
    IssuesMean(f, inp, rows, dec, issue);
    ParsedMeans(f, inp, rows, dec);
    ScanRecords(f, inp, rows, dec);
    hide Scan;
    assert issue in t.issues + [NoRecordsFound] <==> issue in t.issues || issue.NoRecordsFound?;
  }
}
