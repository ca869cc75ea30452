/** The DEFRA path and the data-quality pass together: what the mapper makes of a successful parse is
    complete and numeric, so the pass complains of nothing but repeated factors. */
module DefraQuality {
  import opened Text
  import opened Fields
  import opened Sorting
  import Csv = NormalizedCsv
  import P = ParsedPersistence
  import D = DefraChain
  import Q = DataQuality

  function CellValue(c: D.Cell): Q.Value {
    match c case Absent => Q.Nothing case TextCell(s) => Q.Text(s) case IntCell(n) => Q.Int(n) case FloatCell(x) => Q.Float(x)
  }

  /** The normalized field a name of the pass stands for; no record has a document id. */
  function KeyOf(name: Q.FieldName): Option<D.Key> {
    match name
    case SourceFamily => Some(D.KFamily)
    case SourceId => Some(D.KId)
    case SourceYear => Some(D.KYear)
    case SourceVersion => Some(D.KVersion)
    case FactorId => Some(D.KFactorId)
    case FactorName => Some(D.KFactorName)
    case FactorValue => Some(D.KValue)
    case Unit => Some(D.KUnit)
    case Provenance => Some(D.KProvenance)
    case RowNumber => Some(D.KRow)
    case SourceDocumentId => None
    case DocumentId => None
  }

  const NAMES := {Q.SourceFamily, Q.SourceId, Q.SourceYear, Q.SourceVersion, Q.FactorId, Q.FactorName, Q.FactorValue, Q.Unit,
                  Q.Provenance, Q.RowNumber}

  /** dict(record.fields) as the pass reads it. */
  function Seen(n: D.Normalized): Q.Record {
    Q.Record(map name | name in NAMES && KeyOf(name).Some? :: CellValue(D.FieldOf(n.fields, KeyOf(name).value)), n.sourceReference)
  }

  lemma SeenAt(n: D.Normalized, name: Q.FieldName)
    ensures Q.At(Seen(n), name) == if KeyOf(name).Some? then CellValue(D.FieldOf(n.fields, KeyOf(name).value)) else Q.Nothing
  {
    hide D.FieldOf;
  }

  // ---------------------------------------------------------------- one accepted row

  function YearOf(row: Csv.Row): int { Csv.Year(Csv.Defra, Csv.Cell(Csv.Defra, row, SourceYear)) }

  function MappedRow(inp: Csv.Input, row: Csv.Row, number: nat, dec: D.Dec, index: nat, skipped: nat, toFloat: D.ToFloat): D.Normalized {
    D.NormalizedOf(Csv.RecordOf(Csv.Defra, inp, row, number, dec, index, skipped), toFloat)
  }

  lemma YearField(r: Csv.Record, toFloat: D.ToFloat)
    requires D.IsExtraction(r)
    ensures D.FieldOf(D.NormalizedOf(r, toFloat).fields, D.KYear) == D.TextCell(D.TextOf(D.Raw(r, SourceYear)))
    ensures D.FieldOf(D.NormalizedOf(r, toFloat).fields, D.KValue).FloatCell?
  {
    hide D.FieldOf, D.TextOf, D.Raw, D.OptionalCell, D.IsExtraction, D.Id;
    var source, factor := D.SourceFields(r), D.FactorFields(r, toFloat);
    D.FactorKeys(r, toFloat);
    D.FieldBefore(source, factor, D.KYear);
    D.FieldAt(source, 2);
    D.FieldBehind(source, factor, D.KValue, 2);
  }

  /** The year is read back from its text. */
  lemma YearText(row: Csv.Row, dec: D.Dec)
    requires P.Accepted(Csv.Defra, row, dec)
    ensures D.TextOf(Int(YearOf(row))) == IntText(YearOf(row)) && Strip(IntText(YearOf(row))) == IntText(YearOf(row)) != []
    ensures IntOf(IntText(YearOf(row))) == Some(YearOf(row))
  {
    hide Csv.Cell, Csv.Year, IntOf, Strip, P.Accepted;
    P.AcceptedCells(Csv.Defra, row, dec);
    P.PositiveReads(YearOf(row));
    DigitsStripped(YearOf(row));
    IntOfText(YearOf(row));
  }

  /** What the pass sees of an accepted row. */
  predicate SeenAs(q: Q.Record, inp: Csv.Input, row: Csv.Row) {
    && Q.At(q, Q.SourceFamily) == Q.Text("defra_desnz") && Q.At(q, Q.SourceId) == Q.Text(inp.sourceId)
    && Q.At(q, Q.SourceYear) == Q.Text(IntText(YearOf(row)))
    && Q.At(q, Q.SourceVersion) == Q.Text(Csv.Cell(Csv.Defra, row, SourceVersion))
    && Q.At(q, Q.FactorId) == Q.Text(Csv.Cell(Csv.Defra, row, FactorId))
    && Q.At(q, Q.FactorName) == Q.Text(Csv.Cell(Csv.Defra, row, FactorName))
    && Q.At(q, Q.FactorValue).Float?
    && Q.At(q, Q.Unit) == Q.Text(Csv.Cell(Csv.Defra, row, Unit))
  }

  lemma RowSeen(inp: Csv.Input, row: Csv.Row, number: nat, dec: D.Dec, index: nat, skipped: nat, toFloat: D.ToFloat)
    requires P.Accepted(Csv.Defra, row, dec) && Csv.ValidInput(inp) && index >= 1
    ensures SeenAs(Seen(MappedRow(inp, row, number, dec, index, skipped, toFloat)), inp, row)
  {
    hide Seen, MappedRow, Csv.Cell, P.Accepted, Q.At, YearOf, IntText, Csv.ValidInput;
    SourceSeen(inp, row, number, dec, index, skipped, toFloat);
    YearSeen(inp, row, number, dec, index, skipped, toFloat);
    TextSeen(inp, row, number, dec, index, skipped, toFloat, Q.SourceVersion);
    TextSeen(inp, row, number, dec, index, skipped, toFloat, Q.FactorId);
    TextSeen(inp, row, number, dec, index, skipped, toFloat, Q.FactorName);
    TextSeen(inp, row, number, dec, index, skipped, toFloat, Q.Unit);
  }

  lemma SourceSeen(inp: Csv.Input, row: Csv.Row, number: nat, dec: D.Dec, index: nat, skipped: nat, toFloat: D.ToFloat)
    requires P.Accepted(Csv.Defra, row, dec) && Csv.ValidInput(inp) && index >= 1
    ensures var q := Seen(MappedRow(inp, row, number, dec, index, skipped, toFloat));
            Q.At(q, Q.SourceFamily) == Q.Text("defra_desnz") && Q.At(q, Q.SourceId) == Q.Text(inp.sourceId)
  {
    hide Seen, D.NormalizedOf, D.IsExtraction, Csv.RawFields, P.Accepted, D.FieldOf, Q.At, P.GoodRecord, D.Mappable, D.FloatTakes, Csv.ValidInput;
    var n := MappedRow(inp, row, number, dec, index, skipped, toFloat);
    D.AcceptedFlows(inp, row, number, dec, index, skipped, toFloat);
    D.NormalizedFields(Csv.RecordOf(Csv.Defra, inp, row, number, dec, index, skipped), toFloat);
    SeenAt(n, Q.SourceFamily);
    SeenAt(n, Q.SourceId);
  }

  lemma YearRaw(inp: Csv.Input, row: Csv.Row, number: nat, dec: D.Dec, index: nat, skipped: nat)
    ensures D.Raw(Csv.RecordOf(Csv.Defra, inp, row, number, dec, index, skipped), SourceYear) == Int(YearOf(row))
  {
    hide Csv.RawFields, Csv.RawField, Csv.Cell, Csv.Year, P.Has;
    P.NamesWritten(Csv.Defra);
    P.RawFieldAt(Csv.Defra, inp, row, number, dec);
    P.WrittenValues(Csv.Defra, inp, row, number, dec);
  }

  lemma YearSeen(inp: Csv.Input, row: Csv.Row, number: nat, dec: D.Dec, index: nat, skipped: nat, toFloat: D.ToFloat)
    requires P.Accepted(Csv.Defra, row, dec) && Csv.ValidInput(inp) && index >= 1
    ensures var q := Seen(MappedRow(inp, row, number, dec, index, skipped, toFloat));
            Q.At(q, Q.SourceYear) == Q.Text(IntText(YearOf(row))) && Q.At(q, Q.FactorValue).Float?
  {
    hide Seen, D.NormalizedOf, D.IsExtraction, Csv.RecordOf, P.Accepted, D.FieldOf, Q.At, P.GoodRecord, D.Mappable, D.FloatTakes,
      Csv.ValidInput, D.TextOf, D.Raw, YearOf, IntText, Strip, IntOf;
    var n := MappedRow(inp, row, number, dec, index, skipped, toFloat);
    D.AcceptedFlows(inp, row, number, dec, index, skipped, toFloat);
    YearField(Csv.RecordOf(Csv.Defra, inp, row, number, dec, index, skipped), toFloat);
    YearRaw(inp, row, number, dec, index, skipped);
    YearText(row, dec);
    SeenAt(n, Q.SourceYear);
    SeenAt(n, Q.FactorValue);
  }

  predicate IsTextName(name: Q.FieldName) { name.SourceVersion? || name.FactorId? || name.FactorName? || name.Unit? || name.Provenance? }

  function ColumnFor(name: Q.FieldName): Name {
    match name case SourceVersion => SourceVersion case FactorId => FactorId case FactorName => FactorName
    case Provenance => Provenance case _ => Unit
  }

  lemma KeyFor(name: Q.FieldName)
    requires IsTextName(name)
    ensures KeyOf(name).Some? && D.IsTextKey(KeyOf(name).value) && D.ColumnOf(KeyOf(name).value) == ColumnFor(name)
    ensures !D.IsOptional(KeyOf(name).value)
  {
  }

  lemma TextSeen(inp: Csv.Input, row: Csv.Row, number: nat, dec: D.Dec, index: nat, skipped: nat, toFloat: D.ToFloat, name: Q.FieldName)
    requires P.Accepted(Csv.Defra, row, dec) && Csv.ValidInput(inp) && index >= 1 && IsTextName(name)
    ensures Q.At(Seen(MappedRow(inp, row, number, dec, index, skipped, toFloat)), name) == Q.Text(Csv.Cell(Csv.Defra, row, ColumnFor(name)))
  {
    hide Seen, D.NormalizedOf, Csv.RawFields, P.Accepted, D.FieldOf, Q.At, Csv.ValidInput, Csv.Cell, Csv.RecordOf,
      D.IsTextKey, D.IsOptional, D.ColumnOf, KeyOf, ColumnFor;
    KeyFor(name);
    D.CellsArrive(inp, row, number, dec, index, skipped, toFloat, KeyOf(name).value);
    SeenAt(MappedRow(inp, row, number, dec, index, skipped, toFloat), name);
  }

  /** It is traced to its row and its provenance, and to no document. */
  lemma PlaceSeen(inp: Csv.Input, row: Csv.Row, number: nat, dec: D.Dec, index: nat, skipped: nat, toFloat: D.ToFloat)
    requires P.Accepted(Csv.Defra, row, dec) && Csv.ValidInput(inp) && index >= 1
    ensures var q := Seen(MappedRow(inp, row, number, dec, index, skipped, toFloat));
            && Q.At(q, Q.RowNumber) == Q.Int(number) && Q.At(q, Q.Provenance) == Q.Text(Csv.Cell(Csv.Defra, row, Provenance))
            && Q.At(q, Q.SourceDocumentId) == Q.Nothing && Q.At(q, Q.DocumentId) == Q.Nothing && q.sourceReference == Some(inp.artifact)
  {
    hide Seen, D.NormalizedOf, D.IsExtraction, Csv.RawFields, P.Accepted, D.FieldOf, Q.At, P.GoodRecord, D.Mappable, D.FloatTakes, Csv.ValidInput,
      Csv.Cell;
    var n := MappedRow(inp, row, number, dec, index, skipped, toFloat);
    D.AcceptedFlows(inp, row, number, dec, index, skipped, toFloat);
    D.NormalizedFields(Csv.RecordOf(Csv.Defra, inp, row, number, dec, index, skipped), toFloat);
    TextSeen(inp, row, number, dec, index, skipped, toFloat, Q.Provenance);
    SeenAt(n, Q.RowNumber);
    SeenAt(n, Q.SourceDocumentId);
    SeenAt(n, Q.DocumentId);
    ReferenceSeen(inp, row, number, dec, index, skipped, toFloat);
  }

  lemma ReferenceSeen(inp: Csv.Input, row: Csv.Row, number: nat, dec: D.Dec, index: nat, skipped: nat, toFloat: D.ToFloat)
    requires Csv.ValidInput(inp)
    ensures Seen(MappedRow(inp, row, number, dec, index, skipped, toFloat)).sourceReference == Some(inp.artifact)
  {
    D.ArtifactVisible(inp);
    hide Csv.RawFields, D.IsExtraction, D.Raw, D.TextOf, D.SourceFields, D.FactorFields, D.FieldOf, Strip;
  }

  // ---------------------------------------------------------------- what the pass makes of it

  /** One factor twice: the same year, version, id and unit. */
  predicate SameFactor(a: Csv.Row, b: Csv.Row) {
    && YearOf(a) == YearOf(b)
    && Csv.Cell(Csv.Defra, a, SourceVersion) == Csv.Cell(Csv.Defra, b, SourceVersion)
    && Csv.Cell(Csv.Defra, a, FactorId) == Csv.Cell(Csv.Defra, b, FactorId)
    && Csv.Cell(Csv.Defra, a, Unit) == Csv.Cell(Csv.Defra, b, Unit)
  }

  lemma CellsFilled(row: Csv.Row, dec: D.Dec, name: Name)
    requires P.Accepted(Csv.Defra, row, dec) && name in Csv.Required(Csv.Defra)
    ensures Strip(Csv.Cell(Csv.Defra, row, name)) == Csv.Cell(Csv.Defra, row, name) != []
  {
    hide Csv.Cell, Csv.Year, Csv.FactorDecimal, Csv.RowIssues, Csv.AllBlank, Strip;
    Csv.RowOk(Csv.Defra, row, 0, dec);
    P.CellStripped(Csv.Defra, row, name);
  }

  predicate FilledIn(row: Csv.Row, name: Name) {
    Strip(Csv.Cell(Csv.Defra, row, name)) == Csv.Cell(Csv.Defra, row, name) && Csv.Cell(Csv.Defra, row, name) != []
  }

  predicate Filled(row: Csv.Row) {
    FilledIn(row, SourceVersion) && FilledIn(row, FactorId) && FilledIn(row, FactorName) && FilledIn(row, Unit)
  }

  lemma RowFilled(row: Csv.Row, dec: D.Dec)
    requires P.Accepted(Csv.Defra, row, dec)
    ensures Filled(row)
  {
    hide Csv.Cell, Strip, P.Accepted;
    var required := Csv.Required(Csv.Defra);
    assert required[1] == SourceVersion && required[3] == FactorId && required[4] == FactorName && required[6] == Unit;
    hide Csv.Required;
    CellsFilled(row, dec, SourceVersion);
    CellsFilled(row, dec, FactorId);
    CellsFilled(row, dec, FactorName);
    CellsFilled(row, dec, Unit);
  }

  lemma SourceFilled(inp: Csv.Input)
    requires Csv.ValidInput(inp)
    ensures Strip("defra_desnz") != [] && Strip(inp.sourceId) != []
  {
    D.FamilyVisible();
    hide Strip;
  }

  /** The text of the year is itself, stripped. */
  predicate YearFilled(row: Csv.Row) {
    Strip(IntText(YearOf(row))) == IntText(YearOf(row)) && IntText(YearOf(row)) != [] && IntOf(IntText(YearOf(row))) == Some(YearOf(row))
  }

  lemma RowYear(row: Csv.Row, dec: D.Dec)
    requires P.Accepted(Csv.Defra, row, dec)
    ensures YearFilled(row)
  {
    hide YearOf, IntText, Strip, IntOf, P.Accepted, D.TextOf;
    YearText(row, dec);
  }

  lemma RowComplete(q: Q.Record, inp: Csv.Input, row: Csv.Row, dec: D.Dec, isFloat: string -> bool)
    requires P.Accepted(Csv.Defra, row, dec) && Csv.ValidInput(inp) && SeenAs(q, inp, row)
    ensures Q.Complete(q, isFloat) && Q.IdentityOf(q).Some?
  {
    hide P.Accepted, Csv.ValidInput, Filled, YearFilled, SeenAs, Q.Complete, Q.IdentityOf, Strip;
    SourceFilled(inp);
    RowFilled(row, dec);
    RowYear(row, dec);
    NothingMissing(q, inp, row);
    AllThere(q, inp, row, isFloat);
  }

  lemma NothingMissing(q: Q.Record, inp: Csv.Input, row: Csv.Row)
    requires SeenAs(q, inp, row) && Strip("defra_desnz") != [] && Strip(inp.sourceId) != [] && YearFilled(row) && Filled(row)
    ensures forall name :: name in Q.REQUIRED || name in Q.IDENTITY ==> !Q.IsMissing(q, name)
  {
    hide Csv.Cell, Strip, YearOf, IntText, Q.At, IntOf;
  }

  lemma AllThere(q: Q.Record, inp: Csv.Input, row: Csv.Row, isFloat: string -> bool)
    requires SeenAs(q, inp, row) && forall name :: name in Q.REQUIRED || name in Q.IDENTITY ==> !Q.IsMissing(q, name)
    ensures Q.Complete(q, isFloat) && Q.IdentityOf(q).Some?
  {
    hide Csv.Cell, Strip, YearOf, IntText, Q.At, Q.IsMissing, Q.REQUIRED;
  }

  lemma SameIdentityMeans(q: Q.Record, p: Q.Record, inp: Csv.Input, a: Csv.Row, b: Csv.Row, dec: D.Dec, isFloat: string -> bool)
    requires P.Accepted(Csv.Defra, a, dec) && P.Accepted(Csv.Defra, b, dec) && Csv.ValidInput(inp)
    requires SeenAs(q, inp, a) && SeenAs(p, inp, b)
    ensures Q.SameIdentity(q, p) <==> SameFactor(a, b)
  {
    hide P.Accepted, Csv.ValidInput, SeenAs, Q.Complete, Q.IdentityOf, Filled, YearFilled, PartsAre, SameFactor;
    RowComplete(q, inp, a, dec, isFloat);
    RowComplete(p, inp, b, dec, isFloat);
    PartsSeen(q, inp, a);
    PartsSeen(p, inp, b);
    RowFilled(a, dec);
    RowFilled(b, dec);
    RowYear(a, dec);
    RowYear(b, dec);
    SamePartsMean(Q.IdentityOf(q).value, Q.IdentityOf(p).value, inp, a, b);
  }

  predicate PartsAre(x: Q.Identity, inp: Csv.Input, row: Csv.Row) {
    && |x| == 6 && x[0] == Q.TextPart(Strip("defra_desnz")) && x[1] == Q.TextPart(Strip(inp.sourceId))
    && x[2] == Q.TextPart(Strip(IntText(YearOf(row)))) && x[3] == Q.TextPart(Strip(Csv.Cell(Csv.Defra, row, SourceVersion)))
    && x[4] == Q.TextPart(Strip(Csv.Cell(Csv.Defra, row, FactorId))) && x[5] == Q.TextPart(Strip(Csv.Cell(Csv.Defra, row, Unit)))
  }

  lemma SamePartsMean(x: Q.Identity, y: Q.Identity, inp: Csv.Input, a: Csv.Row, b: Csv.Row)
    requires PartsAre(x, inp, a) && PartsAre(y, inp, b) && Filled(a) && Filled(b) && YearFilled(a) && YearFilled(b)
    ensures x == y <==> SameFactor(a, b)
  {
    hide Csv.Cell, Strip, YearOf, IntText, IntOf;
    assert x == y <==> x[2] == y[2] && x[3] == y[3] && x[4] == y[4] && x[5] == y[5] by {
      if x[2] == y[2] && x[3] == y[3] && x[4] == y[4] && x[5] == y[5] { assert forall i :: 0 <= i < 6 ==> x[i] == y[i]; }
    }
  }

  lemma PartsSeen(q: Q.Record, inp: Csv.Input, row: Csv.Row)
    requires SeenAs(q, inp, row) && Q.IdentityOf(q).Some?
    ensures PartsAre(Q.IdentityOf(q).value, inp, row)
  {
    hide Csv.Cell, Strip, YearOf, IntText, Q.At, Q.IsMissing;
  }

  /** What the pass is given after a successful parse. */
  function AllSeen(records: seq<Csv.Record>, toFloat: D.ToFloat): (qs: seq<Q.Record>)
    ensures |qs| == |records| && forall k :: 0 <= k < |qs| ==> qs[k] == Seen(D.NormalizedOf(records[k], toFloat))
  {
    seq(|records|, k requires 0 <= k < |records| => Seen(D.NormalizedOf(records[k], toFloat)))
  }

  /** On what the mapper makes of a successful DEFRA parse the pass finds nothing blocking exactly when no
      factor stands in the file twice. */
  lemma SuccessIsValid(inp: Csv.Input, rows: seq<Csv.Row>, dec: D.Dec, toFloat: D.ToFloat, units: set<string>, isFloat: string -> bool)
    requires Csv.ValidInput(inp) && Csv.Parsed(Csv.Defra, inp, rows, dec).status.Success?
    ensures var r, at := Csv.Parsed(Csv.Defra, inp, rows, dec), Csv.AcceptedAt(Csv.Defra, rows, dec);
            && r.payload.Some? && |at| == |r.payload.value| && (forall k :: 0 <= k < |at| ==> at[k] < |rows|)
            && var qs := AllSeen(r.payload.value, toFloat);
               (forall d :: d in Sorted(Q.Collected(qs, |qs|, units, isFloat), Q.LowerKey) ==> !Q.IsBlocking(d))
               <==> forall i, j :: 0 <= i < j < |at| ==> !SameFactor(rows[at[i]], rows[at[j]])
  {
    Csv.ParsedMeans(Csv.Defra, inp, rows, dec);
    hide Csv.Parsed, Csv.AcceptedAt, Csv.RecordsAre, Csv.AnyRowInError;
    var records, at := Csv.Parsed(Csv.Defra, inp, rows, dec).payload.value, Csv.AcceptedAt(Csv.Defra, rows, dec);
    P.MadeFromAccepted(Csv.Defra, inp, rows, dec, records);
    Csv.RecordsNumbered(Csv.Defra, inp, rows, dec, records);
    RecordsValid(inp, rows, dec, records, at, toFloat, units, isFloat);
    P.Sizes(Csv.Defra, inp, rows, dec, records, at);
  }

  lemma RecordsValid(inp: Csv.Input, rows: seq<Csv.Row>, dec: D.Dec, records: seq<Csv.Record>, at: seq<nat>, toFloat: D.ToFloat,
                     units: set<string>, isFloat: string -> bool)
    requires Csv.ValidInput(inp) && P.MadeFrom(Csv.Defra, inp, rows, dec, records, at)
    requires forall k :: 0 <= k < |records| ==> records[k].index == k + 1
    ensures |at| == |records| && forall k :: 0 <= k < |at| ==> at[k] < |rows|
    ensures var qs := AllSeen(records, toFloat);
            (forall d :: d in Sorted(Q.Collected(qs, |qs|, units, isFloat), Q.LowerKey) ==> !Q.IsBlocking(d))
            <==> forall i, j :: 0 <= i < j < |at| ==> !SameFactor(rows[at[i]], rows[at[j]])
  {
    hide P.MadeFrom, Sorted, Q.Collected, Q.IsBlocking, Q.Complete, Q.SameIdentity, SameFactor, Csv.ValidInput, Seen,
      D.NormalizedOf, SeenAs, P.Accepted;
    P.Sizes(Csv.Defra, inp, rows, dec, records, at);
    var qs := AllSeen(records, toFloat);
    Q.ValidExactly(qs, units, isFloat);
    forall k | 0 <= k < |at| ensures P.Accepted(Csv.Defra, rows[at[k]], dec) && SeenAs(qs[k], inp, rows[at[k]]) && Q.Complete(qs[k], isFloat) {
      RecordSeen(inp, rows, dec, records, at, k, toFloat);
      RowComplete(qs[k], inp, rows[at[k]], dec, isFloat);
    }
    forall i, j | 0 <= i < j < |at| ensures Q.SameIdentity(qs[i], qs[j]) <==> SameFactor(rows[at[i]], rows[at[j]]) {
      SameIdentityMeans(qs[i], qs[j], inp, rows[at[i]], rows[at[j]], dec, isFloat);
    }
  }

  lemma RecordSeen(inp: Csv.Input, rows: seq<Csv.Row>, dec: D.Dec, records: seq<Csv.Record>, at: seq<nat>, k: nat, toFloat: D.ToFloat)
    requires Csv.ValidInput(inp) && P.MadeFrom(Csv.Defra, inp, rows, dec, records, at) && k < |at|
    requires |at| == |records| && at[k] < |rows| && records[k].index == k + 1
    ensures P.Accepted(Csv.Defra, rows[at[k]], dec) && SeenAs(Seen(D.NormalizedOf(records[k], toFloat)), inp, rows[at[k]])
  {
    hide Csv.ValidInput, Seen, D.NormalizedOf, SeenAs, P.Accepted, Csv.RecordOf;
    RowSeen(inp, rows[at[k]], at[k] + 2, dec, records[k].index, records[k].skipped, toFloat);
  }

  /** The result calls a factor value not numeric exactly when it is a Decimal, a boolean, of any further type,
      or a text that is not blank and that float() refuses. */
  lemma ValueReported(records: seq<Q.Record>, k: nat, units: set<string>, isFloat: string -> bool)
    requires k < |records|
    ensures (exists d :: d in Sorted(Q.Collected(records, |records|, units, isFloat), Q.LowerKey)
                         && d.position == k + 1 && d.code.InvalidNumericValue?)
            <==> match Q.At(records[k], Q.FactorValue)
                 case Decimal(_) => true
                 case Bool(_) => true
                 case Other(_) => true
                 case Text(s) => Strip(s) != [] && !isFloat(Strip(s))
                 case _ => false
  {
    Q.ResultMeans(records, units, isFloat);
    hide Q.At, Sorted, Q.Collected, Q.StrictlyAscending, Q.IdentityOf, Q.DuplicateOf;
    var reported := Q.Diagnostic(k + 1, Q.InvalidNumericValue, Some(Q.FactorValue), 0);
    var result := Sorted(Q.Collected(records, |records|, units, isFloat), Q.LowerKey);
    assert reported in result <==> Q.Owns(records[k], k + 1, units, isFloat, reported);
    forall d | d in result && d.position == k + 1 && d.code.InvalidNumericValue? ensures reported in result {
      assert Q.Owns(records[k], k + 1, units, isFloat, d);
    }
  }
}
