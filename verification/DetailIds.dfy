/** The ids of the details that are kept. The database has them as its primary key, while the writer keeps
    details apart by another key; so two details may have one id. */
module DetailIds {
  import opened Text
  import opened Footers
  import opened Fields
  import opened Firsts
  import W = FactorWriter
  import Csv = NormalizedCsv
  import P = ParsedPersistence
  import K = DetailKeys
  import C = RecordColumns
  import opened DetailColumns

  /** Two details share an id. */
  predicate SharedId(details: seq<W.Detail>) { exists i, j :: 0 <= i < j < |details| && details[i].id == details[j].id }

  /** Two rows, each the first of its factor, have one year, version and factor id, joined by underscores. */
  predicate SharedCells(f: Csv.Family, rows: seq<Csv.Row>, dec: P.Dec) {
    exists i, j ::
      && 0 <= i < j < |rows| && FirstOfFactor(f, rows, dec, i) && FirstOfFactor(f, rows, dec, j)
      && C.YearVersionIdOf(f, rows[i]) == C.YearVersionIdOf(f, rows[j])
  }

  lemma IdOfRow(f: Csv.Family, inp: Csv.Input, row: Csv.Row, number: nat, dec: P.Dec, ctx: W.Context, c: W.Command, d: W.Detail)
    requires DetailOf(f, inp, row, number, dec, ctx, c, d)
    ensures d.id == C.Word(f) + "_detail_" + C.YearVersionIdOf(f, row)
  {
    hide MasterOfRow;
    var k := C.ColumnsOf(f, row);
    Underscored(C.Word(f) + "_detail_", k.year, k.version, k.id);
    hide C.ColumnsOf, C.Three, C.Word;
  }

  lemma SameIds(f: Csv.Family, inp: Csv.Input, rows: seq<Csv.Row>, dec: P.Dec, ctx: W.Context, c: W.Command, from: seq<nat>, i: nat, j: nat)
    requires DetailsOfRows(f, inp, rows, dec, ctx, c, from) && i < |from| && j < |from|
    ensures |from| == |c.details| && from[i] < |rows| && from[j] < |rows|
    ensures c.details[i].id == c.details[j].id <==> C.YearVersionIdOf(f, rows[from[i]]) == C.YearVersionIdOf(f, rows[from[j]])
  {
    hide DetailOf, FirstOfFactor, Rising, C.YearVersionIdOf;
    IdOfRow(f, inp, rows[from[i]], from[i] + 2, dec, ctx, c, c.details[i]);
    IdOfRow(f, inp, rows[from[j]], from[j] + 2, dec, ctx, c, c.details[j]);
    C.Tagged(C.Word(f), C.YearVersionIdOf(f, rows[from[i]]), C.YearVersionIdOf(f, rows[from[j]]));
  }

  lemma SharedExactly(f: Csv.Family, inp: Csv.Input, rows: seq<Csv.Row>, dec: P.Dec, ctx: W.Context, c: W.Command, from: seq<nat>)
    requires DetailsOfRows(f, inp, rows, dec, ctx, c, from)
    ensures SharedId(c.details) <==> SharedCells(f, rows, dec)
  {
    hide DetailOf, FirstOfFactor, C.YearVersionIdOf;
    if i, j :| 0 <= i < j < |c.details| && c.details[i].id == c.details[j].id {
      SameIds(f, inp, rows, dec, ctx, c, from, i, j);
      assert from[i] in from && from[j] in from && from[i] < from[j];
    }
    if SharedCells(f, rows, dec) {
      var i, j :| && 0 <= i < j < |rows| && FirstOfFactor(f, rows, dec, i) && FirstOfFactor(f, rows, dec, j)
                  && C.YearVersionIdOf(f, rows[i]) == C.YearVersionIdOf(f, rows[j]);
      var k :| 0 <= k < |from| && from[k] == i;
      var l :| 0 <= l < |from| && from[l] == j;
      SameIds(f, inp, rows, dec, ctx, c, from, k, l);
      InThisOrder(from, k, l);
    }
  }

  lemma InThisOrder(at: seq<nat>, k: nat, l: nat)
    requires Rising(at) && k < |at| && l < |at| && at[k] < at[l]
    ensures k < l
  {
  }

  /** After a successful parse the details that are kept have ids of their own exactly when no two rows that are
      the first of their factor have one year, version and factor id. */
  lemma OwnIdsExactly(f: Csv.Family, inp: Csv.Input, rows: seq<Csv.Row>, dec: P.Dec, ctx: W.Context)
    requires Csv.ValidInput(inp) && P.NoCollision(f, inp, rows, dec, ctx) && Csv.Parsed(f, inp, rows, dec).status.Success?
    ensures var r := Csv.Parsed(f, inp, rows, dec);
            r.payload.Some? && (SharedId(W.CommandOf(P.RowsOf(r.payload.value), ctx).details) <==> SharedCells(f, rows, dec))
  {
    FileDetails(f, inp, rows, dec, ctx);
    hide Csv.Parsed, P.NoCollision, SharedId, SharedCells, W.CommandOf, DetailsOfRows, P.RowsOf;
    var c := W.CommandOf(P.RowsOf(Csv.Parsed(f, inp, rows, dec).payload.value), ctx);
    var from :| DetailsOfRows(f, inp, rows, dec, ctx, c, from);
    SharedExactly(f, inp, rows, dec, ctx, c, from);
  }

  /** One factor by the kilogram and by the tonne. */
  function TwoUnits(): seq<Csv.Row> { [K.FactorRow("Coal", "kg"), K.FactorRow("Coal", "t")] }

  lemma UnitsColumns(id: string, unit: string)
    requires Stripped(id) && Stripped(unit) && id != [] && unit != []
    ensures var row := K.FactorRow(id, unit);
            && C.YearVersionIdOf(Csv.Ghg, row) == C.Three("2024", "_", "v1", id) && P.Version(Csv.Ghg, row) == "v1"
            && C.ColumnsOf(Csv.Ghg, row).key == id + ":" + unit
  {
    hide K.FactorRow, Csv.Cell, Stripped, C.Three;
    K.FactorCells(id, unit);
    C.ColumnCells(Csv.Ghg, K.FactorRow(id, unit));
    C.KeySpelled(K.FactorRow(id, unit));
    hide C.ColumnsOf;
  }

  lemma KeysApart(a: string, unit: string, other: string)
    requires unit != other
    ensures a + ":" + unit != a + ":" + other
  {
    var front := a + ":";
    assert (front + unit)[|front|..] == unit && (front + other)[|front|..] == other;
  }

  lemma TwoUnitsFirst(dec: P.Dec)
    requires dec("1").Some?
    ensures P.Accepted(Csv.Ghg, TwoUnits()[0], dec) && P.Accepted(Csv.Ghg, TwoUnits()[1], dec)
    ensures FirstOfFactor(Csv.Ghg, TwoUnits(), dec, 0) && FirstOfFactor(Csv.Ghg, TwoUnits(), dec, 1)
    ensures P.MasterYear(Csv.Ghg, TwoUnits()[0]) == P.MasterYear(Csv.Ghg, TwoUnits()[1])
    ensures P.Version(Csv.Ghg, TwoUnits()[0]) == P.Version(Csv.Ghg, TwoUnits()[1])
    ensures SharedCells(Csv.Ghg, TwoUnits(), dec)
  {
    var a, b := K.FactorRow("Coal", "kg"), K.FactorRow("Coal", "t");
    assert Stripped("Coal") && Stripped("kg") && Stripped("t") && TwoUnits() == [a, b];
    hide *;
    KeysApart("Coal", "kg", "t");
    K.FactorAccepted("Coal", "kg", dec);
    K.FactorAccepted("Coal", "t", dec);
    UnitsColumns("Coal", "kg");
    UnitsColumns("Coal", "t");
    K.FactorKeys("Coal", "kg");
    K.FactorKeys("Coal", "t");
    K.SameYear(a, b);
    BothFirst([a, b], dec);
  }

  lemma BothFirst(rows: seq<Csv.Row>, dec: P.Dec)
    requires |rows| == 2 && P.Accepted(Csv.Ghg, rows[0], dec) && P.Accepted(Csv.Ghg, rows[1], dec)
    requires C.ColumnsOf(Csv.Ghg, rows[0]).key != C.ColumnsOf(Csv.Ghg, rows[1]).key
    requires C.YearVersionIdOf(Csv.Ghg, rows[0]) == C.YearVersionIdOf(Csv.Ghg, rows[1])
    ensures FirstOfFactor(Csv.Ghg, rows, dec, 0) && FirstOfFactor(Csv.Ghg, rows, dec, 1) && SharedCells(Csv.Ghg, rows, dec)
  {
    hide P.Accepted, C.ColumnsOf, FiledUnder, C.YearVersionIdOf;
  }

  /** The two have one id, and both are kept without an issue, whatever the digest. */
  lemma UnitsShareId(inp: Csv.Input, dec: P.Dec, ctx: W.Context)
    requires Csv.ValidInput(inp) && dec("1").Some?
    ensures var c := K.CommandFor(inp, TwoUnits(), dec, ctx);
            |c.details| == 2 && c.issues == [] && SharedId(c.details)
  {
    var rows := TwoUnits();
    assert |rows| == 2;
    hide *;
    TwoUnitsFirst(dec);
    K.BothAccepted(rows, dec);
    OneMaster(inp, rows, dec, ctx);
    Apart(rows, dec);
    BothParsed(inp, rows, dec);
    OwnIdsExactly(Csv.Ghg, inp, rows, dec, ctx);
    BothKept(inp, rows, dec, ctx);
  }

  lemma BothParsed(inp: Csv.Input, rows: seq<Csv.Row>, dec: P.Dec)
    requires Csv.AcceptedAt(Csv.Ghg, rows, dec) == [0, 1] && !Csv.AnyRowInError(Csv.Ghg, rows, dec)
    ensures Csv.Parsed(Csv.Ghg, inp, rows, dec).status.Success?
  {
    Csv.ParsedMeans(Csv.Ghg, inp, rows, dec);
    hide Csv.Parsed, Csv.AcceptedAt, Csv.RecordsAre, Csv.AnyRowInError;
  }

  lemma BothKept(inp: Csv.Input, rows: seq<Csv.Row>, dec: P.Dec, ctx: W.Context)
    requires |rows| == 2 && Csv.ValidInput(inp) && P.NoCollision(Csv.Ghg, inp, rows, dec, ctx)
    requires Csv.Parsed(Csv.Ghg, inp, rows, dec).status.Success? && Csv.AcceptedAt(Csv.Ghg, rows, dec) == [0, 1]
    requires !P.SameIdentity(Csv.Ghg, rows[0], rows[1])
    ensures var payload := Csv.Parsed(Csv.Ghg, inp, rows, dec).payload;
            && payload.Some? && K.CommandFor(inp, rows, dec, ctx) == W.CommandOf(P.RowsOf(payload.value), ctx)
            && |K.CommandFor(inp, rows, dec, ctx).details| == 2 && K.CommandFor(inp, rows, dec, ctx).issues == []
  {
    hide Csv.Parsed, W.CommandOf, Csv.ValidInput, P.NoCollision, Csv.AcceptedAt, P.SameIdentity, P.RowsOf;
    P.ParsedPersists(Csv.Ghg, inp, rows, dec, ctx);
    SomeIssue(K.CommandFor(inp, rows, dec, ctx).issues);
  }

  lemma SomeIssue(issues: seq<W.Issue>)
    ensures issues == [] || exists issue :: issue in issues
  {
    if issues != [] { assert issues[0] in issues; }
  }

  lemma OneMaster(inp: Csv.Input, rows: seq<Csv.Row>, dec: P.Dec, ctx: W.Context)
    requires |rows| == 2 && P.MasterYear(Csv.Ghg, rows[0]) == P.MasterYear(Csv.Ghg, rows[1])
    requires P.Version(Csv.Ghg, rows[0]) == P.Version(Csv.Ghg, rows[1])
    ensures P.NoCollision(Csv.Ghg, inp, rows, dec, ctx)
  {
    hide P.MasterYear, P.Version, P.Accepted, W.JoinKey, W.MasterId;
    assert P.MasterKeyText(Csv.Ghg, inp, rows[0]) == P.MasterKeyText(Csv.Ghg, inp, rows[1]);
  }

  lemma Apart(rows: seq<Csv.Row>, dec: P.Dec)
    requires |rows| == 2 && P.Accepted(Csv.Ghg, rows[0], dec) && FirstOfFactor(Csv.Ghg, rows, dec, 1)
    ensures !P.SameIdentity(Csv.Ghg, rows[0], rows[1])
  {
    hide P.Accepted, P.SameIdentity, SameFactor;
    IdentityIsFactor(Csv.Ghg, rows[0], rows[1], dec);
  }
}
