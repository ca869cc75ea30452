/** The detail keys of the three families, joined by colons from cells that may hold colons themselves:
    exactly when different factors share a key, and what the writer then reports. */
module DetailKeys {
  import opened Text
  import opened Footers
  import opened Fields
  import Csv = NormalizedCsv
  import W = FactorWriter
  import opened ParsedPersistence

  /** The cells a family's detail key is joined from. */
  function KeyCells(f: Csv.Family, row: Csv.Row): (cells: seq<string>)
    ensures |cells| >= 2
  {
    match f
    case Ghg => [Csv.Cell(f, row, FactorId), Csv.Cell(f, row, Unit)]
    case Ipcc => [Csv.Cell(f, row, FactorId), Csv.Cell(f, row, Unit), Csv.Cell(f, row, Gas), Csv.Cell(f, row, IpccSector)]
    case Defra => [Csv.Cell(f, row, FactorId), Csv.Cell(f, row, Unit), Csv.Cell(f, row, GreenhouseGas)]
  }

  lemma TwoJoined(a: string, b: string)
    ensures JoinOn([a, b], ':') == a + [':'] + b
  {
    assert [a, b][1..] == [b];
  }

  lemma MoreJoined(a: string, rest: seq<string>)
    requires rest != []
    ensures JoinOn([a] + rest, ':') == a + [':'] + JoinOn(rest, ':')
  {
    assert ([a] + rest)[1..] == rest;
  }

  lemma ThreeJoined(a: string, b: string, c: string)
    ensures JoinOn([a, b, c], ':') == a + (":" + (b + (":" + c)))
  {
    TwoJoined(b, c);
    hide JoinOn;
    assert [a] + [b, c] == [a, b, c];
    MoreJoined(a, [b, c]);
  }

  lemma FourJoined(a: string, b: string, c: string, d: string)
    ensures JoinOn([a, b, c, d], ':') == a + (":" + (b + ":" + c + (":" + d)))
  {
    hide JoinOn;
    ThreeJoined(b, c, d);
    assert [a] + [b, c, d] == [a, b, c, d];
    MoreJoined(a, [b, c, d]);
    assert b + (":" + (c + (":" + d))) == b + ":" + c + (":" + d);
  }

  lemma KeyIsJoined(f: Csv.Family, row: Csv.Row)
    ensures Csv.DetailKey(f, row) == JoinOn(KeyCells(f, row), ':')
  {
    hide Csv.Cell, JoinOn;
    var id, unit := Csv.Cell(f, row, FactorId), Csv.Cell(f, row, Unit);
    match f
    case Ghg => TwoJoined(id, unit);
    case Ipcc => FourJoined(id, unit, Csv.Cell(f, row, Gas), Csv.Cell(f, row, IpccSector));
    case Defra => ThreeJoined(id, unit, Csv.Cell(f, row, GreenhouseGas));
  }

  /** x goes on behind y with a colon, and what it has left, with its rest s, is the whole rest t of y. */
  predicate RunsOver(x: string, s: string, y: string, t: string) {
    |y| < |x| && x[..|y|] == y && x[|y|] == ':' && t == x[|y| + 1..] + [':'] + s
  }

  /** Two parts with a colon between are the same text for equal parts, or where one first part runs over
      into the other second part. */
  lemma TwoParts(x: string, s: string, y: string, t: string)
    ensures x + [':'] + s == y + [':'] + t <==> (x == y && s == t) || RunsOver(x, s, y, t) || RunsOver(y, t, x, s)
  {
    if |x| == |y| {
      SameLength(x, s, y, t);
    } else if |x| > |y| {
      OneRuns(x, s, y, t);
    } else {
      OneRuns(y, t, x, s);
    }
  }

  lemma SameLength(x: string, s: string, y: string, t: string)
    requires |x| == |y|
    ensures x + [':'] + s == y + [':'] + t <==> x == y && s == t
  {
    if x + [':'] + s == y + [':'] + t {
      assert (x + [':'] + s)[..|x|] == x && (x + [':'] + s)[|x| + 1..] == s;
      assert (y + [':'] + t)[..|x|] == y && (y + [':'] + t)[|x| + 1..] == t;
    }
  }

  lemma OneRuns(x: string, s: string, y: string, t: string)
    requires |x| > |y|
    ensures x + [':'] + s == y + [':'] + t <==> RunsOver(x, s, y, t)
  {
    var a, b := x + [':'] + s, y + [':'] + t;
    if a == b {
      assert a[..|y|] == x[..|y|] && b[..|y|] == y;
      assert a[|y|] == x[|y|] && b[|y|] == ':';
      assert a[|y| + 1..] == x[|y| + 1..] + [':'] + s && b[|y| + 1..] == t;
    }
    if RunsOver(x, s, y, t) {
      var rest := x[|y| + 1..];
      assert x == y + [':'] + rest;
      assert a == y + [':'] + (rest + [':'] + s);
    }
  }

  /** The first cells that differ run over, one into the cells behind the other. */
  predicate Clash(xs: seq<string>, ys: seq<string>) {
    && |xs| == |ys| >= 2
    && if xs[0] == ys[0] then Clash(xs[1..], ys[1..])
       else RunsOver(xs[0], JoinOn(xs[1..], ':'), ys[0], JoinOn(ys[1..], ':')) || RunsOver(ys[0], JoinOn(ys[1..], ':'), xs[0], JoinOn(xs[1..], ':'))
  }

  lemma {:induction false} JoinedSame(xs: seq<string>, ys: seq<string>)
    requires |xs| == |ys| >= 1
    ensures JoinOn(xs, ':') == JoinOn(ys, ':') <==> xs == ys || Clash(xs, ys)
    decreases |xs|
  {
    if |xs| >= 2 {
      JoinedSame(xs[1..], ys[1..]);
      TwoParts(xs[0], JoinOn(xs[1..], ':'), ys[0], JoinOn(ys[1..], ':'));
      assert xs == [xs[0]] + xs[1..] && ys == [ys[0]] + ys[1..];
      hide RunsOver;
      if xs[0] == ys[0] { NotOverItself(xs[0], JoinOn(xs[1..], ':'), JoinOn(ys[1..], ':')); }
    }
  }

  lemma NotOverItself(x: string, s: string, t: string)
    ensures !RunsOver(x, s, x, t)
  {
  }

  /** Two rows share a detail key exactly when their key cells are equal or clash. */
  lemma DetailKeysClash(f: Csv.Family, a: Csv.Row, b: Csv.Row)
    ensures Csv.DetailKey(f, a) == Csv.DetailKey(f, b)
            <==> KeyCells(f, a) == KeyCells(f, b) || Clash(KeyCells(f, a), KeyCells(f, b))
  {
    KeyIsJoined(f, a);
    KeyIsJoined(f, b);
    assert |KeyCells(f, a)| == |KeyCells(f, b)|;
    hide KeyCells, JoinOn, Clash, Csv.DetailKey;
    JoinedSame(KeyCells(f, a), KeyCells(f, b));
  }

  /** Cells that clash hold a colon before the last cell. */
  lemma {:induction false} ClashNeedsColon(xs: seq<string>, ys: seq<string>)
    requires Clash(xs, ys)
    ensures exists i :: 0 <= i < |xs| - 1 && (':' in xs[i] || ':' in ys[i])
    decreases |xs|
  {
    if xs[0] == ys[0] {
      ClashNeedsColon(xs[1..], ys[1..]);
      var i :| 0 <= i < |xs[1..]| - 1 && (':' in xs[1..][i] || ':' in ys[1..][i]);
      assert xs[i + 1] == xs[1..][i] && ys[i + 1] == ys[1..][i];
    } else {
      assert ':' in xs[0] || ':' in ys[0];
    }
  }

  /** Without colons before the last key cell the key gives all key cells back. */
  lemma DetailKeysApart(f: Csv.Family, a: Csv.Row, b: Csv.Row)
    requires forall i :: 0 <= i < |KeyCells(f, a)| - 1 ==> ':' !in KeyCells(f, a)[i] && ':' !in KeyCells(f, b)[i]
    ensures Csv.DetailKey(f, a) == Csv.DetailKey(f, b) <==> KeyCells(f, a) == KeyCells(f, b)
  {
    DetailKeysClash(f, a, b);
    hide KeyCells, Csv.DetailKey;
    if Clash(KeyCells(f, a), KeyCells(f, b)) { ClashNeedsColon(KeyCells(f, a), KeyCells(f, b)); }
  }

  // ---------------------------------------------------------------- what the writer reports

  /** Filed under one year and version, with key cells that are equal or clash. */
  predicate SameKey(f: Csv.Family, a: Csv.Row, b: Csv.Row) {
    && MasterYear(f, a) == MasterYear(f, b) && Version(f, a) == Version(f, b)
    && (KeyCells(f, a) == KeyCells(f, b) || Clash(KeyCells(f, a), KeyCells(f, b)))
  }

  lemma SameKeyMeans(f: Csv.Family, a: Csv.Row, b: Csv.Row)
    ensures SameKey(f, a, b) <==> SameIdentity(f, a, b)
  {
    DetailKeysClash(f, a, b);
    hide KeyCells, Csv.DetailKey, MasterYear, Version, Clash;
  }

  /** After a successful parse the writer reports exactly the records for which an earlier one has the same
      year, version and key cells, or key cells that clash. */
  lemma ConflictsReported(f: Csv.Family, inp: Csv.Input, rows: seq<Csv.Row>, dec: Dec, ctx: W.Context, issue: W.Issue)
    requires Csv.ValidInput(inp) && NoCollision(f, inp, rows, dec, ctx) && Csv.Parsed(f, inp, rows, dec).status.Success?
    ensures var r, at := Csv.Parsed(f, inp, rows, dec), Csv.AcceptedAt(f, rows, dec);
            r.payload.Some? && (forall k :: 0 <= k < |at| ==> at[k] < |rows|)
            && (issue in W.CommandOf(RowsOf(r.payload.value), ctx).issues <==>
                  issue.DetailConflict? && 0 < issue.position <= |at|
                  && exists j :: 0 <= j < issue.position - 1 && SameKey(f, rows[at[j]], rows[at[issue.position - 1]]))
  {
    ParsedPersists(f, inp, rows, dec, ctx);
    hide Csv.Parsed, Csv.AcceptedAt, W.CommandOf, SameIdentity, SameKey, NoCollision, Csv.ValidInput;
    var at := Csv.AcceptedAt(f, rows, dec);
    forall i, j | 0 <= i < |at| && 0 <= j < |at|
      ensures SameKey(f, rows[at[i]], rows[at[j]]) <==> SameIdentity(f, rows[at[i]], rows[at[j]])
    {
      SameKeyMeans(f, rows[at[i]], rows[at[j]]);
    }
  }

  // ---------------------------------------------------------------- two factors that clash

  /** A GHG row with this id and unit. */
  function FactorRow(id: string, unit: string): Csv.Row {
    ["emission_factor", "2024", "v1", id, "Fuel", "1", unit, "Energy", "", "", "", ""]
  }

  lemma {:induction false} ColumnAt(header: seq<Name>, k: nat, name: Name)
    requires k < |header| && header[k] == name && forall i :: 0 <= i < k ==> header[i] != name
    ensures Csv.Column(header, name) == k
    decreases k
  {
    if k > 0 {
      assert header[0] != name && header[1..][k - 1] == name;
      assert forall i :: 0 <= i < k - 1 ==> header[1..][i] == header[i + 1];
      ColumnAt(header[1..], k - 1, name);
    }
  }

  lemma CellAt(row: Csv.Row, k: nat, name: Name)
    requires k < |row| && k < |Csv.Header(Csv.Ghg)| && Stripped(row[k])
    requires Csv.Header(Csv.Ghg)[k] == name && forall i :: 0 <= i < k ==> Csv.Header(Csv.Ghg)[i] != name
    ensures Csv.Cell(Csv.Ghg, row, name) == row[k]
  {
    hide Strip, Csv.Column, Csv.Header;
    StripOf(row[k]);
    ColumnAt(Csv.Header(Csv.Ghg), k, name);
  }

  /** The columns in use. */
  lemma GhgColumns(k: nat)
    requires k < 8
    ensures |Csv.Header(Csv.Ghg)| == 12
    ensures Csv.Header(Csv.Ghg)[k]
         == [RecordType, SourceYear, SourceVersion, FactorId, FactorName, FactorValue, Unit, Category][k]
    ensures forall i :: 0 <= i < k ==> Csv.Header(Csv.Ghg)[i] != Csv.Header(Csv.Ghg)[k]
  {
  }

  lemma FactorCell(id: string, unit: string, k: nat)
    requires Stripped(id) && Stripped(unit) && k < 8
    ensures Csv.Cell(Csv.Ghg, FactorRow(id, unit), [RecordType, SourceYear, SourceVersion, FactorId, FactorName, FactorValue, Unit, Category][k])
         == ["emission_factor", "2024", "v1", id, "Fuel", "1", unit, "Energy"][k]
  {
    hide Csv.Cell, Csv.Header;
    GhgColumns(k);
    var row := FactorRow(id, unit);
    assert Stripped(row[k]) && row[k] == ["emission_factor", "2024", "v1", id, "Fuel", "1", unit, "Energy"][k];
    hide FactorRow, Stripped;
    CellAt(row, k, Csv.Header(Csv.Ghg)[k]);
  }

  lemma FactorCells(id: string, unit: string)
    requires Stripped(id) && Stripped(unit) && id != [] && unit != []
    ensures var row := FactorRow(id, unit);
            && Csv.Cell(Csv.Ghg, row, RecordType) == "emission_factor" && Csv.Cell(Csv.Ghg, row, SourceYear) == "2024"
            && Csv.Cell(Csv.Ghg, row, SourceVersion) == "v1" && Csv.Cell(Csv.Ghg, row, FactorId) == id
            && Csv.Cell(Csv.Ghg, row, FactorName) == "Fuel" && Csv.Cell(Csv.Ghg, row, FactorValue) == "1"
            && Csv.Cell(Csv.Ghg, row, Unit) == unit && Csv.Cell(Csv.Ghg, row, Category) == "Energy"
  {
    hide Csv.Cell, FactorRow, Stripped;
    FactorCell(id, unit, 0);
    FactorCell(id, unit, 1);
    FactorCell(id, unit, 2);
    FactorCell(id, unit, 3);
    FactorCell(id, unit, 4);
    FactorCell(id, unit, 5);
    FactorCell(id, unit, 6);
    FactorCell(id, unit, 7);
  }

  lemma YearReads2024()
    ensures Csv.Year(Csv.Ghg, "2024") >= 1
  {
    hide Strip;
    IntOfDecimal("2024");
    assert "2024"[..3] == "202";
    hide IntOf;
  }

  lemma FactorKind(id: string, unit: string, dec: Dec)
    requires Stripped(id) && Stripped(unit) && id != [] && unit != []
    ensures !Csv.HasExtraCell(Csv.Ghg, FactorRow(id, unit)) && !Csv.AllBlank(Csv.Ghg, FactorRow(id, unit))
    ensures Csv.Cell(Csv.Ghg, FactorRow(id, unit), RecordType) == Csv.EMISSION_FACTOR
  {
    hide Csv.Cell, Stripped;
    FactorCell(id, unit, 0);
    assert Csv.Header(Csv.Ghg)[0] == RecordType;
  }

  lemma FactorFine(id: string, unit: string, dec: Dec)
    requires Stripped(id) && Stripped(unit) && id != [] && unit != [] && dec("1").Some?
    ensures Csv.RowIssues(Csv.Ghg, FactorRow(id, unit), 0, dec) == []
  {
    hide Csv.Cell, FactorRow, Csv.Year, Csv.RowIssues, Stripped;
    YearReads2024();
    FactorCells(id, unit);
    Csv.RowOk(Csv.Ghg, FactorRow(id, unit), 0, dec);
  }

  lemma FactorAccepted(id: string, unit: string, dec: Dec)
    requires Stripped(id) && Stripped(unit) && id != [] && unit != [] && dec("1").Some?
    ensures Accepted(Csv.Ghg, FactorRow(id, unit), dec)
  {
    hide Csv.Cell, FactorRow, Csv.RowIssues, Csv.HasExtraCell, Csv.AllBlank, Stripped;
    FactorKind(id, unit, dec);
    FactorFine(id, unit, dec);
  }

  lemma SameYear(a: Csv.Row, b: Csv.Row)
    requires Version(Csv.Ghg, a) == Version(Csv.Ghg, b)
    requires Csv.Cell(Csv.Ghg, a, SourceYear) == Csv.Cell(Csv.Ghg, b, SourceYear)
    ensures MasterYear(Csv.Ghg, a) == MasterYear(Csv.Ghg, b)
  {
    hide Csv.Cell, W.YearIn, IntText, Csv.Year;
  }

  lemma {:induction false} BothAccepted(rows: seq<Csv.Row>, dec: Dec)
    requires |rows| == 2 && Accepted(Csv.Ghg, rows[0], dec) && Accepted(Csv.Ghg, rows[1], dec)
    ensures Csv.AcceptedAt(Csv.Ghg, rows, dec) == [0, 1] && !Csv.AnyRowInError(Csv.Ghg, rows, dec)
  {
    hide Csv.KindOf;
    var before := rows[..1];
    assert before[0] == rows[0] && before[..0] == [];
    assert Csv.AcceptedAt(Csv.Ghg, [], dec) == [];
    assert Csv.AcceptedAt(Csv.Ghg, before, dec) == [] + [0];
  }

  /** The writer's command for what a GHG parse of the rows hands on. */
  function CommandFor(inp: Csv.Input, rows: seq<Csv.Row>, dec: Dec, ctx: W.Context): W.Command {
    W.CommandOf(RowsOf(Or(Csv.Parsed(Csv.Ghg, inp, rows, dec).payload, [])), ctx)
  }

  /** Fuel oil by the kilogram, and fuel by the "oil:kg": different factors, both accepted, the second of
      them reported as a conflict, whatever the digest; at most one detail is persisted. */
  lemma FactorsClash(inp: Csv.Input, dec: Dec, ctx: W.Context)
    requires Csv.ValidInput(inp) && dec("1").Some?
    ensures var rows := [FactorRow("fuel:oil", "kg"), FactorRow("fuel", "oil:kg")];
            && KeyCells(Csv.Ghg, rows[0]) != KeyCells(Csv.Ghg, rows[1])
            && Csv.Parsed(Csv.Ghg, inp, rows, dec).status.Success? && Csv.AcceptedAt(Csv.Ghg, rows, dec) == [0, 1]
            && W.DetailConflict(2) in CommandFor(inp, rows, dec, ctx).issues && |CommandFor(inp, rows, dec, ctx).details| <= 1
  {
    hide FactorRow, KeyCells, Accepted, Csv.Parsed, Csv.AcceptedAt, Csv.ValidInput, CommandFor, Csv.KindOf;
    FactorAccepted("fuel:oil", "kg", dec);
    FactorAccepted("fuel", "oil:kg", dec);
    FuelClashes();
    ClashingKeys("fuel:oil", "kg", "fuel", "oil:kg");
    var rows := [FactorRow("fuel:oil", "kg"), FactorRow("fuel", "oil:kg")];
    hide SameKey;
    TwoFactors(inp, rows, dec, ctx);
  }

  lemma FactorKeys(id: string, unit: string)
    requires Stripped(id) && Stripped(unit) && id != [] && unit != []
    ensures KeyCells(Csv.Ghg, FactorRow(id, unit)) == [id, unit] && Version(Csv.Ghg, FactorRow(id, unit)) == "v1"
    ensures Csv.Cell(Csv.Ghg, FactorRow(id, unit), SourceYear) == "2024"
  {
    FactorCells(id, unit);
    hide FactorRow, Csv.Cell;
  }

  lemma ClashingKeys(a: string, s: string, b: string, t: string)
    requires Stripped(a) && Stripped(s) && a != [] && s != [] && Stripped(b) && Stripped(t) && b != [] && t != []
    requires Clash([a, s], [b, t]) && a != b
    ensures SameKey(Csv.Ghg, FactorRow(a, s), FactorRow(b, t))
    ensures KeyCells(Csv.Ghg, FactorRow(a, s)) != KeyCells(Csv.Ghg, FactorRow(b, t))
  {
    FactorKeys(a, s);
    FactorKeys(b, t);
    hide FactorRow, Csv.Cell, MasterYear, Clash, KeyCells, Version;
    SameYear(FactorRow(a, s), FactorRow(b, t));
    assert [a, s][0] != [b, t][0];
  }

  lemma FuelClashes()
    ensures Clash(["fuel:oil", "kg"], ["fuel", "oil:kg"]) && |"fuel:oil"| != |"fuel"|
  {
    var xs, ys := ["fuel:oil", "kg"], ["fuel", "oil:kg"];
    assert xs[1..] == ["kg"] && ys[1..] == ["oil:kg"];
    assert |xs[0]| == 8 && |ys[0]| == 4;
    assert xs[0][..4] == ys[0] && xs[0][4] == ':' && xs[0][5..] == "oil";
    assert RunsOver(xs[0], "kg", ys[0], "oil:kg");
  }

  lemma TwoParsed(inp: Csv.Input, rows: seq<Csv.Row>, dec: Dec)
    requires |rows| == 2 && Accepted(Csv.Ghg, rows[0], dec) && Accepted(Csv.Ghg, rows[1], dec)
    ensures Csv.Parsed(Csv.Ghg, inp, rows, dec).status.Success? && Csv.AcceptedAt(Csv.Ghg, rows, dec) == [0, 1]
  {
    BothAccepted(rows, dec);
    hide Csv.Parsed, Csv.AcceptedAt, Accepted, Csv.RecordsAre, Csv.AnyRowInError, Csv.Count;
    Csv.ParsedMeans(Csv.Ghg, inp, rows, dec);
  }

  lemma SecondConflicts(inp: Csv.Input, rows: seq<Csv.Row>, dec: Dec, ctx: W.Context)
    requires Csv.ValidInput(inp) && |rows| == 2 && SameKey(Csv.Ghg, rows[0], rows[1]) && NoCollision(Csv.Ghg, inp, rows, dec, ctx)
    requires Csv.Parsed(Csv.Ghg, inp, rows, dec).status.Success? && Csv.AcceptedAt(Csv.Ghg, rows, dec) == [0, 1]
    ensures W.DetailConflict(2) in CommandFor(inp, rows, dec, ctx).issues
  {
    hide Csv.Parsed, Csv.AcceptedAt, W.CommandOf, SameKey, NoCollision, Csv.ValidInput, RowsOf;
    ConflictsReported(Csv.Ghg, inp, rows, dec, ctx, W.DetailConflict(2));
  }

  lemma OneDetail(inp: Csv.Input, rows: seq<Csv.Row>, dec: Dec, ctx: W.Context)
    requires Csv.ValidInput(inp) && NoCollision(Csv.Ghg, inp, rows, dec, ctx)
    requires Csv.Parsed(Csv.Ghg, inp, rows, dec).status.Success? && Csv.AcceptedAt(Csv.Ghg, rows, dec) == [0, 1]
    ensures |CommandFor(inp, rows, dec, ctx).details| + |CommandFor(inp, rows, dec, ctx).issues| == 2
  {
    hide Csv.Parsed, Csv.AcceptedAt, W.CommandOf, SameIdentity, NoCollision, Csv.ValidInput, RowsOf;
    ParsedPersists(Csv.Ghg, inp, rows, dec, ctx);
  }

  lemma TwoFactors(inp: Csv.Input, rows: seq<Csv.Row>, dec: Dec, ctx: W.Context)
    requires Csv.ValidInput(inp) && |rows| == 2 && Accepted(Csv.Ghg, rows[0], dec) && Accepted(Csv.Ghg, rows[1], dec)
    requires SameKey(Csv.Ghg, rows[0], rows[1])
    ensures Csv.Parsed(Csv.Ghg, inp, rows, dec).status.Success? && Csv.AcceptedAt(Csv.Ghg, rows, dec) == [0, 1]
    ensures W.DetailConflict(2) in CommandFor(inp, rows, dec, ctx).issues && |CommandFor(inp, rows, dec, ctx).details| <= 1
  {
    hide Csv.Parsed, Csv.AcceptedAt, CommandFor, SameKey, NoCollision, Csv.ValidInput, Accepted;
    TwoParsed(inp, rows, dec);
    OneMaster(inp, rows, dec, ctx);
    SecondConflicts(inp, rows, dec, ctx);
    OneDetail(inp, rows, dec, ctx);
  }

  /** Rows of one year and version have one master key, so nothing can collide. */
  lemma OneMaster(inp: Csv.Input, rows: seq<Csv.Row>, dec: Dec, ctx: W.Context)
    requires |rows| == 2 && SameKey(Csv.Ghg, rows[0], rows[1])
    ensures NoCollision(Csv.Ghg, inp, rows, dec, ctx)
  {
    hide MasterYear, Version, KeyCells, Accepted, W.MasterId, Clash, W.JoinKey;
    assert forall i :: 0 <= i < |rows| ==> MasterKeyText(Csv.Ghg, inp, rows[i]) == MasterKeyText(Csv.Ghg, inp, rows[0]);
  }
}
