/** src/carbonfactor_parser/persistence/parsed_factor_persistence_writer.py: one raw record to a master
    and a detail row, and the loop that de-duplicates both. Digests are a parameter. */
module FactorWriter {
  import opened Text
  import opened Footers
  import opened Fields
  import opened Firsts

  datatype SourceFamily = GHG | DEFRA | IPCC

  function FamilyValue(f: SourceFamily): string {
    match f case GHG => "ghg" case DEFRA => "defra" case IPCC => "ipcc"
  }

  function FamilyAlias(text: string): Option<SourceFamily> {
    var key := Lower(Strip(text));
    if key == "ghg" || key == "ghg_protocol" then Some(GHG)
    else if key == "defra" || key == "defra_desnz" || key == "desnz" then Some(DEFRA)
    else if key == "ipcc" || key == "ipcc_efdb" then Some(IPCC)
    else None
  }

  /** _PersistenceRow. */
  datatype Row = Row(sourceFamily: string, sourceId: string, rowId: string, fields: FieldMap, artifact: Option<string>,
                     checksum: Option<string>, rowNumber: nat, honorExplicitKey: bool)

  datatype Master = Master(family: SourceFamily, id: string, year: int, version: string, documentId: string,
                           externalKey: string, status: string, artifact: Option<string>, checksum: Option<string>,
                           recordChecksum: string, optional: seq<Option<string>>)

  datatype Detail = Detail(family: SourceFamily, id: string, masterId: string, externalKey: string, rowNumber: nat,
                           factorId: Option<string>, factorName: Option<string>, value: string, unit: string,
                           status: string, recordChecksum: string, fields: FieldMap)

  datatype Issue =
    | UnsupportedFamily(position: nat)
    | MissingRequired(position: nat, field: Name)
    | MasterConflict(position: nat)
    | DetailConflict(position: nat)
    | NoRecordsGiven

  /** The digest of a list of values, and what else every row of one call shares. */
  datatype Context = Context(digest: seq<Value> -> string, documentId: Option<string>, status: string)

  function Short(s: string, n: nat): string { if |s| <= n then s else s[..n] }

  // ---------------------------------------------------------------- keys and years

  /** Four characters that are a year from 1900 to 2999. */
  predicate IsYear(s: string) { |s| == 4 && AllDigits(s) && 1900 <= NatOf(s) <= 2999 }

  /** _year_from_text: the leftmost such four characters. */
  function YearIn(text: string): (r: Option<string>)
    ensures r.Some? ==> IsYear(r.value)
  {
    if |text| < 4 then None
    else if AllDigits(text[..4]) && 1900 <= NatOf(text[..4]) <= 2999 then Some(text[..4])
    else YearIn(text[1..])
  }

  function ReadText(fields: FieldMap, names: seq<Name>): Option<string> { TextOrNone(Lookup(fields, names)) }

  function YearText(row: Row): string {
    var explicit := ReadText(row.fields, [Late(SourceArtifactYear), Late(ArtifactYear), Late(ReportingYear)]);
    var version := ReadText(row.fields, [SourceVersion]);
    if explicit.Some? then explicit.value
    else if version.Some? && YearIn(version.value).Some? then YearIn(version.value).value
    else Or(ReadText(row.fields, [SourceYear]), "unknown-year")
  }

  function ArtifactOf(row: Row): string {
    Or(OrElse(row.artifact, ReadText(row.fields, [Late(SourceArtifactReference), Late(ArtifactReference), ProvenanceArtifactReference])),
       "artifact-unavailable")
  }

  function ChecksumOf(row: Row): string {
    Or(OrElse(row.checksum, ReadText(row.fields, [Late(SourceChecksumSha256), Late(ChecksumSha256), ProvenanceChecksumValue])),
       "checksum-unavailable")
  }

  function JoinKey(year: string, version: string, artifact: string, checksum: string): string {
    year + ":" + (version + (":" + artifact + ":" + checksum))
  }

  function DefaultMasterKey(row: Row): string {
    JoinKey(YearText(row), Or(ReadText(row.fields, [SourceVersion]), "unknown-version"), ArtifactOf(row), ChecksumOf(row))
  }

  function DefaultDetailKey(row: Row): string {
    var id := Or(ReadText(row.fields, [FactorId]), row.rowId);
    var unit := Or(ReadText(row.fields, [Late(FactorUnit), Unit]), "unknown-unit");
    var gas := ReadText(row.fields, [GreenhouseGas, Gas]);
    id + ":" + unit + (if gas.Some? then ":" + gas.value else [])
  }

  function DocumentId(row: Row, ctx: Context): Option<string> {
    var explicit := if ctx.documentId.Some? then NonBlank(ctx.documentId.value) else None;
    var stored := ReadText(row.fields, [Late(SourceDocumentId)]);
    var artifact := OrElse(ReadText(row.fields, [ProvenanceArtifactReference, Late(ArtifactReference)]), row.artifact);
    var checksum := ReadText(row.fields, [ProvenanceChecksumValue, Late(SourceChecksumSha256)]);
    if explicit.Some? then explicit
    else if stored.Some? then stored
    else if artifact.None? && checksum.None? then None
    else
      Some("source_document_" + Short(ctx.digest([Text(row.sourceFamily), Text(row.sourceId), OptionValue(artifact), OptionValue(checksum)]), 24))
  }

  function OptionValue(s: Option<string>): Value { if s.Some? then Text(s.value) else Nothing }

  const OPTIONAL := [SourceRelease, IngestionRunId, RunId, ArchiveReference, ArchiveChecksumSha256, EffectiveFrom,
                     EffectiveTo, ParserKey]

  // ---------------------------------------------------------------- one row

  datatype Mapped = Mapped(rows: Option<(Master, Detail)>, issues: seq<Issue>)

  function MasterKeyOf(row: Row): string {
    var explicit := if row.honorExplicitKey then ReadText(row.fields, [MasterExternalKey]) else None;
    Or(explicit, DefaultMasterKey(row))
  }

  function MasterId(family: SourceFamily, key: string, digest: seq<Value> -> string): string {
    FamilyValue(family) + "_master_" + Short(digest([Text(FamilyValue(family)), Text(key)]), 16)
  }

  function MasterOf(row: Row, ctx: Context, family: SourceFamily, documentId: string, year: int): Master {
    var key := MasterKeyOf(row);
    Master(family, MasterId(family, key, ctx.digest), year, Or(ReadText(row.fields, [SourceVersion]), "unknown"), documentId,
           key, ctx.status, row.artifact,
           OrElse(row.checksum, ReadText(row.fields, [ProvenanceChecksumValue, Late(SourceChecksumSha256)])),
           ctx.digest([Text("master"), Text(FamilyValue(family)), Text(documentId), Text(key), Text(ctx.status)]),
           Optionals(row.fields, OPTIONAL))
  }

  function Optionals(fields: FieldMap, names: seq<LateName>): seq<Option<string>> {
    if names == [] then [] else [ReadText(fields, [Late(names[0])])] + Optionals(fields, names[1..])
  }

  function DetailKeyOf(row: Row): string { Or(ReadText(row.fields, [DetailExternalKey]), DefaultDetailKey(row)) }

  function DetailOf(row: Row, ctx: Context, family: SourceFamily): Detail {
    var masterId := MasterId(family, MasterKeyOf(row), ctx.digest);
    var key := DetailKeyOf(row);
    var value, unit := Lookup(row.fields, [FactorValue, Late(PlainValue)]), Lookup(row.fields, [Late(FactorUnit), Unit]);
    Detail(family,
           Or(ReadText(row.fields, [SourceFamilyDetailId]),
              FamilyValue(family) + "_detail_" + Short(ctx.digest([Text(FamilyValue(family)), Text(masterId), Text(key)]), 16)),
           masterId, key, row.rowNumber, ReadText(row.fields, [FactorId]), ReadText(row.fields, [FactorName]),
           Or(TextOrNone(value), []), Or(TextOrNone(unit), []), ctx.status,
           ctx.digest([Text("detail"), Text(FamilyValue(family)), Text(masterId), Text(key), value, unit]), row.fields)
  }

  function MissingIf(missing: bool, position: nat, field: Name): seq<Issue> {
    if missing then [MissingRequired(position, field)] else []
  }

  function MissingValues(row: Row, position: nat, ctx: Context): seq<Issue> {
    MissingIf(DocumentId(row, ctx).None? || NonBlank(DocumentId(row, ctx).value).None?, position, Late(SourceDocumentId))
    + MissingIf(ReadText(row.fields, [FactorValue, Late(PlainValue)]).None?, position, FactorValue)
    + MissingIf(ReadText(row.fields, [Late(FactorUnit), Unit]).None?, position, Late(FactorUnit))
  }

  function MapRow(row: Row, position: nat, ctx: Context): Mapped {
    var family := FamilyAlias(row.sourceFamily);
    if family.None? then Mapped(None, [UnsupportedFamily(position)])
    else
      var missing := MissingValues(row, position, ctx);
      var year := IntOf(YearText(row));
      if missing != [] || DocumentId(row, ctx).None? then Mapped(None, missing)
      else if year.None? then Mapped(None, [MissingRequired(position, SourceYear)])
      else Mapped(Some((MasterOf(row, ctx, family.value, DocumentId(row, ctx).value, year.value), DetailOf(row, ctx, family.value))), [])
  }

  /** A row maps to this master and detail exactly when its family is known and it has a document, a value,
      a unit and a year. */
  lemma MapRowComplete(row: Row, position: nat, ctx: Context, family: SourceFamily, documentId: string, year: int)
    ensures MapRow(row, position, ctx) == Mapped(Some((MasterOf(row, ctx, family, documentId, year), DetailOf(row, ctx, family))), [])
            <==> FamilyAlias(row.sourceFamily) == Some(family)
                 && DocumentId(row, ctx) == Some(documentId) && NonBlank(documentId).Some?
                 && ReadText(row.fields, [FactorValue, Late(PlainValue)]).Some? && ReadText(row.fields, [Late(FactorUnit), Unit]).Some?
                 && IntOf(YearText(row)) == Some(year)
  {
    hide FamilyAlias, DocumentId, NonBlank, ReadText, IntOf, YearText, MasterKeyOf, MasterId, Optionals;
  }

  predicate YearAt(text: string, i: nat) { i + 4 <= |text| && IsYear(text[i..i + 4]) }

  /** The leftmost year of the text, and None exactly when there is none. */
  lemma {:induction false} YearInMeans(text: string)
    ensures YearIn(text).None? <==> forall i: nat :: !YearAt(text, i)
    ensures YearIn(text).Some? ==>
              exists k: nat :: YearAt(text, k) && text[k..k + 4] == YearIn(text).value && forall i: nat :: i < k ==> !YearAt(text, i)
  {
    if |text| >= 4 {
      assert text[0..4] == text[..4];
      if YearAt(text, 0) {
      } else {
        YearInMeans(text[1..]);
        forall i: nat ensures YearAt(text, i + 1) <==> YearAt(text[1..], i) {
          if i + 5 <= |text| { assert text[1..][i..i + 4] == text[i + 1..i + 5]; }
        }
        if YearIn(text).Some? {
          var k: nat :| YearAt(text[1..], k) && text[1..][k..k + 4] == YearIn(text[1..]).value && forall i: nat :: i < k ==> !YearAt(text[1..], i);
          assert YearAt(text, k + 1) && text[k + 1..k + 5] == text[1..][k..k + 4];
          forall i: nat | i < k + 1 ensures !YearAt(text, i) { if i > 0 { assert !YearAt(text[1..], i - 1); } }
        } else {
          forall i: nat ensures !YearAt(text, i) { if i > 0 { assert !YearAt(text[1..], i - 1); } }
        }
      }
    }
  }

  // ---------------------------------------------------------------- the loop

  type MasterKey = (SourceFamily, string)
  type DetailKey = (SourceFamily, string, string)

  function KeyOfMaster(m: Master): MasterKey { (m.family, m.id) }

  function KeyOfDetail(d: Detail): DetailKey { (d.family, d.masterId, d.externalKey) }

  datatype Command = Command(masters: seq<Master>, details: seq<Detail>, skipped: nat, issues: seq<Issue>)

  /** The dictionaries as lists of key and value in insertion order. */
  datatype Loop = Loop(masters: seq<(MasterKey, Master)>, details: seq<(DetailKey, Detail)>, skipped: nat, issues: seq<Issue>)

  function MasterIssues(l: Loop, m: Master, position: nat): seq<Issue> {
    var existing := Get(l.masters, KeyOfMaster(m));
    if existing.Some? && existing.value != m then [MasterConflict(position)] else []
  }

  function DetailIssues(l: Loop, d: Detail, position: nat): seq<Issue> {
    var existing := Get(l.details, KeyOfDetail(d));
    if existing.Some? && existing.value != d then [DetailConflict(position)] else []
  }

  function TakeMapped(l: Loop, mapped: Mapped, position: nat): Loop {
    if mapped.rows.None? then l.(issues := l.issues + mapped.issues)
    else
      var (m, d) := mapped.rows.value;
      Loop(Put(l.masters, (KeyOfMaster(m), m)),
           Put(l.details, (KeyOfDetail(d), d)),
           l.skipped + (if Get(l.details, KeyOfDetail(d)) == Some(d) then 1 else 0),
           l.issues + mapped.issues + MasterIssues(l, m, position) + DetailIssues(l, d, position))
  }

  /** Positions count from 1. */
  function WriteAll(rows: seq<Row>, ctx: Context): Loop {
    if rows == [] then Loop([], [], 0, [])
    else
      var n := |rows| - 1;
      TakeMapped(WriteAll(rows[..n], ctx), MapRow(rows[n], n + 1, ctx), n + 1)
  }

  function CommandOf(rows: seq<Row>, ctx: Context): Command {
    if rows == [] then Command([], [], 0, [NoRecordsGiven])
    else
      var l := WriteAll(rows, ctx);
      Command(Values(l.masters), Values(l.details), l.skipped, l.issues)
  }

  /** build_parsed_factor_persistence_command, up to the repository's own validation. */
  method BuildCommand(rows: seq<Row>, ctx: Context) returns (r: Command)
    ensures r == CommandOf(rows, ctx)
  {
    hide MapRow, Get;
    if rows == [] { return Command([], [], 0, [NoRecordsGiven]); }
    var issues: seq<Issue> := [];
    var masters: seq<(MasterKey, Master)> := [];
    var details: seq<(DetailKey, Detail)> := [];
    var skipped: nat := 0;
    for i := 0 to |rows|
      invariant Loop(masters, details, skipped, issues) == WriteAll(rows[..i], ctx)
    {
      assert rows[..i + 1][..i] == rows[..i];
      ghost var l := WriteAll(rows[..i], ctx);
      var mapped := MapRow(rows[i], i + 1, ctx);
      issues := issues + mapped.issues;
      if mapped.rows.None? { continue; }
      var (master, detail) := mapped.rows.value;
      var existingMaster := Get(masters, KeyOfMaster(master));
      if existingMaster.None? {
        masters := masters + [(KeyOfMaster(master), master)];
      } else if existingMaster.value != master {
        issues := issues + [MasterConflict(i + 1)];
      }
      assert issues == l.issues + mapped.issues + MasterIssues(l, master, i + 1);
      var existingDetail := Get(details, KeyOfDetail(detail));
      if existingDetail.None? {
        details := details + [(KeyOfDetail(detail), detail)];
      } else if existingDetail.value == detail {
        skipped := skipped + 1;
      } else {
        issues := issues + [DetailConflict(i + 1)];
      }
      assert issues == l.issues + mapped.issues + MasterIssues(l, master, i + 1) + DetailIssues(l, detail, i + 1);
    }
    assert rows[..|rows|] == rows;
    return Command(Values(masters), Values(details), skipped, issues);
  }

  // ---------------------------------------------------------------- conservation

  /** The rows that map, in order. */
  function MappedRows(rows: seq<Row>, ctx: Context): seq<(Master, Detail)> {
    if rows == [] then []
    else
      var n := |rows| - 1;
      var mapped := MapRow(rows[n], n + 1, ctx);
      MappedRows(rows[..n], ctx) + if mapped.rows.Some? then [mapped.rows.value] else []
  }

  function MasterEntries(pairs: seq<(Master, Detail)>): seq<(MasterKey, Master)> {
    seq(|pairs|, i requires 0 <= i < |pairs| => (KeyOfMaster(pairs[i].0), pairs[i].0))
  }

  function DetailEntries(pairs: seq<(Master, Detail)>): seq<(DetailKey, Detail)> {
    seq(|pairs|, i requires 0 <= i < |pairs| => (KeyOfDetail(pairs[i].1), pairs[i].1))
  }

  function DetailConflicts(issues: seq<Issue>): nat {
    if issues == [] then 0 else DetailConflicts(issues[..|issues| - 1]) + if issues[|issues| - 1].DetailConflict? then 1 else 0
  }

  lemma {:induction false} ConflictsAppend(a: seq<Issue>, b: seq<Issue>)
    ensures DetailConflicts(a + b) == DetailConflicts(a) + DetailConflicts(b)
  {
    if b == [] {
      assert a + b == a;
    } else {
      assert (a + b)[..|a + b| - 1] == a + b[..|b| - 1];
      ConflictsAppend(a, b[..|b| - 1]);
    }
  }

  lemma NoConflictsIn(issues: seq<Issue>)
    requires forall issue :: issue in issues ==> !issue.DetailConflict?
    ensures DetailConflicts(issues) == 0
  {
    if issues != [] {
      assert issues[|issues| - 1] in issues;
      NoConflictsIn(issues[..|issues| - 1]);
    }
  }

  lemma EntriesMore(pairs: seq<(Master, Detail)>, pair: (Master, Detail))
    ensures MasterEntries(pairs + [pair]) == MasterEntries(pairs) + [(KeyOfMaster(pair.0), pair.0)]
    ensures DetailEntries(pairs + [pair]) == DetailEntries(pairs) + [(KeyOfDetail(pair.1), pair.1)]
  {
  }

  /** The two dictionaries are the first occurrences of their keys, and every mapped row is kept, counted
      as skipped, or reported as a conflict. */
  lemma {:induction false} RowsConserved(rows: seq<Row>, ctx: Context)
    ensures var l, pairs := WriteAll(rows, ctx), MappedRows(rows, ctx);
            && l.masters == Kept(MasterEntries(pairs))
            && l.details == Kept(DetailEntries(pairs))
            && |pairs| == |l.details| + l.skipped + DetailConflicts(l.issues)
    decreases |rows|
  {
    if rows != [] {
      var n := |rows| - 1;
      RowsConserved(rows[..n], ctx);
      ConservedStep(WriteAll(rows[..n], ctx), MappedRows(rows[..n], ctx), rows[n], n + 1, ctx);
    }
  }

  lemma ConservedStep(l: Loop, pairs: seq<(Master, Detail)>, row: Row, position: nat, ctx: Context)
    requires l.masters == Kept(MasterEntries(pairs)) && l.details == Kept(DetailEntries(pairs))
    requires |pairs| == |l.details| + l.skipped + DetailConflicts(l.issues)
    ensures var mapped := MapRow(row, position, ctx);
            var m, more := TakeMapped(l, mapped, position), pairs + if mapped.rows.Some? then [mapped.rows.value] else [];
            && m.masters == Kept(MasterEntries(more)) && m.details == Kept(DetailEntries(more))
            && |more| == |m.details| + m.skipped + DetailConflicts(m.issues)
  {
    hide Kept, Put, MapRow, MasterEntries, DetailEntries;
    var mapped := MapRow(row, position, ctx);
    TakenCounted(l, row, position, ctx);
    if mapped.rows.Some? {
      var (master, detail) := mapped.rows.value;
      EntriesMore(pairs, mapped.rows.value);
      KeptMore(MasterEntries(pairs), (KeyOfMaster(master), master));
      KeptMore(DetailEntries(pairs), (KeyOfDetail(detail), detail));
    } else {
      assert pairs + [] == pairs;
    }
  }

  /** A mapped row adds one to the details, the skipped or the conflicts; any other adds to none. */
  lemma TakenCounted(l: Loop, row: Row, position: nat, ctx: Context)
    ensures var mapped := MapRow(row, position, ctx);
            var m := TakeMapped(l, mapped, position);
            |m.details| + m.skipped + DetailConflicts(m.issues)
            == |l.details| + l.skipped + DetailConflicts(l.issues) + if mapped.rows.Some? then 1 else 0
  {
    hide MapRow, DetailConflicts, Get;
    var mapped := MapRow(row, position, ctx);
    MapRowIssues(row, position, ctx);
    NoConflictsIn(mapped.issues);
    ConflictsAppend(l.issues, mapped.issues);
    if mapped.rows.Some? {
      var (master, detail) := mapped.rows.value;
      var mi, di := MasterIssues(l, master, position), DetailIssues(l, detail, position);
      NoConflictsIn(mi);
      ConflictsAppend(l.issues + mapped.issues, mi);
      ConflictsAppend(l.issues + mapped.issues + mi, di);
      OneConflict(l, detail, position);
    }
  }

  lemma OneConflict(l: Loop, detail: Detail, position: nat)
    ensures DetailConflicts(DetailIssues(l, detail, position)) == |DetailIssues(l, detail, position)|
  {
    assert [DetailConflict(position)][..0] == [];
  }

  lemma MapRowIssues(row: Row, position: nat, ctx: Context)
    ensures forall issue :: issue in MapRow(row, position, ctx).issues ==> issue.UnsupportedFamily? || issue.MissingRequired?
    ensures MapRow(row, position, ctx).rows.Some? <==> MapRow(row, position, ctx).issues == []
    ensures var mapped := MapRow(row, position, ctx);
            mapped.rows.Some? ==> mapped.rows.value.1.masterId == mapped.rows.value.0.id
                                  && mapped.rows.value.1.family == mapped.rows.value.0.family
  {
    hide YearText, MasterKeyOf, DetailKeyOf, ReadText, MasterId;
  }

  lemma {:induction false} PairsLinked(rows: seq<Row>, ctx: Context)
    ensures forall pair :: pair in MappedRows(rows, ctx) ==> pair.1.masterId == pair.0.id && pair.1.family == pair.0.family
    decreases |rows|
  {
    if rows != [] {
      PairsLinked(rows[..|rows| - 1], ctx);
      MapRowIssues(rows[|rows| - 1], |rows|, ctx);
      hide MapRow;
    }
  }

  /** No two masters and no two details of a command share a key; each is the first with its key among
      the mapped rows; and every detail's master is there. */
  lemma CommandKeys(rows: seq<Row>, ctx: Context)
    ensures var l, pairs := WriteAll(rows, ctx), MappedRows(rows, ctx);
            && DistinctKeys(l.masters) && DistinctKeys(l.details)
            && (forall k :: Get(l.masters, k) == Get(MasterEntries(pairs), k))
            && (forall k :: Get(l.details, k) == Get(DetailEntries(pairs), k))
            && (forall i :: 0 <= i < |l.details| ==> Get(l.masters, (l.details[i].1.family, l.details[i].1.masterId)).Some?)
  {
    hide Kept, WriteAll, MapRow, MappedRows;
    var l, pairs := WriteAll(rows, ctx), MappedRows(rows, ctx);
    RowsConserved(rows, ctx);
    KeptDistinct(MasterEntries(pairs));
    KeptDistinct(DetailEntries(pairs));
    forall k ensures Get(l.masters, k) == Get(MasterEntries(pairs), k) { KeptGet(MasterEntries(pairs), k); }
    forall k ensures Get(l.details, k) == Get(DetailEntries(pairs), k) { KeptGet(DetailEntries(pairs), k); }
    forall i | 0 <= i < |l.details|
      ensures Get(l.masters, (l.details[i].1.family, l.details[i].1.masterId)).Some?
    {
      DetailHasMaster(rows, ctx, l.details, i);
    }
  }

  lemma DetailHasMaster(rows: seq<Row>, ctx: Context, details: seq<(DetailKey, Detail)>, i: nat)
    requires i < |details| && details == Kept(DetailEntries(MappedRows(rows, ctx)))
    ensures Get(MasterEntries(MappedRows(rows, ctx)), (details[i].1.family, details[i].1.masterId)).Some?
  {
    hide Kept, MapRow, MappedRows;
    var pairs := MappedRows(rows, ctx);
    PairsLinked(rows, ctx);
    KeptDistinct(DetailEntries(pairs));
    DistinctGet(details, i);
    KeptGet(DetailEntries(pairs), details[i].0);
    var j := GetFirst(DetailEntries(pairs), details[i].0);
    assert pairs[j] in pairs;
    assert MasterEntries(pairs)[j].0 == (details[i].1.family, details[i].1.masterId);
    GetSome(MasterEntries(pairs), j);
  }

  /** Rows that come later only add behind: masters and details stand in input order. */
  lemma {:induction false} InputOrder(rows: seq<Row>, n: nat, ctx: Context)
    requires n <= |rows|
    ensures WriteAll(rows[..n], ctx).masters <= WriteAll(rows, ctx).masters
    ensures WriteAll(rows[..n], ctx).details <= WriteAll(rows, ctx).details
    decreases |rows|
  {
    hide MapRow, Get;
    if n == |rows| {
      assert rows[..n] == rows;
    } else {
      assert rows[..|rows| - 1][..n] == rows[..n];
      InputOrder(rows[..|rows| - 1], n, ctx);
    }
  }

  /** Nothing is skipped and nothing conflicts exactly when no two mapped rows share a detail key; then
      the details are the mapped rows, one for one. */
  lemma AllDetailsKept(rows: seq<Row>, ctx: Context)
    ensures var l, entries := WriteAll(rows, ctx), DetailEntries(MappedRows(rows, ctx));
            && (l.skipped == 0 && DetailConflicts(l.issues) == 0 <==> DistinctKeys(entries))
            && (DistinctKeys(entries) ==> l.details == entries)
  {
    hide Kept, WriteAll, MapRow, MappedRows, DistinctKeys, DetailConflicts;
    RowsConserved(rows, ctx);
    KeptAll(DetailEntries(MappedRows(rows, ctx)));
  }

  // ---------------------------------------------------------------- issues

  function PositionOf(issue: Issue): nat {
    match issue
    case UnsupportedFamily(p) => p
    case MissingRequired(p, _) => p
    case MasterConflict(p) => p
    case DetailConflict(p) => p
    case NoRecordsGiven => 0
  }

  /** The issue row i gives rise to after the rows before it: its own, or that an earlier row with its
      key, the first such, has other content. */
  predicate Reports(rows: seq<Row>, i: nat, ctx: Context, issue: Issue)
    requires i < |rows|
  {
    var mapped, before := MapRow(rows[i], i + 1, ctx), MappedRows(rows[..i], ctx);
    match issue
    case MasterConflict(_) =>
      mapped.rows.Some? && var m := mapped.rows.value.0;
      Get(MasterEntries(before), KeyOfMaster(m)).Some? && Get(MasterEntries(before), KeyOfMaster(m)) != Some(m)
    case DetailConflict(_) =>
      mapped.rows.Some? && var d := mapped.rows.value.1;
      Get(DetailEntries(before), KeyOfDetail(d)).Some? && Get(DetailEntries(before), KeyOfDetail(d)) != Some(d)
    case _ => issue in mapped.issues
  }

  lemma MapRowPositions(row: Row, position: nat, ctx: Context)
    ensures forall issue :: issue in MapRow(row, position, ctx).issues ==> PositionOf(issue) == position
    ensures forall issue :: issue in MapRow(row, position, ctx).issues ==> issue.UnsupportedFamily? || issue.MissingRequired?
  {
    hide YearText, MasterOf, DetailOf, ReadText, DocumentId, NonBlank, FamilyAlias, IntOf;
  }

  lemma TakenIssue(rows: seq<Row>, i: nat, ctx: Context, l: Loop, issue: Issue)
    requires i < |rows|
    requires l.masters == Kept(MasterEntries(MappedRows(rows[..i], ctx))) && l.details == Kept(DetailEntries(MappedRows(rows[..i], ctx)))
    ensures issue in TakeMapped(l, MapRow(rows[i], i + 1, ctx), i + 1).issues
            <==> issue in l.issues || (PositionOf(issue) == i + 1 && Reports(rows, i, ctx, issue))
  {
    hide MapRow, Kept, Get, MasterEntries, DetailEntries, MappedRows;
    var mapped, before := MapRow(rows[i], i + 1, ctx), MappedRows(rows[..i], ctx);
    MapRowPositions(rows[i], i + 1, ctx);
    if mapped.rows.Some? {
      KeptGet(MasterEntries(before), KeyOfMaster(mapped.rows.value.0));
      KeptGet(DetailEntries(before), KeyOfDetail(mapped.rows.value.1));
    }
  }

  /** The issues are sound and complete: each is reported by the row at its position, and nothing a row
      has to report is lost. */
  lemma {:induction false} IssuesMean(rows: seq<Row>, ctx: Context, issue: Issue)
    ensures issue in WriteAll(rows, ctx).issues
            <==> 0 < PositionOf(issue) <= |rows| && Reports(rows, PositionOf(issue) - 1, ctx, issue)
    decreases |rows|
  {
    hide TakeMapped, MapRow, PositionOf, Kept;
    if rows != [] {
      var n := |rows| - 1;
      IssuesMean(rows[..n], ctx, issue);
      RowsConserved(rows[..n], ctx);
      TakenIssue(rows, n, ctx, WriteAll(rows[..n], ctx), issue);
      var p := PositionOf(issue);
      if 0 < p <= n { SameReports(rows, n, p - 1, ctx, issue); }
      hide Reports;
    }
  }

  lemma SameReports(rows: seq<Row>, n: nat, i: nat, ctx: Context, issue: Issue)
    requires i < n <= |rows|
    ensures Reports(rows[..n], i, ctx, issue) == Reports(rows, i, ctx, issue)
  {
    assert rows[..n][i] == rows[i] && rows[..n][..i] == rows[..i];
    hide MapRow, MappedRows, MasterEntries, DetailEntries, Get;
  }
}
