/** What the writer makes of a row, column by column: first said on the row's fields, then, for the rows of
    a successful parse, on the cells of the file. */
module DetailColumns {
  import opened Text
  import opened Footers
  import opened Fields
  import opened Firsts
  import W = FactorWriter
  import Csv = NormalizedCsv
  import P = ParsedPersistence
  import C = RecordColumns

  // ---------------------------------------------------------------- reading a field

  /** The name is in the fields and none before it is. */
  predicate FirstThere(fields: FieldMap, names: seq<Name>, k: nat) {
    k < |names| && names[k] in fields && forall j :: 0 <= j < k ==> names[j] !in fields
  }

  /** A look-up gives the value of the first name that is there, whatever it is, and nothing without one. */
  lemma {:induction false} LookupMeans(fields: FieldMap, names: seq<Name>)
    ensures if forall name :: name in names ==> name !in fields then Lookup(fields, names) == Nothing
            else exists k: nat :: FirstThere(fields, names, k) && Lookup(fields, names) == fields[names[k]]
  {
    if names != [] {
      assert names[0] in names;
      if names[0] in fields {
        assert FirstThere(fields, names, 0);
      } else {
        LookupMeans(fields, names[1..]);
        assert forall name :: name in names <==> name == names[0] || name in names[1..];
        if k: nat :| FirstThere(fields, names[1..], k) && Lookup(fields, names[1..]) == fields[names[1..][k]] {
          assert forall j :: 0 < j < |names| ==> names[j] == names[1..][j - 1];
          assert FirstThere(fields, names, k + 1);
        }
      }
    }
  }

  /** A value as text, stripped. */
  function Shown(v: Value): string {
    match v case Nothing => [] case Text(s) => Strip(s) case Int(n) => Strip(IntText(n)) case Dec(d) => Strip(d.text)
  }

  /** The first of the names that is there, as text; a blank one counts as none. */
  function Read(fields: FieldMap, names: seq<Name>): Option<string> {
    var s := Shown(Lookup(fields, names));
    if s == [] then None else Some(s)
  }

  lemma Reads(fields: FieldMap, names: seq<Name>)
    ensures W.ReadText(fields, names) == Read(fields, names)
  {
    hide Strip, Lookup;
  }

  // ---------------------------------------------------------------- one row, said on its fields

  function Word(f: W.SourceFamily): string { match f case GHG => "ghg" case DEFRA => "defra" case IPCC => "ipcc" }

  /** The names a family goes by, in whatever case. */
  predicate GoesBy(f: W.SourceFamily, name: string) {
    match f
    case GHG => name in {"ghg", "ghg_protocol"}
    case DEFRA => name in {"defra", "defra_desnz", "desnz"}
    case IPCC => name in {"ipcc", "ipcc_efdb"}
  }

  /** The first n characters. */
  predicate IsStart(s: string, n: nat, whole: string) { s <= whole && |s| == if |whole| < n then |whole| else n }

  /** Tagged with the family, what it is and sixteen characters of a digest. */
  ghost predicate IsDigestId(id: string, f: W.SourceFamily, kind: string, digest: string) {
    exists short :: IsStart(short, 16, digest) && id == Word(f) + kind + short
  }

  /** The year a row is filed under: one stated for the artifact, else one in the version, else the source year. */
  function FiledYear(fields: FieldMap): string {
    match Read(fields, [Late(SourceArtifactYear), Late(ArtifactYear), Late(ReportingYear)])
    case Some(year) => year
    case None =>
      var version := Read(fields, [SourceVersion]);
      if version.Some? && W.YearIn(version.value).Some? then W.YearIn(version.value).value
      else Or(Read(fields, [SourceYear]), "unknown-year")
  }

  /** The document: the one given, else the one in the fields, else one made up from the source, where there is
      an artifact or a checksum. */
  ghost predicate IsDocument(row: W.Row, ctx: W.Context, id: string) {
    var artifact := OrElse(Read(row.fields, [ProvenanceArtifactReference, Late(ArtifactReference)]), row.artifact);
    var checksum := Read(row.fields, [ProvenanceChecksumValue, Late(SourceChecksumSha256)]);
    if ctx.documentId.Some? && Strip(ctx.documentId.value) != [] then id == Strip(ctx.documentId.value)
    else if Read(row.fields, [Late(SourceDocumentId)]).Some? then Some(id) == Read(row.fields, [Late(SourceDocumentId)])
    else
      && (artifact.Some? || checksum.Some?)
      && exists short :: IsStart(short, 24, ctx.digest([Text(row.sourceFamily), Text(row.sourceId), TextIf(artifact), TextIf(checksum)]))
                         && id == "source_document_" + short
  }

  function TextIf(s: Option<string>): Value { match s case None => Nothing case Some(text) => Text(text) }

  function MasterKeyFor(row: W.Row): string {
    FiledYear(row.fields) + ":" + Or(Read(row.fields, [SourceVersion]), "unknown-version") + ":"
    + Or(OrElse(row.artifact, Read(row.fields, [Late(SourceArtifactReference), Late(ArtifactReference), ProvenanceArtifactReference])),
         "artifact-unavailable") + ":"
    + Or(OrElse(row.checksum, Read(row.fields, [Late(SourceChecksumSha256), Late(ChecksumSha256), ProvenanceChecksumValue])),
         "checksum-unavailable")
  }

  ghost predicate IsMaster(row: W.Row, ctx: W.Context, m: W.Master) {
    && GoesBy(m.family, Lower(Strip(row.sourceFamily)))
    && IsDigestId(m.id, m.family, "_master_", ctx.digest([Text(Word(m.family)), Text(m.externalKey)]))
    && Some(m.year) == IntOf(FiledYear(row.fields)) && m.version == Or(Read(row.fields, [SourceVersion]), "unknown")
    && IsDocument(row, ctx, m.documentId)
    && m.externalKey == (if row.honorExplicitKey && Read(row.fields, [MasterExternalKey]).Some?
                         then Read(row.fields, [MasterExternalKey]).value else MasterKeyFor(row))
    && m.status == ctx.status && m.artifact == row.artifact
    && m.checksum == OrElse(row.checksum, Read(row.fields, [ProvenanceChecksumValue, Late(SourceChecksumSha256)]))
    && m.recordChecksum == ctx.digest([Text("master"), Text(Word(m.family)), Text(m.documentId), Text(m.externalKey), Text(m.status)])
    && m.optional == [Read(row.fields, [Late(SourceRelease)]), Read(row.fields, [Late(IngestionRunId)]), Read(row.fields, [Late(RunId)]),
                      Read(row.fields, [Late(ArchiveReference)]), Read(row.fields, [Late(ArchiveChecksumSha256)]),
                      Read(row.fields, [Late(EffectiveFrom)]), Read(row.fields, [Late(EffectiveTo)]), Read(row.fields, [Late(ParserKey)])]
  }

  function DetailKeyFor(row: W.Row, unit: string): string {
    var gas := Read(row.fields, [GreenhouseGas, Gas]);
    Or(Read(row.fields, [FactorId]), row.rowId) + ":" + unit + if gas.Some? then ":" + gas.value else []
  }

  ghost predicate IsDetail(row: W.Row, ctx: W.Context, m: W.Master, d: W.Detail) {
    var value, unit := Lookup(row.fields, [FactorValue, Late(PlainValue)]), Lookup(row.fields, [Late(FactorUnit), Unit]);
    && d.family == m.family && d.masterId == m.id && d.status == ctx.status && d.rowNumber == row.rowNumber && d.fields == row.fields
    && d.value == Shown(value) != [] && d.unit == Shown(unit) != []
    && d.factorId == Read(row.fields, [FactorId]) && d.factorName == Read(row.fields, [FactorName])
    && d.externalKey == Or(Read(row.fields, [DetailExternalKey]), DetailKeyFor(row, d.unit))
    && (match Read(row.fields, [SourceFamilyDetailId])
        case Some(id) => d.id == id
        case None => IsDigestId(d.id, d.family, "_detail_", ctx.digest([Text(Word(d.family)), Text(d.masterId), Text(d.externalKey)])))
    && d.recordChecksum == ctx.digest([Text("detail"), Text(Word(d.family)), Text(d.masterId), Text(d.externalKey), value, unit])
  }

  lemma ShortIs(s: string, n: nat)
    ensures IsStart(W.Short(s, n), n, s)
  {
  }

  lemma AliasMeans(text: string, f: W.SourceFamily)
    ensures W.FamilyAlias(text) == Some(f) <==> GoesBy(f, Lower(Strip(text)))
  {
    hide Strip, Lower;
  }

  lemma DocumentMeans(row: W.Row, ctx: W.Context)
    ensures W.DocumentId(row, ctx).Some? ==> IsDocument(row, ctx, W.DocumentId(row, ctx).value)
    ensures W.DocumentId(row, ctx).None? ==> !exists id :: IsDocument(row, ctx, id)
  {
    Reads(row.fields, [Late(SourceDocumentId)]);
    Reads(row.fields, [ProvenanceArtifactReference, Late(ArtifactReference)]);
    Reads(row.fields, [ProvenanceChecksumValue, Late(SourceChecksumSha256)]);
    hide W.ReadText, Read, Strip, W.Short;
    forall s: string, n: nat ensures IsStart(W.Short(s, n), n, s) { ShortIs(s, n); }
  }

  lemma YearMeans(row: W.Row)
    ensures W.YearText(row) == FiledYear(row.fields)
  {
    Reads(row.fields, [Late(SourceArtifactYear), Late(ArtifactYear), Late(ReportingYear)]);
    Reads(row.fields, [SourceVersion]);
    Reads(row.fields, [SourceYear]);
    hide W.ReadText, Read, W.YearIn;
  }

  lemma MasterKeyMeans(row: W.Row)
    ensures W.MasterKeyOf(row) == if row.honorExplicitKey && Read(row.fields, [MasterExternalKey]).Some?
                                  then Read(row.fields, [MasterExternalKey]).value else MasterKeyFor(row)
  {
    YearMeans(row);
    Reads(row.fields, [MasterExternalKey]);
    Reads(row.fields, [SourceVersion]);
    Reads(row.fields, [Late(SourceArtifactReference), Late(ArtifactReference), ProvenanceArtifactReference]);
    Reads(row.fields, [Late(SourceChecksumSha256), Late(ChecksumSha256), ProvenanceChecksumValue]);
    hide W.ReadText, Read, W.YearText, FiledYear;
    var year, version := W.YearText(row), Or(Read(row.fields, [SourceVersion]), "unknown-version");
    Joined(year, version, W.ArtifactOf(row), W.ChecksumOf(row));
    hide W.JoinKey;
  }

  lemma Joined(year: string, version: string, artifact: string, checksum: string)
    ensures W.JoinKey(year, version, artifact, checksum) == year + ":" + version + ":" + artifact + ":" + checksum
  {
  }

  lemma IdMeans(f: W.SourceFamily, key: string, digest: seq<Value> -> string)
    ensures IsDigestId(W.MasterId(f, key, digest), f, "_master_", digest([Text(Word(f)), Text(key)]))
  {
    assert W.FamilyValue(f) == Word(f);
    var whole := digest([Text(Word(f)), Text(key)]);
    ShortIs(whole, 16);
    hide W.Short, IsStart;
    assert W.MasterId(f, key, digest) == Word(f) + "_master_" + W.Short(whole, 16);
  }

  lemma OptionalsMean(fields: FieldMap)
    ensures W.Optionals(fields, W.OPTIONAL)
         == [Read(fields, [Late(SourceRelease)]), Read(fields, [Late(IngestionRunId)]), Read(fields, [Late(RunId)]),
             Read(fields, [Late(ArchiveReference)]), Read(fields, [Late(ArchiveChecksumSha256)]), Read(fields, [Late(EffectiveFrom)]),
             Read(fields, [Late(EffectiveTo)]), Read(fields, [Late(ParserKey)])]
  {
    hide *;
    var names := [SourceRelease, IngestionRunId, RunId, ArchiveReference, ArchiveChecksumSha256, EffectiveFrom, EffectiveTo, ParserKey];
    var all := W.Optionals(fields, names);
    OptionalAt(fields, names, 0);
    OptionalAt(fields, names, 1);
    OptionalAt(fields, names, 2);
    OptionalAt(fields, names, 3);
    OptionalAt(fields, names, 4);
    OptionalAt(fields, names, 5);
    OptionalAt(fields, names, 6);
    OptionalAt(fields, names, 7);
    assert all == [all[0], all[1], all[2], all[3], all[4], all[5], all[6], all[7]];
    OptionalNames();
  }

  lemma OptionalNames()
    ensures W.OPTIONAL
         == [SourceRelease, IngestionRunId, RunId, ArchiveReference, ArchiveChecksumSha256, EffectiveFrom, EffectiveTo, ParserKey]
  {
  }

  lemma {:induction false} OptionalAt(fields: FieldMap, names: seq<LateName>, k: nat)
    requires k < |names|
    ensures |W.Optionals(fields, names)| == |names| && W.Optionals(fields, names)[k] == Read(fields, [Late(names[k])])
  {
    Reads(fields, [Late(names[0])]);
    hide W.ReadText, Read;
    if |names| > 1 {
      OptionalAt(fields, names[1..], if k > 0 then k - 1 else 0);
    } else {
      assert names[1..] == [];
    }
  }

  lemma MasterMeans(row: W.Row, ctx: W.Context, f: W.SourceFamily, document: string, year: int)
    requires GoesBy(f, Lower(Strip(row.sourceFamily))) && IsDocument(row, ctx, document) && IntOf(FiledYear(row.fields)) == Some(year)
    ensures IsMaster(row, ctx, W.MasterOf(row, ctx, f, document, year))
  {
    MasterKeyMeans(row);
    IdMeans(f, W.MasterKeyOf(row), ctx.digest);
    OptionalsMean(row.fields);
    Reads(row.fields, [SourceVersion]);
    Reads(row.fields, [ProvenanceChecksumValue, Late(SourceChecksumSha256)]);
    assert W.FamilyValue(f) == Word(f);
    hide W.ReadText, Read, GoesBy, IsDocument, FiledYear, W.MasterKeyOf, MasterKeyFor, W.MasterId, IsDigestId, W.Optionals, W.FamilyValue,
      Word, Strip, Lower;
  }

  lemma DetailKeyMeans(row: W.Row, unit: string)
    requires Read(row.fields, [Late(FactorUnit), Unit]) == Some(unit)
    ensures W.DetailKeyOf(row) == Or(Read(row.fields, [DetailExternalKey]), DetailKeyFor(row, unit))
  {
    Reads(row.fields, [DetailExternalKey]);
    Reads(row.fields, [FactorId]);
    Reads(row.fields, [Late(FactorUnit), Unit]);
    Reads(row.fields, [GreenhouseGas, Gas]);
    hide W.ReadText, Read;
  }

  lemma DetailMeans(row: W.Row, ctx: W.Context, f: W.SourceFamily, m: W.Master)
    requires m.family == f && m.id == W.MasterId(f, W.MasterKeyOf(row), ctx.digest)
    requires Read(row.fields, [FactorValue, Late(PlainValue)]).Some? && Read(row.fields, [Late(FactorUnit), Unit]).Some?
    ensures IsDetail(row, ctx, m, W.DetailOf(row, ctx, f))
  {
    var d := W.DetailOf(row, ctx, f);
    Reads(row.fields, [FactorValue, Late(PlainValue)]);
    Reads(row.fields, [Late(FactorUnit), Unit]);
    Reads(row.fields, [SourceFamilyDetailId]);
    Reads(row.fields, [FactorId]);
    Reads(row.fields, [FactorName]);
    DetailKeyMeans(row, d.unit);
    assert W.FamilyValue(f) == Word(f);
    var whole := ctx.digest([Text(Word(f)), Text(m.id), Text(d.externalKey)]);
    ShortIs(whole, 16);
    hide Strip, IntText, Lookup, W.MasterKeyOf, W.DetailKeyOf, DetailKeyFor, W.MasterId, W.Short, W.FamilyValue, Word, IsStart;
  }

  /** A row maps to one master and one detail, whose columns are these, or it has issues: its family is unknown,
      or it has no document, value, unit or year. */
  lemma MappedMeans(row: W.Row, position: nat, ctx: W.Context)
    ensures match W.MapRow(row, position, ctx).rows
            case Some(pair) => IsMaster(row, ctx, pair.0) && IsDetail(row, ctx, pair.0, pair.1)
            case None => true
  {
    var mapped := W.MapRow(row, position, ctx);
    if mapped.rows.Some? {
      var (m, d) := mapped.rows.value;
      AliasMeans(row.sourceFamily, m.family);
      DocumentMeans(row, ctx);
      YearMeans(row);
      Reads(row.fields, [FactorValue, Late(PlainValue)]);
      Reads(row.fields, [Late(FactorUnit), Unit]);
      hide W.FamilyAlias, W.DocumentId, IsDocument, W.ReadText, Read, W.YearText, FiledYear, IntOf, NonBlank, GoesBy, W.DetailOf,
        W.MasterKeyOf, W.MasterId, W.Optionals, Lower, Strip, IsMaster, IsDetail;
      MasterMeans(row, ctx, m.family, m.documentId, m.year);
      DetailMeans(row, ctx, m.family, m);
    }
  }

  lemma KnownMeans(text: string)
    ensures W.FamilyAlias(text).Some? <==> exists f :: GoesBy(f, Lower(Strip(text)))
  {
    if W.FamilyAlias(text).Some? { AliasMeans(text, W.FamilyAlias(text).value); }
    if f :| GoesBy(f, Lower(Strip(text))) { AliasMeans(text, f); }
    hide W.FamilyAlias, GoesBy, Lower, Strip;
  }

  /** What a row is refused for: an unknown family; else each of the document, the value and the unit that it
      lacks; else a year that is no integer. */
  lemma RefusedMeans(row: W.Row, position: nat, ctx: W.Context, issue: W.Issue)
    ensures issue in W.MapRow(row, position, ctx).issues <==>
              if !exists f :: GoesBy(f, Lower(Strip(row.sourceFamily))) then issue == W.UnsupportedFamily(position)
              else if Lacking(row, ctx) then
                || (issue == W.MissingRequired(position, Late(SourceDocumentId)) && NoDocument(row, ctx))
                || (issue == W.MissingRequired(position, FactorValue) && Read(row.fields, [FactorValue, Late(PlainValue)]).None?)
                || (issue == W.MissingRequired(position, Late(FactorUnit)) && Read(row.fields, [Late(FactorUnit), Unit]).None?)
              else issue == W.MissingRequired(position, SourceYear) && IntOf(FiledYear(row.fields)).None?
  {
    KnownMeans(row.sourceFamily);
    DocumentMeans(row, ctx);
    DocumentShown(row, ctx);
    YearMeans(row);
    Reads(row.fields, [FactorValue, Late(PlainValue)]);
    Reads(row.fields, [Late(FactorUnit), Unit]);
    hide W.FamilyAlias, W.DocumentId, IsDocument, W.ReadText, Read, W.YearText, FiledYear, IntOf, NonBlank, GoesBy, W.DetailOf, W.MasterOf,
      Lower, Strip;
  }

  ghost predicate NoDocument(row: W.Row, ctx: W.Context) { !exists id :: IsDocument(row, ctx, id) }

  ghost predicate Lacking(row: W.Row, ctx: W.Context) {
    NoDocument(row, ctx) || Read(row.fields, [FactorValue, Late(PlainValue)]).None? || Read(row.fields, [Late(FactorUnit), Unit]).None?
  }

  /** A document's name is never blank. */
  lemma DocumentShown(row: W.Row, ctx: W.Context)
    ensures W.DocumentId(row, ctx).Some? ==> NonBlank(W.DocumentId(row, ctx).value).Some?
  {
    var document := W.DocumentId(row, ctx);
    if ctx.documentId.Some? { StripIdempotent(ctx.documentId.value); }
    var v := Lookup(row.fields, [Late(SourceDocumentId)]);
    if v.Text? { StripIdempotent(v.text); }
    if v.Int? { StripIdempotent(IntText(v.number)); }
    if v.Dec? { StripIdempotent(v.decimal.text); }
    if document.Some? && |document.value| > 0 && document.value[0] == 's' {
      VisibleFirst(document.value);
    }
    hide Strip, Lookup, IntText, W.Short;
  }

  lemma VisibleFirst(s: string)
    requires s != [] && !IsSpace(s[0])
    ensures Strip(s) != []
  {
    RStripKeeps(s, 0);
  }

  // ---------------------------------------------------------------- an accepted row, said on its cells

  predicate Written(f: Csv.Family, g: W.SourceFamily) { if f.Ghg? then g.GHG? else if f.Ipcc? then g.IPCC? else g.DEFRA? }

  /** The year of an accepted row as the writer reads it: one in its version, else that of its year cell. */
  function FiledUnder(f: Csv.Family, row: Csv.Row): string {
    var c := C.ColumnsOf(f, row);
    if W.YearIn(c.version).Some? then W.YearIn(c.version).value
    else if f.Ghg? then IntText(Or(IntOf(c.year), 0))
    else if AllDigits(c.year) then IntText(NatOf(c.year)) else []
  }

  /** The master of a row of a file. */
  ghost predicate MasterOfRow(f: Csv.Family, inp: Csv.Input, row: Csv.Row, ctx: W.Context, m: W.Master) {
    var c := C.ColumnsOf(f, row);
    && Written(f, m.family) && m.version == c.version && Some(m.year) == IntOf(FiledUnder(f, row)) && m.status == ctx.status
    && m.artifact == Some(Strip(inp.artifact)) && m.checksum == (if inp.checksum.Some? then Some(Strip(inp.checksum.value)) else None)
    && m.externalKey == FiledUnder(f, row) + ":" + c.version + ":" + Strip(inp.artifact) + ":"
                        + (if inp.checksum.Some? then Strip(inp.checksum.value) else "checksum-unavailable")
    && IsDigestId(m.id, m.family, "_master_", ctx.digest([Text(Word(m.family)), Text(m.externalKey)]))
    && DocumentOfFile(f, inp, ctx, m.documentId)
    && m.recordChecksum == ctx.digest([Text("master"), Text(Word(m.family)), Text(m.documentId), Text(m.externalKey), Text(m.status)])
    && forall k :: 0 <= k < |m.optional| ==> m.optional[k] == None
  }

  /** The document of a file: the one given, or one made up from its family, source, artifact and checksum. */
  ghost predicate DocumentOfFile(f: Csv.Family, inp: Csv.Input, ctx: W.Context, id: string) {
    var family := match f case Ghg => "ghg_protocol" case Ipcc => "ipcc_efdb" case Defra => "defra_desnz";
    var checksum := if inp.checksum.Some? then Text(Strip(inp.checksum.value)) else Nothing;
    if ctx.documentId.Some? && Strip(ctx.documentId.value) != [] then id == Strip(ctx.documentId.value)
    else exists short :: IsStart(short, 24, ctx.digest([Text(family), Text(inp.sourceId), Text(Strip(inp.artifact)), checksum]))
                         && id == "source_document_" + short
  }

  /** The detail of a row of a file, filed under that master. */
  predicate DetailOfRow(f: Csv.Family, row: Csv.Row, number: nat, dec: P.Dec, ctx: W.Context, m: W.Master, d: W.Detail) {
    var c := C.ColumnsOf(f, row);
    && d.family == m.family && d.masterId == m.id && d.rowNumber == number && d.status == ctx.status
    && d.id == C.Word(f) + "_detail_" + c.year + "_" + c.version + "_" + c.id
    && d.factorId == Some(c.id) && d.factorName == Some(c.name) && d.unit == c.unit && d.externalKey == c.key
    && dec(c.value).Some? && d.value == dec(c.value).value.text
    && d.recordChecksum == ctx.digest([Text("detail"), Text(Word(d.family)), Text(d.masterId), Text(d.externalKey), Dec(dec(c.value).value),
                                       Text(c.unit)])
  }

  lemma DocumentFound(f: Csv.Family, inp: Csv.Input, ctx: W.Context)
    requires Csv.ValidInput(inp)
    ensures DocumentOfFile(f, inp, ctx, P.PayloadDocument(f, inp, ctx))
  {
    hide Strip, W.Short, IsStart;
    var family := Csv.FamilyText(f);
    var checksum := if inp.checksum.Some? then Text(Strip(inp.checksum.value)) else Nothing;
    var digest := ctx.digest([Text(family), Text(inp.sourceId), Text(Strip(inp.artifact)), checksum]);
    ShortIs(digest, 24);
    if !(ctx.documentId.Some? && Strip(ctx.documentId.value) != []) {
      assert P.PayloadDocument(f, inp, ctx) == "source_document_" + W.Short(digest, 24);
    }
  }

  lemma MasterOfAccepted(f: Csv.Family, inp: Csv.Input, row: Csv.Row, dec: P.Dec, ctx: W.Context)
    requires P.Accepted(f, row, dec) && Csv.ValidInput(inp)
    ensures P.MasterYear(f, row) == FiledUnder(f, row)
    ensures MasterOfRow(f, inp, row, ctx, P.MasterFor(f, inp, P.MasterYear(f, row), P.Version(f, row), ctx))
  {
    C.ColumnCells(f, row);
    YearFiled(f, row, dec);
    P.YearReads(f, row, dec);
    assert P.Version(f, row) == C.ColumnsOf(f, row).version;
    hide *;
    MasterFiled(f, inp, row, ctx, FiledUnder(f, row), C.ColumnsOf(f, row).version);
  }

  lemma MasterFiled(f: Csv.Family, inp: Csv.Input, row: Csv.Row, ctx: W.Context, year: string, version: string)
    requires year == FiledUnder(f, row) && version == C.ColumnsOf(f, row).version && IntOf(year).Some? && Csv.ValidInput(inp)
    ensures MasterOfRow(f, inp, row, ctx, P.MasterFor(f, inp, year, version, ctx))
  {
    Joined(year, version, P.ArtifactPart(inp), P.ChecksumPart(inp));
    IdMeans(P.PersistedFamily(f), W.JoinKey(year, version, P.ArtifactPart(inp), P.ChecksumPart(inp)), ctx.digest);
    DocumentFound(f, inp, ctx);
    assert W.FamilyValue(P.PersistedFamily(f)) == Word(P.PersistedFamily(f)) && Written(f, P.PersistedFamily(f));
    assert P.ArtifactPart(inp) == Strip(inp.artifact) && NonBlank(inp.artifact) == Some(Strip(inp.artifact)) by { hide Strip; }
    assert P.ChecksumPart(inp) == (if inp.checksum.Some? then Strip(inp.checksum.value) else "checksum-unavailable")
           && P.ChecksumText(inp) == (if inp.checksum.Some? then Some(Strip(inp.checksum.value)) else None) by { hide Strip; }
    hide FiledUnder, C.ColumnsOf, W.JoinKey, IsDigestId, W.MasterId, Word, P.PayloadDocument, Strip, IntOf, DocumentOfFile, W.FamilyValue,
      P.ArtifactPart, P.ChecksumPart, P.ChecksumText, NonBlank, P.PersistedFamily, Written, Csv.ValidInput;
  }

  lemma YearFiled(f: Csv.Family, row: Csv.Row, dec: P.Dec)
    requires P.Accepted(f, row, dec)
    ensures P.MasterYear(f, row) == FiledUnder(f, row)
  {
    C.ColumnCells(f, row);
    var c := C.ColumnsOf(f, row);
    P.AcceptedCells(f, row, dec);
    if !f.Ghg? { C.PlainReads(f, c.year, dec); }
    hide Csv.Cell, C.ColumnsOf, W.YearIn, IntText, IntOf, NatOf, P.Accepted;
  }

  lemma ReadsText(r: Csv.Record, name: Name, s: string)
    requires C.Has(r, name, Text(s)) && s != [] && Strip(s) == s
    ensures Read(r.fields, [name]) == Some(s)
  {
    hide Strip;
    P.LookupHead(r.fields, [name]);
  }

  lemma ReadsValue(r: Csv.Record, d: Decimal)
    requires C.Has(r, FactorValue, Dec(d))
    ensures Lookup(r.fields, [FactorValue, Late(PlainValue)]) == Dec(d) && Shown(Dec(d)) == d.text
  {
    StripOf(d.text);
    hide Strip;
    P.LookupHead(r.fields, [FactorValue, Late(PlainValue)]);
  }

  lemma ReadsUnit(f: Csv.Family, inp: Csv.Input, row: Csv.Row, number: nat, dec: P.Dec, index: nat, skipped: nat)
    ensures Lookup(Csv.RecordOf(f, inp, row, number, dec, index, skipped).fields, [Late(FactorUnit), Unit]) == Text(C.ColumnsOf(f, row).unit)
    ensures Shown(Text(C.ColumnsOf(f, row).unit)) == C.ColumnsOf(f, row).unit
  {
    P.LookupUnwritten(f, inp, row, number, dec);
    ColumnsStripped(f, row);
    C.ColumnCells(f, row);
    hide Lookup, Strip, C.ColumnsOf, Csv.RawFields, Csv.Cell;
  }

  lemma IdStripped(word: string, kind: string, year: string, version: string, id: string)
    requires word != [] && !IsSpace(word[0]) && id != [] && Stripped(id)
    ensures var s := word + kind + C.Three(year, "_", version, id); s != [] && Strip(s) == s
  {
    var s := word + kind + C.Three(year, "_", version, id);
    assert s[0] == word[0] && s[|s| - 1] == id[|id| - 1];
    hide IsSpace;
    StripOf(s);
  }

  lemma AtStripped(row: Csv.Row, k: nat)
    ensures Stripped(C.At(row, k)) && Strip(C.At(row, k)) == C.At(row, k)
  {
    if k < |row| {
      StripIdempotent(row[k]);
      var l, r := StripParts(row[k]);
    }
  }

  lemma ColumnsStripped(f: Csv.Family, row: Csv.Row)
    ensures var c := C.ColumnsOf(f, row);
            Stripped(c.id) && Strip(c.id) == c.id && Strip(c.name) == c.name && Strip(c.unit) == c.unit
  {
    forall k: nat ensures Stripped(C.At(row, k)) && Strip(C.At(row, k)) == C.At(row, k) { AtStripped(row, k); }
    hide C.At, Strip, Stripped;
  }

  lemma ReadsColumns(f: Csv.Family, inp: Csv.Input, row: Csv.Row, number: nat, dec: P.Dec, index: nat, skipped: nat)
    requires P.Accepted(f, row, dec)
    ensures var fields, c := Csv.RecordOf(f, inp, row, number, dec, index, skipped).fields, C.ColumnsOf(f, row);
            && Read(fields, [FactorId]) == Some(c.id) && Read(fields, [FactorName]) == Some(c.name)
            && Read(fields, [SourceFamilyDetailId]) == Some(C.Word(f) + "_detail_" + C.Three(c.year, "_", c.version, c.id))
            && Lookup(fields, [Late(FactorUnit), Unit]) == Text(c.unit) && Shown(Text(c.unit)) == c.unit
            && dec(c.value).Some? && Lookup(fields, [FactorValue, Late(PlainValue)]) == Dec(dec(c.value).value)
            && Shown(Dec(dec(c.value).value)) == dec(c.value).value.text
  {
    var r, c := Csv.RecordOf(f, inp, row, number, dec, index, skipped), C.ColumnsOf(f, row);
    assert P.Accepted(f, row, dec) ==> Csv.KindOf(f, row, dec).Accepted?;
    assert C.Word(f) != [] && !IsSpace(C.Word(f)[0]);
    hide *;
    C.RecordHolds(f, inp, row, number, dec, index, skipped);
    ColumnsStripped(f, row);
    IdStripped(C.Word(f), "_detail_", c.year, c.version, c.id);
    ReadsText(r, FactorId, c.id);
    ReadsText(r, FactorName, c.name);
    ReadsText(r, SourceFamilyDetailId, C.Word(f) + "_detail_" + C.Three(c.year, "_", c.version, c.id));
    ReadsUnit(f, inp, row, number, dec, index, skipped);
    ReadsValue(r, dec(c.value).value);
  }

  lemma DetailOfAccepted(f: Csv.Family, inp: Csv.Input, row: Csv.Row, number: nat, dec: P.Dec, index: nat, skipped: nat, ctx: W.Context)
    requires P.Accepted(f, row, dec) && Csv.ValidInput(inp)
    ensures DetailOfRow(f, row, number, dec, ctx, P.MasterFor(f, inp, P.MasterYear(f, row), P.Version(f, row), ctx),
                        W.DetailOf(P.RowOf(Csv.RecordOf(f, inp, row, number, dec, index, skipped)), ctx, P.PersistedFamily(f)))
  {
    var r := P.RowOf(Csv.RecordOf(f, inp, row, number, dec, index, skipped));
    var c := C.ColumnsOf(f, row);
    P.AcceptedMaps(f, inp, row, number, dec, index, skipped, 1, ctx);
    P.DetailKeyed(f, inp, row, number, dec, index, skipped, ctx);
    MappedMeans(r, 1, ctx);
    ReadsColumns(f, inp, row, number, dec, index, skipped);
    C.ColumnCells(f, row);
    assert r.fields == Csv.RecordOf(f, inp, row, number, dec, index, skipped).fields;
    assert C.Word(f) + "_detail_" + C.Three(c.year, "_", c.version, c.id) == C.Word(f) + "_detail_" + c.year + "_" + c.version + "_" + c.id
      by { Underscored(C.Word(f) + "_detail_", c.year, c.version, c.id); }
    hide Csv.RecordOf, P.RowOf, C.ColumnsOf, P.MasterFor, W.DetailOf, P.MasterYear, P.Version, Read, Shown, Lookup, IsMaster, W.MapRow,
      P.Accepted, C.Three, C.Word, IsDigestId, W.MasterId, DetailKeyFor, P.MasterKeyText, Csv.DetailKey, Csv.Cell;
  }

  lemma Underscored(front: string, a: string, b: string, c: string)
    ensures front + C.Three(a, "_", b, c) == front + a + "_" + b + "_" + c
  {
  }

  // ---------------------------------------------------------------- a file, said on its cells

  /** Filed under one year, version and key. */
  predicate SameFactor(f: Csv.Family, a: Csv.Row, b: Csv.Row) {
    && FiledUnder(f, a) == FiledUnder(f, b) && C.ColumnsOf(f, a).version == C.ColumnsOf(f, b).version
    && C.ColumnsOf(f, a).key == C.ColumnsOf(f, b).key
  }

  /** An accepted row, and the first with its factor. */
  predicate FirstOfFactor(f: Csv.Family, rows: seq<Csv.Row>, dec: P.Dec, i: nat) {
    && i < |rows| && P.Accepted(f, rows[i], dec)
    && forall j :: 0 <= j < i && P.Accepted(f, rows[j], dec) ==> !SameFactor(f, rows[j], rows[i])
  }

  /** The details are those of these rows, in order, each filed under a master of the command. */
  ghost predicate DetailsOfRows(f: Csv.Family, inp: Csv.Input, rows: seq<Csv.Row>, dec: P.Dec, ctx: W.Context, c: W.Command, from: seq<nat>) {
    && |from| == |c.details| && Rising(from)
    && (forall i: nat :: i in from <==> FirstOfFactor(f, rows, dec, i))
    && forall k :: 0 <= k < |from| ==> from[k] < |rows| && DetailOf(f, inp, rows[from[k]], from[k] + 2, dec, ctx, c, c.details[k])
  }

  ghost predicate DetailOf(f: Csv.Family, inp: Csv.Input, row: Csv.Row, number: nat, dec: P.Dec, ctx: W.Context, c: W.Command, d: W.Detail) {
    exists m :: m in c.masters && MasterOfRow(f, inp, row, ctx, m) && DetailOfRow(f, row, number, dec, ctx, m, d)
  }

  lemma IdentityIsFactor(f: Csv.Family, a: Csv.Row, b: Csv.Row, dec: P.Dec)
    requires P.Accepted(f, a, dec) && P.Accepted(f, b, dec)
    ensures P.SameIdentity(f, a, b) <==> SameFactor(f, a, b)
  {
    YearFiled(f, a, dec);
    YearFiled(f, b, dec);
    C.ColumnCells(f, a);
    C.ColumnCells(f, b);
    hide Csv.Cell, C.ColumnsOf, FiledUnder, P.MasterYear, Csv.DetailKey, P.Accepted;
  }

  lemma PairColumns(f: Csv.Family, inp: Csv.Input, rows: seq<Csv.Row>, dec: P.Dec, records: seq<Csv.Record>, at: seq<nat>, k: nat, ctx: W.Context)
    requires P.MadeFrom(f, inp, rows, dec, records, at) && k < |at| && Csv.ValidInput(inp)
    ensures var pair := P.PairOf(f, inp, rows[at[k]], records[k], ctx);
            MasterOfRow(f, inp, rows[at[k]], ctx, pair.0) && DetailOfRow(f, rows[at[k]], at[k] + 2, dec, ctx, pair.0, pair.1)
  {
    hide MasterOfRow, DetailOfRow, Csv.RecordOf, P.RowOf, W.DetailOf, P.MasterFor, P.MasterYear, P.Version, P.Accepted, Csv.ValidInput;
    MasterOfAccepted(f, inp, rows[at[k]], dec, ctx);
    DetailOfAccepted(f, inp, rows[at[k]], at[k] + 2, dec, records[k].index, records[k].skipped, ctx);
  }

  /** Where masters with one key agree, each is kept. */
  lemma MasterKept(rows: seq<W.Row>, pairs: seq<(W.Master, W.Detail)>, ctx: W.Context, k: nat)
    requires P.Clean(rows, pairs, ctx) && k < |pairs|
    ensures pairs[k].0 in Values(Kept(W.MasterEntries(pairs)))
  {
    hide W.MapRow, Kept;
    var entries := W.MasterEntries(pairs);
    assert entries[k].0 == W.KeyOfMaster(pairs[k].0);
    GetSome(entries, k);
    var j := GetFirst(entries, entries[k].0);
    assert pairs[j].0 == pairs[k].0;
    KeptGet(entries, entries[k].0);
    var i := GetFirst(Kept(entries), entries[k].0);
    assert Values(Kept(entries))[i] == pairs[k].0;
  }

  lemma FirstPair(pairs: seq<(W.Master, W.Detail)>, k: nat)
    ensures IsFirst(W.DetailEntries(pairs), k) <==> k < |pairs| && !P.Repeats(pairs, k)
  {
    hide W.KeyOfDetail;
    var entries := W.DetailEntries(pairs);
    if k < |pairs| {
      assert forall j :: 0 <= j <= k ==> entries[j].0 == W.KeyOfDetail(pairs[j].1);
    }
  }

  /** at lists the accepted rows in order. */
  ghost predicate ListsAccepted(f: Csv.Family, rows: seq<Csv.Row>, dec: P.Dec, at: seq<nat>) {
    Csv.Increasing(at, |rows|) && forall i: nat :: i < |rows| ==> (i in at <==> P.Accepted(f, rows[i], dec))
  }

  /** A row before this one in the list has its identity. */
  predicate Again(f: Csv.Family, rows: seq<Csv.Row>, at: seq<nat>, k: nat) {
    k < |at| && at[k] < |rows| && exists j: nat :: j < k && at[j] < |rows| && P.SameIdentity(f, rows[at[j]], rows[at[k]])
  }

  lemma FirstRow(f: Csv.Family, rows: seq<Csv.Row>, dec: P.Dec, at: seq<nat>, k: nat)
    requires ListsAccepted(f, rows, dec, at) && k < |at|
    ensures at[k] < |rows| && (FirstOfFactor(f, rows, dec, at[k]) <==> !Again(f, rows, at, k))
  {
    hide P.Accepted, P.SameIdentity, SameFactor;
    assert at[k] in at;
    if Again(f, rows, at, k) {
      var j: nat :| j < k && at[j] < |rows| && P.SameIdentity(f, rows[at[j]], rows[at[k]]);
      assert at[j] in at;
      IdentityIsFactor(f, rows[at[j]], rows[at[k]], dec);
    }
    if !FirstOfFactor(f, rows, dec, at[k]) {
      var i :| 0 <= i < at[k] && P.Accepted(f, rows[i], dec) && SameFactor(f, rows[i], rows[at[k]]);
      assert i in at;
      var j :| 0 <= j < |at| && at[j] == i;
      IdentityIsFactor(f, rows[at[j]], rows[at[k]], dec);
      assert j < k;
    }
  }

  function Through(at: seq<nat>, p: seq<nat>): (r: seq<nat>)
    requires forall k :: 0 <= k < |p| ==> p[k] < |at|
    ensures |r| == |p| && forall k :: 0 <= k < |p| ==> r[k] == at[p[k]]
  {
    seq(|p|, k requires 0 <= k < |p| => at[p[k]])
  }

  lemma ThroughRising(at: seq<nat>, p: seq<nat>, bound: nat)
    requires Csv.Increasing(at, bound) && Rising(p) && forall k :: 0 <= k < |p| ==> p[k] < |at|
    ensures Rising(Through(at, p))
  {
  }

  lemma FirstRows(f: Csv.Family, rows: seq<Csv.Row>, dec: P.Dec, at: seq<nat>, p: seq<nat>, i: nat)
    requires ListsAccepted(f, rows, dec, at) && forall k :: 0 <= k < |p| ==> p[k] < |at|
    requires forall k: nat :: k < |at| ==> (k in p <==> !Again(f, rows, at, k))
    ensures i in Through(at, p) <==> FirstOfFactor(f, rows, dec, i)
  {
    hide P.Accepted, P.SameIdentity, SameFactor;
    var from := Through(at, p);
    if i in from {
      var k :| 0 <= k < |from| && from[k] == i;
      assert p[k] in p;
      FirstRow(f, rows, dec, at, p[k]);
    }
    if FirstOfFactor(f, rows, dec, i) {
      assert i in at;
      var k :| 0 <= k < |at| && at[k] == i;
      FirstRow(f, rows, dec, at, k);
      assert k in p;
      var j :| 0 <= j < |p| && p[j] == k;
      assert from[j] == i;
    }
  }

  /** What a payload comes to: pairs without surprises, of which the command keeps the first. */
  ghost predicate Becomes(f: Csv.Family, inp: Csv.Input, rows: seq<Csv.Row>, dec: P.Dec, records: seq<Csv.Record>, at: seq<nat>,
                          ctx: W.Context, pairs: seq<(W.Master, W.Detail)>) {
    var c := W.CommandOf(P.RowsOf(records), ctx);
    && |pairs| == |at| == |records| && P.Clean(P.RowsOf(records), pairs, ctx)
    && c.details == Values(Kept(W.DetailEntries(pairs))) && c.masters == Values(Kept(W.MasterEntries(pairs)))
    && forall k :: 0 <= k < |at| ==>
         at[k] < |rows| && pairs[k] == P.PairOf(f, inp, rows[at[k]], records[k], ctx) && P.Repeats(pairs, k) == Again(f, rows, at, k)
  }

  lemma PayloadBecomes(f: Csv.Family, inp: Csv.Input, rows: seq<Csv.Row>, dec: P.Dec, records: seq<Csv.Record>, at: seq<nat>, ctx: W.Context)
    returns (pairs: seq<(W.Master, W.Detail)>)
    requires P.MadeFrom(f, inp, rows, dec, records, at) && Csv.ValidInput(inp) && P.NoCollision(f, inp, rows, dec, ctx)
    requires Csv.Increasing(at, |rows|) && records != []
    ensures Becomes(f, inp, rows, dec, records, at, ctx, pairs)
  {
    hide P.MadeFrom, P.NoCollision, P.Clean, P.PairOf, P.RowOf, P.SameIdentity, P.Repeats, W.WriteAll, Kept, Csv.ValidInput, W.MasterEntries,
      W.DetailEntries;
    P.Sizes(f, inp, rows, dec, records, at);
    pairs := P.PairsOf(f, inp, rows, records, at, ctx);
    P.PayloadClean(f, inp, rows, dec, records, at, ctx);
    assert P.RowsOf(records)[..|records|] == P.RowsOf(records) && pairs[..|records|] == pairs;
    P.CleanLoop(P.RowsOf(records), pairs, ctx, |records|);
  }

  lemma FirstPairs(f: Csv.Family, inp: Csv.Input, rows: seq<Csv.Row>, dec: P.Dec, records: seq<Csv.Record>, at: seq<nat>,
                   ctx: W.Context, pairs: seq<(W.Master, W.Detail)>, p: seq<nat>, k: nat)
    requires Becomes(f, inp, rows, dec, records, at, ctx, pairs)
    requires FirstsAt(W.DetailEntries(pairs), Kept(W.DetailEntries(pairs)), p)
    ensures k in p ==> k < |at|
    ensures k < |at| ==> (k in p <==> !Again(f, rows, at, k))
  {
    hide P.Clean, Kept, W.CommandOf, P.PairOf, P.SameIdentity, P.Repeats, IsFirst, Rising, W.DetailEntries, W.MasterEntries;
    FirstsMean(W.DetailEntries(pairs), Kept(W.DetailEntries(pairs)), p, k);
    FirstPair(pairs, k);
  }

  lemma DetailKept(f: Csv.Family, inp: Csv.Input, rows: seq<Csv.Row>, dec: P.Dec, records: seq<Csv.Record>, at: seq<nat>,
                   ctx: W.Context, pairs: seq<(W.Master, W.Detail)>, p: seq<nat>, k: nat)
    requires P.MadeFrom(f, inp, rows, dec, records, at) && Csv.ValidInput(inp) && Becomes(f, inp, rows, dec, records, at, ctx, pairs)
    requires FirstsAt(W.DetailEntries(pairs), Kept(W.DetailEntries(pairs)), p) && k < |p|
    ensures var c := W.CommandOf(P.RowsOf(records), ctx);
            |p| == |c.details| && p[k] < |at| && at[p[k]] < |rows|
            && DetailOf(f, inp, rows[at[p[k]]], at[p[k]] + 2, dec, ctx, c, c.details[k])
  {
    hide P.MadeFrom, P.Clean, Kept, W.CommandOf, P.PairOf, P.SameIdentity, P.Repeats, IsFirst, Rising, DetailOf, W.MasterEntries, P.RowsOf,
      MasterOfRow, DetailOfRow, Csv.ValidInput;
    var c := W.CommandOf(P.RowsOf(records), ctx);
    assert c.details[k] == pairs[p[k]].1;
    PairColumns(f, inp, rows, dec, records, at, p[k], ctx);
    MasterKept(P.RowsOf(records), pairs, ctx, p[k]);
    InCommand(f, inp, rows[at[p[k]]], at[p[k]] + 2, dec, ctx, c, pairs[p[k]]);
  }

  lemma PayloadDetails(f: Csv.Family, inp: Csv.Input, rows: seq<Csv.Row>, dec: P.Dec, records: seq<Csv.Record>, at: seq<nat>, ctx: W.Context)
    returns (from: seq<nat>)
    requires P.MadeFrom(f, inp, rows, dec, records, at) && Csv.ValidInput(inp) && P.NoCollision(f, inp, rows, dec, ctx)
    requires ListsAccepted(f, rows, dec, at) && records != []
    ensures DetailsOfRows(f, inp, rows, dec, ctx, W.CommandOf(P.RowsOf(records), ctx), from)
  {
    Listed(f, rows, dec, at);
    var pairs := PayloadBecomes(f, inp, rows, dec, records, at, ctx);
    var p := KeptFirsts(W.DetailEntries(pairs));
    hide *;
    from := FromRows(f, inp, rows, dec, records, at, ctx, pairs, p);
  }

  lemma FromRows(f: Csv.Family, inp: Csv.Input, rows: seq<Csv.Row>, dec: P.Dec, records: seq<Csv.Record>, at: seq<nat>,
                 ctx: W.Context, pairs: seq<(W.Master, W.Detail)>, p: seq<nat>) returns (from: seq<nat>)
    requires P.MadeFrom(f, inp, rows, dec, records, at) && Csv.ValidInput(inp) && ListsAccepted(f, rows, dec, at)
    requires Becomes(f, inp, rows, dec, records, at, ctx, pairs)
    requires FirstsAt(W.DetailEntries(pairs), Kept(W.DetailEntries(pairs)), p)
    ensures DetailsOfRows(f, inp, rows, dec, ctx, W.CommandOf(P.RowsOf(records), ctx), from)
  {
    hide *;
    FirstsThrough(f, inp, rows, dec, records, at, ctx, pairs, p);
    from := Through(at, p);
    EachKept(f, inp, rows, dec, records, at, ctx, pairs, p, from);
    ManyDetails(f, inp, rows, dec, ctx, W.CommandOf(P.RowsOf(records), ctx), from);
  }

  lemma EachKept(f: Csv.Family, inp: Csv.Input, rows: seq<Csv.Row>, dec: P.Dec, records: seq<Csv.Record>, at: seq<nat>,
                 ctx: W.Context, pairs: seq<(W.Master, W.Detail)>, p: seq<nat>, from: seq<nat>)
    requires P.MadeFrom(f, inp, rows, dec, records, at) && Csv.ValidInput(inp) && Becomes(f, inp, rows, dec, records, at, ctx, pairs)
    requires FirstsAt(W.DetailEntries(pairs), Kept(W.DetailEntries(pairs)), p)
    requires |from| == |p| && forall k :: 0 <= k < |p| ==> p[k] < |at| && from[k] == at[p[k]]
    ensures var c := W.CommandOf(P.RowsOf(records), ctx);
            |from| == |c.details|
            && forall k :: 0 <= k < |from| ==> from[k] < |rows| && DetailOf(f, inp, rows[from[k]], from[k] + 2, dec, ctx, c, c.details[k])
  {
    SameCount(f, inp, rows, dec, records, at, ctx, pairs, p);
    hide *;
    var c := W.CommandOf(P.RowsOf(records), ctx);
    forall k | 0 <= k < |from| ensures from[k] < |rows| && DetailOf(f, inp, rows[from[k]], from[k] + 2, dec, ctx, c, c.details[k]) {
      DetailKept(f, inp, rows, dec, records, at, ctx, pairs, p, k);
    }
  }

  lemma FirstsThrough(f: Csv.Family, inp: Csv.Input, rows: seq<Csv.Row>, dec: P.Dec, records: seq<Csv.Record>, at: seq<nat>,
                      ctx: W.Context, pairs: seq<(W.Master, W.Detail)>, p: seq<nat>)
    requires ListsAccepted(f, rows, dec, at) && Becomes(f, inp, rows, dec, records, at, ctx, pairs)
    requires FirstsAt(W.DetailEntries(pairs), Kept(W.DetailEntries(pairs)), p)
    ensures forall k :: 0 <= k < |p| ==> p[k] < |at|
    ensures Rising(Through(at, p)) && forall i: nat :: i in Through(at, p) <==> FirstOfFactor(f, rows, dec, i)
  {
    Listed(f, rows, dec, at);
    assert Rising(p);
    hide *;
    forall k: nat
      ensures k in p ==> k < |at|
      ensures k < |at| ==> (k in p <==> !Again(f, rows, at, k))
    {
      FirstPairs(f, inp, rows, dec, records, at, ctx, pairs, p, k);
    }
    forall k | 0 <= k < |p| ensures p[k] < |at| { assert p[k] in p; }
    ThroughRising(at, p, |rows|);
    forall i: nat ensures i in Through(at, p) <==> FirstOfFactor(f, rows, dec, i) { FirstRows(f, rows, dec, at, p, i); }
  }

  lemma ManyDetails(f: Csv.Family, inp: Csv.Input, rows: seq<Csv.Row>, dec: P.Dec, ctx: W.Context, c: W.Command, from: seq<nat>)
    requires |from| == |c.details| && Rising(from) && forall i: nat :: i in from <==> FirstOfFactor(f, rows, dec, i)
    requires forall k :: 0 <= k < |from| ==> from[k] < |rows| && DetailOf(f, inp, rows[from[k]], from[k] + 2, dec, ctx, c, c.details[k])
    ensures DetailsOfRows(f, inp, rows, dec, ctx, c, from)
  {
    hide DetailOf, FirstOfFactor, Rising;
  }

  lemma SameCount(f: Csv.Family, inp: Csv.Input, rows: seq<Csv.Row>, dec: P.Dec, records: seq<Csv.Record>, at: seq<nat>,
                  ctx: W.Context, pairs: seq<(W.Master, W.Detail)>, p: seq<nat>)
    requires Becomes(f, inp, rows, dec, records, at, ctx, pairs) && FirstsAt(W.DetailEntries(pairs), Kept(W.DetailEntries(pairs)), p)
    ensures |p| == |W.CommandOf(P.RowsOf(records), ctx).details|
  {
    hide P.Clean, Kept, W.CommandOf, P.PairOf, P.SameIdentity, P.Repeats, P.RowsOf, W.MasterEntries, W.DetailEntries, IsFirst;
  }

  lemma Listed(f: Csv.Family, rows: seq<Csv.Row>, dec: P.Dec, at: seq<nat>)
    requires ListsAccepted(f, rows, dec, at)
    ensures Csv.Increasing(at, |rows|)
  {
  }

  lemma InCommand(f: Csv.Family, inp: Csv.Input, row: Csv.Row, number: nat, dec: P.Dec, ctx: W.Context, c: W.Command, pair: (W.Master, W.Detail))
    requires pair.0 in c.masters && MasterOfRow(f, inp, row, ctx, pair.0) && DetailOfRow(f, row, number, dec, ctx, pair.0, pair.1)
    ensures DetailOf(f, inp, row, number, dec, ctx, c, pair.1)
  {
  }

  /** From the cells of a file to the rows written: after a successful parse, where the digests of the master keys
      do not collide, the details are those of the first accepted row of each year, version and key, in the order of
      the file; each has the row's id, name and unit, the text of its decimal, and the id made of its year, version
      and factor, and stands under the master of its year and version. */
  lemma FileDetails(f: Csv.Family, inp: Csv.Input, rows: seq<Csv.Row>, dec: P.Dec, ctx: W.Context)
    requires Csv.ValidInput(inp) && P.NoCollision(f, inp, rows, dec, ctx) && Csv.Parsed(f, inp, rows, dec).status.Success?
    ensures var r := Csv.Parsed(f, inp, rows, dec);
            r.payload.Some? && exists from :: DetailsOfRows(f, inp, rows, dec, ctx, W.CommandOf(P.RowsOf(r.payload.value), ctx), from)
  {
    Csv.ParsedMeans(f, inp, rows, dec);
    hide Csv.Parsed, Csv.AcceptedAt, DetailsOfRows, Csv.AnyRowInError;
    var records, at := Csv.Parsed(f, inp, rows, dec).payload.value, Csv.AcceptedAt(f, rows, dec);
    P.MadeFromAccepted(f, inp, rows, dec, records);
    Csv.AcceptedAtIncreasing(f, rows, dec);
    forall i: nat | i < |rows| ensures i in at <==> P.Accepted(f, rows[i], dec) { Csv.AcceptedAtMeans(f, rows, dec, i); }
    var from := PayloadDetails(f, inp, rows, dec, records, at, ctx);
  }
}
