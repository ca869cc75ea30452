/** Field mappings as the parsers fill them and the later stages read them: names, values, and the
    reading of a value as text or as an integer. */
module Fields {
  import opened Text
  import opened Footers

  /** Column and field names of the three source families, and the names only later stages look for. */
  datatype Name =
    | RecordType | SourceFamily | SourceId | SourceYear | SourceVersion | FactorId | FactorName | FactorValue | Unit
    | Category | Subcategory | Scope | Gas | ProvenanceNote | IpccSector | Region | Technology | Provenance | Activity
    | GreenhouseGas | ProvenanceArtifactReference | ProvenanceChecksumAlgorithm | ProvenanceChecksumValue
    | ProvenanceRowNumber | SourceFamilyMasterId | SourceFamilyDetailId | MasterExternalKey | DetailExternalKey
    | Late(late: LateName)

  datatype LateName =
    | PlainValue | FactorUnit | SourceDocumentId | SourceArtifactYear | ArtifactYear | ReportingYear
    | SourceChecksumSha256 | ChecksumSha256 | ArtifactReference | SourceArtifactReference | SourceRelease
    | IngestionRunId | RunId | ArchiveReference | ArchiveChecksumSha256 | EffectiveFrom | EffectiveTo | ParserKey

  /** decimal.Decimal as far as anything here looks: its text, which is never blank, and is_finite. */
  datatype Number = Number(text: string, finite: bool)

  type Decimal = d: Number | d.text != [] && Stripped(d.text) witness Number("0", true)

  datatype Value = Nothing | Text(text: string) | Int(number: int) | Dec(decimal: Decimal)

  type FieldMap = map<Name, Value>

  /** fields[name] for the first of the names that is there. */
  function Lookup(fields: FieldMap, names: seq<Name>): Value {
    if names == [] then Nothing
    else if names[0] in fields then fields[names[0]]
    else Lookup(fields, names[1..])
  }

  function IntText(n: int): string { if n < 0 then "-" + Digits(-n) else Digits(n) }

  /** str(value).strip() or None. */
  function TextOrNone(v: Value): (r: Option<string>)
    ensures r.Some? ==> r.value != []
  {
    match v
    case Nothing => None
    case Text(s) => NonBlank(s)
    case Int(n) => NonBlank(IntText(n))
    case Dec(d) => NonBlank(d.text)
  }

  function NonBlank(s: string): (r: Option<string>)
    ensures r.Some? <==> Strip(s) != []
    ensures r.Some? ==> r.value == Strip(s)
  {
    if Strip(s) == [] then None else Some(Strip(s))
  }

  function Or<T>(a: Option<T>, b: T): T { if a.Some? then a.value else b }

  lemma DigitsStripped(n: nat)
    ensures Digits(n) != [] && Strip(Digits(n)) == Digits(n)
  {
    var d := Digits(n);
    assert IsDigit(d[0]) && IsDigit(d[|d| - 1]);
    StripOf(d);
  }

  // ---------------------------------------------------------------- int()

  predicate DigitOrSeparator(s: string, i: nat)
    requires i < |s|
  {
    IsDigit(s[i]) || (s[i] == '_' && 0 < i < |s| - 1 && IsDigit(s[i + 1]))
  }

  /** Digits with single underscores between them. */
  predicate IntBody(s: string) { s != [] && forall i :: 0 <= i < |s| ==> DigitOrSeparator(s, i) }

  function WithoutChar(s: string, c: char): (r: string)
    ensures c !in r && forall x :: x in r <==> x in s && x != c
  {
    if s == [] then [] else (if s[0] == c then [] else [s[0]]) + WithoutChar(s[1..], c)
  }

  lemma IntBodyDigits(s: string)
    requires IntBody(s)
    ensures AllDigits(WithoutChar(s, '_'))
  {
    var r := WithoutChar(s, '_');
    forall i | 0 <= i < |r| ensures IsDigit(r[i]) {
      assert r[i] in r;
      assert r[i] in s && r[i] != '_';
      var j :| 0 <= j < |s| && s[j] == r[i];
      assert DigitOrSeparator(s, j);
    }
  }

  /** int(text); None is the ValueError. */
  function IntOf(text: string): Option<int> {
    var t := Strip(text);
    var signed := t != [] && (t[0] == '+' || t[0] == '-');
    var body := if signed then t[1..] else t;
    if !IntBody(body) then None
    else
      IntBodyDigits(body);
      var n: int := NatOf(WithoutChar(body, '_'));
      Some(if signed && t[0] == '-' then -n else n)
  }

  /** str.isdecimal(). */
  predicate IsDecimal(s: string) { s != [] && AllDigits(s) }

  lemma {:induction false} WithoutAbsent(s: string, c: char)
    requires c !in s
    ensures WithoutChar(s, c) == s
  {
    if s != [] {
      assert s[0] in s;
      assert forall x :: x in s[1..] ==> x in s;
      WithoutAbsent(s[1..], c);
    }
  }

  lemma DecimalBody(s: string)
    requires IsDecimal(s)
    ensures IntBody(s) && '_' !in s && Stripped(s) && s[0] != '+' && s[0] != '-'
  {
    assert forall c :: c in s ==> IsDigit(c);
  }

  /** int() reads plain digits as their number, so writing a number and reading it back is exact. */
  lemma IntOfDecimal(s: string)
    requires IsDecimal(s)
    ensures IntOf(s) == Some(NatOf(s))
  {
    DecimalBody(s);
    hide Strip, IntBody, NatOf, WithoutChar, Stripped;
    StripOf(s);
    WithoutAbsent(s, '_');
  }

  lemma IntOfText(n: nat)
    ensures IntOf(IntText(n)) == Some(n)
  {
    NatOfDigits(n);
    IntOfDecimal(Digits(n));
  }

  /** A sign in front of the digits is read. */
  lemma SignedInt(sign: char, a: string)
    requires IsDecimal(a) && (sign == '-' || sign == '+')
    ensures IntOf([sign] + a) == Some(if sign == '-' then -(NatOf(a) as int) else NatOf(a))
  {
    var t := [sign] + a;
    assert t[1..] == a && t[0] == sign && t[|t| - 1] == a[|a| - 1];
    assert IsDigit(a[|a| - 1]);
    DecimalBody(a);
    StripOf(t);
    WithoutAbsent(a, '_');
    hide *;
    SignRead(t, a);
  }

  lemma SignRead(t: string, a: string)
    requires t != [] && Strip(t) == t && (t[0] == '-' || t[0] == '+') && t[1..] == a
    requires IntBody(a) && AllDigits(a) && WithoutChar(a, '_') == a
    ensures IntOf(t) == Some(if t[0] == '-' then -(NatOf(a) as int) else NatOf(a))
  {
    hide Strip, NatOf, IntBody, WithoutChar;
  }

  lemma NoInt(s: string)
    requires Stripped(s) && !IntBody(s) && (s == [] || (s[0] != '+' && s[0] != '-'))
    ensures IntOf(s).None?
  {
    StripOf(s);
    hide Strip;
  }

  /** Single underscores between digits are passed over; a text with an underscore elsewhere, or without digits, is no
      integer. */
  lemma SeparatedInt(a: string, b: string)
    requires IsDecimal(a) && IsDecimal(b)
    ensures AllDigits(a + b) && IntOf(a + "_" + b) == Some(NatOf(a + b))
    ensures IntOf(a + "__" + b).None? && IntOf("_" + a).None? && IntOf(a + "_").None? && IntOf([]).None?
  {
    var s := a + "_" + b;
    var wrong := [a + "__" + b, "_" + a, a + "_", []];
    assert IsDigit(a[0]) && IsDigit(a[|a| - 1]) && IsDigit(b[|b| - 1]);
    assert s[0] == a[0] && s[|s| - 1] == b[|b| - 1];
    forall t | t in wrong ensures Stripped(t) && (t == [] || (t[0] != '+' && t[0] != '-')) {}
    StripOf(s);
    hide *;
    MisplacedUnderscore(a, b);
    NoInt(a + "__" + b);
    NoInt("_" + a);
    NoInt(a + "_");
    NoInt([]);
    UnderscoreBetween(a, b);
    PlainRead(s);
  }

  lemma PlainRead(s: string)
    requires Strip(s) == s && IntBody(s) && s[0] != '+' && s[0] != '-' && AllDigits(WithoutChar(s, '_'))
    ensures IntOf(s) == Some(NatOf(WithoutChar(s, '_')))
  {
    hide Strip, NatOf, WithoutChar;
  }

  lemma UnderscoreBetween(a: string, b: string)
    requires IsDecimal(a) && IsDecimal(b)
    ensures IntBody(a + "_" + b) && WithoutChar(a + "_" + b, '_') == a + b
  {
    var s := a + "_" + b;
    forall i | 0 <= i < |s| ensures DigitOrSeparator(s, i) { if i == |a| { assert s[i] == '_' && s[i + 1] == b[0]; } }
    DecimalBody(a);
    DecimalBody(b);
    WithoutAbsent(b, '_');
    WithoutFrom(a, b);
  }

  lemma {:induction false} WithoutFrom(a: string, b: string)
    requires '_' !in a && '_' !in b
    ensures WithoutChar(a + "_" + b, '_') == a + b
    decreases a
  {
    WithoutAbsent(b, '_');
    var s := a + "_" + b;
    if a == [] {
      assert s[0] == '_' && s[1..] == b;
    } else {
      assert s[0] == a[0] && a[0] in a && s[1..] == a[1..] + "_" + b;
      WithoutFrom(a[1..], b);
    }
  }

  lemma MisplacedUnderscore(a: string, b: string)
    requires IsDecimal(a) && IsDecimal(b)
    ensures !IntBody(a + "__" + b) && !IntBody("_" + a) && !IntBody(a + "_") && !IntBody([])
  {
    assert !DigitOrSeparator(a + "__" + b, |a|) && !DigitOrSeparator("_" + a, 0) && !DigitOrSeparator(a + "_", |a|);
  }
}
