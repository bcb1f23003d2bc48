/** Schema inference without the model: profiling the columns on sample rows, the manual mapping
    used when the model does not answer, and the merge that corrects the model's answer. */
module SchemaMapping {
  import opened EnrichmentTypes
  import opened HeaderNames
  import opened Options
  import opened Sequences
  import opened Strings

  // ----- deterministicColumnProfile -----

  /** A sampled value; the flags are the verdicts of parseFloat and of Date on a string. */
  datatype Sample = Missing | Number | Boolean | Str(text: string, numeric: bool, date: bool) | Other

  datatype DetectedType = StringType | NumberType | BooleanType | DateType | EmptyType

  datatype Profile = Profile(detectedType: DetectedType, isCoordinate: bool, isCurrency: bool, isEmpty: bool)

  type SampleRow = map<string, Sample>

  const IS_PRESENT: Sample -> bool := (v: Sample) => v != Missing && !(v.Str? && v.text == "")
  const NOT_NUMERIC: Sample -> bool := (v: Sample) => !(v.Number? || (v.Str? && v.numeric))
  const NOT_DATE: Sample -> bool := (v: Sample) => !(v.Str? && v.date)
  const NOT_BOOLEAN: Sample -> bool := (v: Sample) => !v.Boolean?
  const IS_CURRENCY_CODE: Sample -> bool := (v: Sample) => v.Str? && Upper(v.text) in CURRENCY_CODES

  function FirstTen<T>(xs: seq<T>): seq<T> {
    if |xs| <= 10 then xs else xs[..10]
  }

  function ColumnValues(col: string, rows: seq<SampleRow>): seq<Sample> {
    seq(|rows|, i requires 0 <= i < |rows| => if col in rows[i] then rows[i][col] else Missing)
  }

  function PresentValues(col: string, sampleRows: seq<SampleRow>): seq<Sample> {
    Filter(IS_PRESENT, ColumnValues(col, FirstTen(sampleRows)))
  }

  function TypeOf(present: seq<Sample>): DetectedType {
    if present == [] then StringType
    else if Filter(NOT_NUMERIC, present) == [] then NumberType
    else if Filter(NOT_DATE, present) == [] then DateType
    else if Filter(NOT_BOOLEAN, present) == [] then BooleanType
    else StringType
  }

  predicate LatitudeName(lower: string) { Includes(lower, "lat") || lower == "y" }

  predicate LongitudeName(lower: string) { Includes(lower, "lng") || Includes(lower, "lon") || lower == "x" }

  function ProfileOf(col: string, sampleRows: seq<SampleRow>): Profile {
    var present := PresentValues(col, sampleRows);
    var lower := Lower(col);
    Profile(
      TypeOf(present),
      (LatitudeName(lower) || LongitudeName(lower)) && TypeOf(present).NumberType?,
      Includes(lower, "currency") || Includes(lower, "curr") || Filter(IS_CURRENCY_CODE, present) != [],
      present == [])
  }

  method DeterministicColumnProfile(columns: seq<string>, sampleRows: seq<SampleRow>) returns (profile: map<string, Profile>)
    ensures forall col :: col in profile <==> col in columns
    ensures forall col :: col in columns ==> profile[col] == ProfileOf(col, sampleRows)
  {
    hide ProfileOf;
    profile := map[];
    for i := 0 to |columns|
      invariant forall col :: col in profile <==> col in columns[..i]
      invariant forall col :: col in columns[..i] ==> profile[col] == ProfileOf(col, sampleRows)
    {
      profile := profile[columns[i] := ProfileOf(columns[i], sampleRows)];
    }
  }

  // ----- createManualSchema -----

  /** The fields in the order they are tried, with their keywords. */
  const KEYWORDS: seq<(Field, seq<string>)> := [
    (AssetName, ["asset", "name", "property", "building", "facility", "site", "location"]),
    (ValueField, ["value", "amount", "price", "valuation", "cost", "total", "market"]),
    (Currency, ["currency", "curr"]),
    (Jurisdiction, ["jurisdiction", "location", "country", "state", "province", "region", "city", "address"]),
    (Latitude, ["lat", "latitude"]),
    (Longitude, ["lng", "lon", "longitude"]),
    (AssetType, ["type", "category", "classification", "kind"])]

  /** The first keyword, from position `from` on, that the name contains. */
  function FirstKeyword(name: string, keywords: seq<string>, from: nat): (r: Option<string>)
    requires from <= |keywords|
    ensures r.Some? ==> r.value in keywords && Includes(name, r.value)
    decreases |keywords| - from
  {
    if from == |keywords| then None
    else if Includes(name, keywords[from]) then Some(keywords[from])
    else FirstKeyword(name, keywords, from + 1)
  }

  /** The first field of the table, from position `from` on, one of whose keywords the name
      contains, with the first such keyword. */
  function FirstField(name: string, from: nat): Option<(Field, string)>
    requires from <= |KEYWORDS|
    decreases |KEYWORDS| - from
  {
    if from == |KEYWORDS| then None
    else
      var hit := FirstKeyword(name, KEYWORDS[from].1, 0);
      if hit.Some? then Some((KEYWORDS[from].0, hit.value)) else FirstField(name, from + 1)
  }

  /** The lower-case letters and digits of a column name. */
  function Stripped(col: string): string {
    Filter(IS_ALNUM, Lower(col))
  }

  datatype Decision = Empty | Coordinate | CurrencyPattern | Keyword(field: Field, keyword: string) | Unknown

  function Decide(col: string, profile: map<string, Profile>): Decision {
    if col in profile && profile[col].isEmpty then Empty
    else if col in profile && profile[col].isCoordinate then Coordinate
    else if col in profile && profile[col].isCurrency then CurrencyPattern
    else
      match FirstField(Stripped(col), 0)
      case Some((field, keyword)) => Keyword(field, keyword)
      case None => Unknown
  }

  predicate DecidesFor(col: string, profile: map<string, Profile>, f: Field) {
    Decide(col, profile).Keyword? && Decide(col, profile).field == f
  }

  /** The nested loops over fields and keywords, left at the first hit. */
  method FindField(colLower: string) returns (found: Option<(Field, string)>)
    ensures found == FirstField(colLower, 0)
  {
    hide Includes;
    found := None;
    var i := 0;
    while i < |KEYWORDS| && found == None
      invariant i <= |KEYWORDS|
      invariant found == None ==> FirstField(colLower, 0) == FirstField(colLower, i)
      invariant found != None ==> FirstField(colLower, 0) == found
    {
      var (field, keywords) := KEYWORDS[i];
      var k := 0;
      while k < |keywords| && found == None
        invariant k <= |keywords|
        invariant found == None ==> FirstKeyword(colLower, keywords, 0) == FirstKeyword(colLower, keywords, k)
        invariant found != None ==>
          FirstKeyword(colLower, keywords, 0).Some? && found == Some((field, FirstKeyword(colLower, keywords, 0).value))
        decreases |keywords| - k, found == None
      {
        if Includes(colLower, keywords[k]) { found := Some((field, keywords[k])); } else { k := k + 1; }
      }
      i := i + 1;
    }
  }

  ghost predicate EarliestFor(columns: seq<string>, profile: map<string, Profile>, f: Field, col: string) {
    exists i :: 0 <= i < |columns| && columns[i] == col && DecidesFor(col, profile, f)
      && forall j :: 0 <= j < i ==> !DecidesFor(columns[j], profile, f)
  }

  /** `fm` maps exactly the fields some column hits, each to the earliest such column. */
  ghost predicate MapsFirst(columns: seq<string>, profile: map<string, Profile>, fm: map<Field, string>) {
    && (forall f :: f in fm <==> exists i :: 0 <= i < |columns| && DecidesFor(columns[i], profile, f))
    && (forall f :: f in fm ==> EarliestFor(columns, profile, f, fm[f]))
  }

  // ----- the analysis of a column and the quality of the schema -----

  datatype Role =
    | AssetIdentifier | AssetNameRole | ValueRole | CurrencyRole | JurisdictionRole | LatitudeRole | LongitudeRole
    | TemporalField | Metadata | Irrelevant | UnknownRole

  datatype Column = Column(name: string, detectedType: DetectedType, semanticRole: Role, confidence: real, reasoning: string)

  function RoleOf(f: Field): Role {
    match f
    case AssetName => AssetNameRole
    case ValueField => ValueRole
    case Currency => CurrencyRole
    case Jurisdiction => JurisdictionRole
    case Latitude => LatitudeRole
    case Longitude => LongitudeRole
    case AssetType => Metadata
  }

  function ColumnFor(col: string, detectedType: DetectedType, decision: Decision): Column {
    match decision
    case Empty => Column(col, detectedType, Irrelevant, 1.0, "Column is empty")
    case Coordinate =>
      var isLatitude := Includes(Stripped(col), "lat") || Stripped(col) == "y";
      Column(col, detectedType, if isLatitude then LatitudeRole else LongitudeRole, 1.0, "Coordinate pattern detected")
    case CurrencyPattern => Column(col, detectedType, CurrencyRole, 1.0, "Currency pattern detected")
    case Keyword(field, keyword) => Column(col, detectedType, RoleOf(field), 0.8, "Keyword match: " + keyword)
    case Unknown => Column(col, detectedType, UnknownRole, 0.1, "No pattern detected")
  }

  const NOT_NULL: Sample -> bool := (v: Sample) => v != Missing

  datatype Analysis = Analysis(column: Column, sampleValues: seq<Sample>, alternatives: seq<string>)

  /** The first five sampled values that are not null, empty texts included. */
  function AnalysisOf(col: string, sampleRows: seq<SampleRow>, profile: map<string, Profile>): Analysis {
    var detectedType :=
      if col !in profile then StringType else if profile[col].isEmpty then EmptyType else profile[col].detectedType;
    var firstFive := if |sampleRows| <= 5 then sampleRows else sampleRows[..5];
    Analysis(ColumnFor(col, detectedType, Decide(col, profile)), Filter(NOT_NULL, ColumnValues(col, firstFive)), [])
  }

  /** A role is unknown exactly for the columns listed as unmapped, and the columns that are taken
      by a pattern before the keywords are those with full confidence. */
  lemma AnalysisMeans(col: string, sampleRows: seq<SampleRow>, profile: map<string, Profile>)
    ensures var column := AnalysisOf(col, sampleRows, profile).column;
      && column.name == col
      && (column.semanticRole == UnknownRole <==> Decide(col, profile) == Unknown)
      && (column.confidence == 1.0 <==>
            col in profile && (profile[col].isEmpty || profile[col].isCoordinate || profile[col].isCurrency))
      && (col in profile && profile[col].isEmpty ==> column.detectedType == EmptyType && column.semanticRole == Irrelevant)
  {
    hide Includes, Stripped, FirstField;
  }

  datatype Quality = Quality(completeness: real, ambiguityScore: real, deterministicCoverage: real, needsReview: bool)

  function QualityOf(mappedCount: nat): Quality {
    Quality(mappedCount as real / 4.0, if mappedCount > 0 then 0.3 else 0.9, 1.0, mappedCount < 2)
  }

  datatype UnmappedColumn = UnmappedColumn(name: string, reason: string)

  datatype ManualSchema = ManualSchema(
    columns: seq<Analysis>, fieldMapping: FieldMapping, unmappedColumns: seq<UnmappedColumn>, quality: Quality,
    inferenceNotes: seq<string>)

  const MANUAL_NOTE := "Schema created via manual inference (LLM failed or timed out)"

  /** The columns of a mapping, without their confidence. */
  function ColumnsOf(fieldMapping: FieldMapping): map<Field, string> {
    map f | f in fieldMapping && fieldMapping[f].column.Some? :: fieldMapping[f].column.value
  }

  /** Every entry names a column, with the confidence of a keyword match. */
  ghost predicate KeywordEntries(fieldMapping: FieldMapping) {
    forall f :: f in fieldMapping ==> fieldMapping[f] == Entry(fieldMapping[f].column, 0.8, []) && fieldMapping[f].column.Some?
  }

  function WithReason(names: seq<string>): seq<UnmappedColumn> {
    seq(|names|, i requires 0 <= i < |names| => UnmappedColumn(names[i], "No pattern detected"))
  }

  lemma NothingMapped(none: seq<string>, profile: map<string, Profile>, p: string -> bool)
    requires none == []
    ensures MapsFirst(none, profile, map[]) && Filter(p, none) == []
  {
  }

  lemma UnknownReason(col: string, sampleRows: seq<SampleRow>, profile: map<string, Profile>)
    requires Decide(col, profile) == Unknown
    ensures AnalysisOf(col, sampleRows, profile).column.reasoning == "No pattern detected"
  {
    hide Decide, Stripped, Includes, FirstField;
  }

  /** The branches that settle the role of one column. */
  method DecideColumn(col: string, profile: map<string, Profile>) returns (decision: Decision)
    ensures decision == Decide(col, profile)
  {
    hide FirstField, Stripped;
    if col in profile && profile[col].isEmpty { return Empty; }
    if col in profile && profile[col].isCoordinate { return Coordinate; }
    if col in profile && profile[col].isCurrency { return CurrencyPattern; }
    var found := FindField(Stripped(col));
    return if found.Some? then Keyword(found.value.0, found.value.1) else Unknown;
  }

  lemma KeepsEarliest(columns: seq<string>, profile: map<string, Profile>, f: Field, col: string, next: string)
    requires EarliestFor(columns, profile, f, col)
    ensures EarliestFor(columns + [next], profile, f, col)
  {
    hide Decide;
    var i :| 0 <= i < |columns| && columns[i] == col && DecidesFor(col, profile, f)
      && forall j :: 0 <= j < i ==> !DecidesFor(columns[j], profile, f);
    assert (columns + [next])[i] == col;
  }

  lemma AddColumn(columns: seq<string>, profile: map<string, Profile>, fm: map<Field, string>, col: string, field: Field)
    requires MapsFirst(columns, profile, fm) && DecidesFor(col, profile, field)
    ensures MapsFirst(columns + [col], profile, if field in fm then fm else fm[field := col])
  {
    hide Decide;
    var all := columns + [col];
    var added := if field in fm then fm else fm[field := col];
    assert all[|columns|] == col;
    forall f ensures f in added <==> exists i :: 0 <= i < |all| && DecidesFor(all[i], profile, f) {
      if f in fm {
        var i :| 0 <= i < |columns| && DecidesFor(columns[i], profile, f);
        assert all[i] == columns[i];
      }
    }
    forall f | f in added ensures EarliestFor(all, profile, f, added[f]) {
      if f in fm {
        KeepsEarliest(columns, profile, f, fm[f], col);
      } else {
        assert forall j :: 0 <= j < |columns| ==> all[j] == columns[j];
      }
    }
  }

  lemma SkipColumn(columns: seq<string>, profile: map<string, Profile>, fm: map<Field, string>, col: string)
    requires MapsFirst(columns, profile, fm) && !Decide(col, profile).Keyword?
    ensures MapsFirst(columns + [col], profile, fm)
  {
    hide Decide;
    var all := columns + [col];
    forall f ensures f in fm <==> exists i :: 0 <= i < |all| && DecidesFor(all[i], profile, f) {
      if f in fm {
        var i :| 0 <= i < |columns| && DecidesFor(columns[i], profile, f);
        assert all[i] == columns[i];
      }
    }
    forall f | f in fm ensures EarliestFor(all, profile, f, fm[f]) {
      KeepsEarliest(columns, profile, f, fm[f], col);
    }
  }

  lemma NoEntries()
    ensures ColumnsOf(map[]) == map[] && KeywordEntries(map[]) && WithReason([]) == []
  {
  }

  lemma WithReasonPush(names: seq<string>, name: string)
    ensures WithReason(names + [name]) == WithReason(names) + [UnmappedColumn(name, "No pattern detected")]
  {
  }

  lemma AddEntry(columns: seq<string>, profile: map<string, Profile>, fieldMapping: FieldMapping, col: string, field: Field)
    requires MapsFirst(columns, profile, ColumnsOf(fieldMapping)) && KeywordEntries(fieldMapping)
    requires DecidesFor(col, profile, field)
    ensures var added := if field in fieldMapping then fieldMapping else fieldMapping[field := Entry(Some(col), 0.8, [])];
      MapsFirst(columns + [col], profile, ColumnsOf(added)) && KeywordEntries(added)
  {
    hide MapsFirst, DecidesFor;
    AddColumn(columns, profile, ColumnsOf(fieldMapping), col, field);
    if field !in fieldMapping {
      assert ColumnsOf(fieldMapping[field := Entry(Some(col), 0.8, [])]) == ColumnsOf(fieldMapping)[field := col];
    }
  }

  method CreateManualSchema(columns: seq<string>, sampleRows: seq<SampleRow>, profile: map<string, Profile>)
    returns (schema: ManualSchema)
    ensures MapsFirst(columns, profile, ColumnsOf(schema.fieldMapping)) && KeywordEntries(schema.fieldMapping)
    ensures schema.unmappedColumns == WithReason(Filter((col: string) => Decide(col, profile) == Unknown, columns))
    ensures |schema.columns| == |columns|
    ensures forall i :: 0 <= i < |columns| ==> schema.columns[i] == AnalysisOf(columns[i], sampleRows, profile)
    ensures schema.quality == QualityOf(|schema.fieldMapping|) && schema.inferenceNotes == [MANUAL_NOTE]
  {
    hide Decide, MapsFirst, Filter, AnalysisOf, ColumnsOf, KeywordEntries, WithReason, QualityOf;
    var fieldMapping: FieldMapping, unmappedColumns: seq<UnmappedColumn> := map[], [];
    var columnsAnalysis: seq<Analysis> := [];
    ghost var isUnknown := (col: string) => Decide(col, profile) == Unknown;
    NothingMapped(columns[..0], profile, isUnknown);
    NoEntries();
    for i := 0 to |columns|
      invariant MapsFirst(columns[..i], profile, ColumnsOf(fieldMapping)) && KeywordEntries(fieldMapping)
      invariant unmappedColumns == WithReason(Filter(isUnknown, columns[..i]))
      invariant |columnsAnalysis| == i
      invariant forall k :: 0 <= k < i ==> columnsAnalysis[k] == AnalysisOf(columns[k], sampleRows, profile)
    {
      var col := columns[i];
      assert columns[..i + 1] == columns[..i] + [col];
      FilterPush(isUnknown, columns[..i], col);
      var decision := DecideColumn(col, profile);
      var analysis := AnalysisOf(col, sampleRows, profile);
      if decision.Keyword? {
        AddEntry(columns[..i], profile, fieldMapping, col, decision.field);
        if decision.field !in fieldMapping {
          fieldMapping := fieldMapping[decision.field := Entry(Some(col), 0.8, [])];
        }
      } else {
        SkipColumn(columns[..i], profile, ColumnsOf(fieldMapping), col);
      }
      if decision == Unknown {
        UnknownReason(col, sampleRows, profile);
        WithReasonPush(Filter(isUnknown, columns[..i]), col);
        unmappedColumns := unmappedColumns + [UnmappedColumn(col, analysis.column.reasoning)];
      }
      assert Filter(isUnknown, columns[..i + 1])
          == Filter(isUnknown, columns[..i]) + (if decision == Unknown then [col] else []);
      assert Filter(isUnknown, columns[..i]) + [] == Filter(isUnknown, columns[..i]);
      columnsAnalysis := columnsAnalysis + [analysis];
    }
    assert columns[..|columns|] == columns;
    schema := ManualSchema(columnsAnalysis, fieldMapping, unmappedColumns, QualityOf(|fieldMapping|), [MANUAL_NOTE]);
  }

  // ----- what a manual mapping guarantees -----

  /** No column serves two fields; a mapped column is an input column that is not empty,
      coordinate or currency by profile; and none is also listed as unmapped. */
  lemma ManualMappingIsSound(columns: seq<string>, profile: map<string, Profile>, fm: map<Field, string>)
    requires MapsFirst(columns, profile, fm)
    ensures forall f, g :: f in fm && g in fm && fm[f] == fm[g] ==> f == g
    ensures forall f :: f in fm ==> fm[f] in columns
    ensures forall f :: f in fm && fm[f] in profile ==>
      !profile[fm[f]].isEmpty && !profile[fm[f]].isCoordinate && !profile[fm[f]].isCurrency
    ensures forall f :: f in fm ==> fm[f] !in Filter((col: string) => Decide(col, profile) == Unknown, columns)
  {
    hide FirstField, Stripped;
    var isUnknown := (col: string) => Decide(col, profile) == Unknown;
    forall f | f in fm ensures fm[f] in columns && DecidesFor(fm[f], profile, f) && fm[f] !in Filter(isUnknown, columns) {
      assert EarliestFor(columns, profile, f, fm[f]);
      if fm[f] in Filter(isUnknown, columns) {
        FilterMembers(isUnknown, columns);
      }
    }
  }

  /** The mapping is determined by the columns and their profile. */
  lemma ManualMappingIsUnique(
    columns: seq<string>, profile: map<string, Profile>, a: map<Field, string>, b: map<Field, string>)
    requires MapsFirst(columns, profile, a) && MapsFirst(columns, profile, b)
    ensures a == b
  {
    hide Decide;
    forall f | f in a ensures f in b && a[f] == b[f] {
      assert EarliestFor(columns, profile, f, a[f]) && EarliestFor(columns, profile, f, b[f]);
    }
  }

  // ----- which columns the coordinate and currency fields can get -----

  /** The name contains a keyword of the `k`-th field of the table. */
  predicate Hit(name: string, k: nat)
    requires k < |KEYWORDS|
  {
    exists i :: 0 <= i < |KEYWORDS[k].1| && Includes(name, KEYWORDS[k].1[i])
  }

  lemma {:induction false} FirstKeywordIff(name: string, keywords: seq<string>, from: nat)
    requires from <= |keywords|
    ensures FirstKeyword(name, keywords, from).Some? <==> exists i :: from <= i < |keywords| && Includes(name, keywords[i])
    decreases |keywords| - from
  {
    hide Includes;
    if from < |keywords| {
      FirstKeywordIff(name, keywords, from + 1);
    }
  }

  lemma {:induction false} FieldsBehind(name: string, from: nat, k: nat)
    requires k < from <= |KEYWORDS|
    ensures FirstField(name, from).Some? ==> FirstField(name, from).value.0 != KEYWORDS[k].0
    decreases |KEYWORDS| - from
  {
    hide FirstKeyword;
    if from < |KEYWORDS| {
      assert KEYWORDS[from].0 != KEYWORDS[k].0;
      FieldsBehind(name, from + 1, k);
    }
  }

  /** Reaching the table at `from`, a name gets the `k`-th field exactly when it contains one of its
      keywords and none of the fields before. */
  lemma {:induction false} FirstFieldIff(name: string, from: nat, k: nat)
    requires from <= k < |KEYWORDS|
    ensures (FirstField(name, from).Some? && FirstField(name, from).value.0 == KEYWORDS[k].0)
       <==> Hit(name, k) && forall j :: from <= j < k ==> !Hit(name, j)
    decreases k - from
  {
    hide Includes, FirstKeyword;
    FirstKeywordIff(name, KEYWORDS[from].1, 0);
    if from < k {
      FirstFieldIff(name, from + 1, k);
      assert KEYWORDS[from].0 != KEYWORDS[k].0;
      if !Hit(name, from) {
        assert forall j :: from <= j < k && Hit(name, j) ==> from + 1 <= j;
      }
    } else if !Hit(name, k) {
      FieldsBehind(name, from + 1, k);
    }
  }

  /** A column with sampled values that no pattern takes and whose name leads to the `k`-th field. */
  ghost predicate CanBe(k: nat, col: string, sampleRows: seq<SampleRow>)
    requires k < |KEYWORDS|
  {
    var p := ProfileOf(col, sampleRows);
    !p.isEmpty && !p.isCoordinate && !p.isCurrency
    && Hit(Stripped(col), k) && forall j :: 0 <= j < k ==> !Hit(Stripped(col), j)
  }

  ghost predicate ProfiledOn(profile: map<string, Profile>, columns: seq<string>, sampleRows: seq<SampleRow>) {
    forall col :: col in columns ==> col in profile && profile[col] == ProfileOf(col, sampleRows)
  }

  lemma EarliestDecides(columns: seq<string>, profile: map<string, Profile>, f: Field, col: string)
    requires EarliestFor(columns, profile, f, col)
    ensures exists i :: 0 <= i < |columns| && columns[i] == col && DecidesFor(col, profile, f)
  {
    hide DecidesFor;
  }

  /** Each field is mapped exactly when one of the columns can be it. */
  lemma FieldIsMappedIff(
    k: nat, columns: seq<string>, sampleRows: seq<SampleRow>, profile: map<string, Profile>, fm: map<Field, string>)
    requires k < |KEYWORDS| && ProfiledOn(profile, columns, sampleRows) && MapsFirst(columns, profile, fm)
    ensures KEYWORDS[k].0 in fm <==> exists i :: 0 <= i < |columns| && CanBe(k, columns[i], sampleRows)
    ensures KEYWORDS[k].0 in fm ==> CanBe(k, fm[KEYWORDS[k].0], sampleRows)
  {
    hide FirstField, Stripped, ProfileOf, Hit, EarliestFor;
    var f := KEYWORDS[k].0;
    forall i | 0 <= i < |columns| ensures DecidesFor(columns[i], profile, f) <==> CanBe(k, columns[i], sampleRows) {
      assert columns[i] in columns;
      FirstFieldIff(Stripped(columns[i]), 0, k);
    }
    if f in fm {
      assert exists i :: 0 <= i < |columns| && columns[i] == fm[f] && DecidesFor(fm[f], profile, f) by {
        assert EarliestFor(columns, profile, f, fm[f]);
        EarliestDecides(columns, profile, f, fm[f]);
      }
    }
  }

  /** A column that can be mapped as currency: something interrupts "curr" in its lower-case name,
      no sample is a currency code, and no keyword of an asset name or a value is in its name. */
  ghost predicate CanBeCurrency(col: string, sampleRows: seq<SampleRow>) {
    && PresentValues(col, sampleRows) != []
    && !ProfileOf(col, sampleRows).isCoordinate
    && !Includes(Lower(col), "curr")
    && (forall v :: v in PresentValues(col, sampleRows) ==> !IS_CURRENCY_CODE(v))
    && Includes(Stripped(col), "curr")
    && forall keyword :: keyword in KEYWORDS[0].1 + KEYWORDS[1].1 ==> !Includes(Stripped(col), keyword)
  }

  lemma HitCurrency(name: string)
    ensures Hit(name, 2) <==> Includes(name, "curr")
    ensures !Hit(name, 0) && !Hit(name, 1) <==> forall keyword :: keyword in KEYWORDS[0].1 + KEYWORDS[1].1 ==> !Includes(name, keyword)
  {
    hide Includes;
    if Includes(name, "currency") { IncludesStart(name, "currency", "curr"); }
    assert KEYWORDS[2].1[1] == "curr";
    assert Includes(name, "curr") ==> Includes(name, KEYWORDS[2].1[1]);
    var keywords := KEYWORDS[0].1 + KEYWORDS[1].1;
    assert forall i :: 0 <= i < |KEYWORDS[0].1| ==> KEYWORDS[0].1[i] in keywords;
    assert forall i :: 0 <= i < |KEYWORDS[1].1| ==> KEYWORDS[1].1[i] in keywords;
  }

  lemma CurrencyByProfile(col: string, sampleRows: seq<SampleRow>)
    ensures ProfileOf(col, sampleRows).isCurrency <==>
      Includes(Lower(col), "curr") || exists v :: v in PresentValues(col, sampleRows) && IS_CURRENCY_CODE(v)
  {
    hide Includes, PresentValues;
    if Includes(Lower(col), "currency") { IncludesStart(Lower(col), "currency", "curr"); }
    FilterEmptyIff(IS_CURRENCY_CODE, PresentValues(col, sampleRows));
  }

  lemma CanBeIffCurrency(col: string, sampleRows: seq<SampleRow>)
    ensures CanBe(2, col, sampleRows) <==> CanBeCurrency(col, sampleRows)
  {
    hide Hit, Includes, Stripped, Lower, PresentValues, TypeOf;
    HitCurrency(Stripped(col));
    CurrencyByProfile(col, sampleRows);
  }

  /** The currency field is mapped exactly when some column can be a currency. */
  lemma CurrencyIsMappedIff(
    columns: seq<string>, sampleRows: seq<SampleRow>, profile: map<string, Profile>, fm: map<Field, string>)
    requires ProfiledOn(profile, columns, sampleRows) && MapsFirst(columns, profile, fm)
    ensures Currency in fm <==> exists i :: 0 <= i < |columns| && CanBeCurrency(columns[i], sampleRows)
    ensures Currency in fm ==> CanBeCurrency(fm[Currency], sampleRows)
  {
    hide MapsFirst, ProfiledOn, Hit;
    forall col: string ensures CanBe(2, col, sampleRows) <==> CanBeCurrency(col, sampleRows) {
      CanBeIffCurrency(col, sampleRows);
    }
    FieldIsMappedIff(2, columns, sampleRows, profile, fm);
    hide CanBe, CanBeCurrency;
    assert KEYWORDS[2].0 == Currency;
  }

  predicate Plain(col: string) { Stripped(col) == Lower(col) }

  lemma CoordinateHits(name: string)
    ensures Hit(name, 4) ==> Includes(name, "lat")
    ensures Hit(name, 5) ==> Includes(name, "lng") || Includes(name, "lon")
  {
    hide Includes;
    if Includes(name, "latitude") { IncludesStart(name, "latitude", "lat"); }
    if Includes(name, "longitude") { IncludesStart(name, "longitude", "lon"); }
  }

  /** The profile takes the columns that look like currencies and the numeric columns that look
      like coordinates before any keyword is tried. So no plainly named column is ever mapped as
      currency, and one mapped as latitude or longitude does not hold numbers. */
  lemma PlainNamesLoseCurrency(
    columns: seq<string>, sampleRows: seq<SampleRow>, profile: map<string, Profile>, fm: map<Field, string>)
    requires ProfiledOn(profile, columns, sampleRows) && MapsFirst(columns, profile, fm)
    ensures Currency in fm ==> !Plain(fm[Currency])
    ensures forall f :: f in {Latitude, Longitude} && f in fm && Plain(fm[f]) ==>
      !TypeOf(PresentValues(fm[f], sampleRows)).NumberType?
    ensures (forall col :: col in columns ==> Plain(col)) ==> Currency !in fm
  {
    hide Hit, Stripped, Includes, Lower, TypeOf, PresentValues, MapsFirst, ProfiledOn;
    CurrencyIsMappedIff(columns, sampleRows, profile, fm);
    ManualMappingIsSound(columns, profile, fm);
    assert KEYWORDS[4].0 == Latitude && KEYWORDS[5].0 == Longitude;
    FieldIsMappedIff(4, columns, sampleRows, profile, fm);
    FieldIsMappedIff(5, columns, sampleRows, profile, fm);
    if Latitude in fm { CoordinateHits(Stripped(fm[Latitude])); }
    if Longitude in fm { CoordinateHits(Stripped(fm[Longitude])); }
  }

  // ----- mergeWithDeterministic -----

  function CurrencyReason(): string { "Deterministic match: column name or values match currency pattern" }

  function CoordinateReason(role: Role): string {
    "Deterministic match: column name matches " + (if role.LatitudeRole? then "latitude" else "longitude") + " pattern"
  }

  function EmptyReason(): string { "Column contains only empty values" }

  /** What the merge makes of a column: of the three patterns the last one that applies decides
      the role, and an empty column is marked so whatever its role. */
  function Corrected(c: Column, profile: map<string, Profile>): Column {
    if c.name !in profile then c
    else
      var p := profile[c.name];
      var c1 := if p.isEmpty then c.(detectedType := EmptyType) else c;
      if p.isCurrency then
        c1.(semanticRole := CurrencyRole, confidence := 1.0,
            reasoning := CurrencyReason())
      else if p.isCoordinate then
        var role := if LatitudeName(Lower(c.name)) then LatitudeRole else LongitudeRole;
        c1.(semanticRole := role, confidence := 1.0, reasoning := CoordinateReason(role))
      else if p.isEmpty then
        c1.(semanticRole := Irrelevant, confidence := 1.0, reasoning := EmptyReason())
      else c1
  }

  /** A column of the model's answer; the merge overwrites its properties in place. */
  class ColumnAnalysis {
    const name: string
    var detectedType: DetectedType
    var semanticRole: Role
    var confidence: real
    var reasoning: string

    constructor (column: Column)
      ensures Contents() == column
    {
      name := column.name;
      detectedType := column.detectedType;
      semanticRole := column.semanticRole;
      confidence := column.confidence;
      reasoning := column.reasoning;
    }

    function Contents(): Column
      reads this
    {
      Column(name, detectedType, semanticRole, confidence, reasoning)
    }

    /** One pass of the loop over the columns. */
    method Correct(profile: map<string, Profile>)
      modifies this
      ensures Contents() == Corrected(old(Contents()), profile)
    {
      hide LatitudeName, Lower, CoordinateReason, EmptyReason, CurrencyReason;
      if name !in profile { return; }
      var p := profile[name];
      if p.isEmpty {
        detectedType := EmptyType;
        semanticRole := Irrelevant;
        confidence := 1.0;
        reasoning := EmptyReason();
      }
      if p.isCoordinate {
        var role := if LatitudeName(Lower(name)) then LatitudeRole else LongitudeRole;
        semanticRole := role;
        confidence := 1.0;
        reasoning := CoordinateReason(role);
      }
      if p.isCurrency {
        semanticRole := CurrencyRole;
        confidence := 1.0;
        reasoning := CurrencyReason();
      }
    }
  }

  /** Does the profile confirm that a mapped column has the meaning of its field? */
  predicate Confirms(f: Field, col: string, profile: map<string, Profile>) {
    && col != "" && col in profile
    && (|| (profile[col].isCoordinate && LatitudeName(Lower(col)) && f == Latitude)
        || (profile[col].isCoordinate && !LatitudeName(Lower(col)) && f == Longitude)
        || (profile[col].isCurrency && f == Currency))
  }

  function CorrectedEntry(f: Field, e: Entry, profile: map<string, Profile>): Entry {
    if e.column.Some? && Confirms(f, e.column.value, profile) then e.(confidence := 1.0) else e
  }

  const ALL_FIELDS := [AssetName, ValueField, Currency, Jurisdiction, Latitude, Longitude, AssetType]

  lemma CorrectionIsIdempotent(c: Column, profile: map<string, Profile>)
    ensures Corrected(Corrected(c, profile), profile) == Corrected(c, profile)
    ensures Corrected(c, profile).name == c.name
  {
    hide LatitudeName, Lower, CoordinateReason, EmptyReason, CurrencyReason;
  }

  /** One pass of the loop over the entries of the mapping. */
  method CorrectEntry(key: Field, entry: Entry, profile: map<string, Profile>) returns (r: Entry)
    ensures r == CorrectedEntry(key, entry, profile)
  {
    hide LatitudeName, Lower;
    r := entry;
    if entry.column.None? || entry.column.value == "" || entry.column.value !in profile { return; }
    var column := entry.column.value;
    if profile[column].isCoordinate {
      var isLat := LatitudeName(Lower(column));
      if (isLat && key == Latitude) || (!isLat && key == Longitude) {
        r := r.(confidence := 1.0);
      }
    }
    if profile[column].isCurrency && key == Currency {
      r := r.(confidence := 1.0);
    }
  }

  lemma EveryField(f: Field)
    ensures f in ALL_FIELDS
  {
    var i := match f
      case AssetName => 0
      case ValueField => 1
      case Currency => 2
      case Jurisdiction => 3
      case Latitude => 4
      case Longitude => 5
      case AssetType => 6;
    assert ALL_FIELDS[i] == f;
  }

  method CorrectEntries(profile: map<string, Profile>, fieldMapping: FieldMapping) returns (merged: FieldMapping)
    ensures merged == map f | f in fieldMapping :: CorrectedEntry(f, fieldMapping[f], profile)
  {
    hide CorrectedEntry;
    merged := fieldMapping;
    for i := 0 to |ALL_FIELDS|
      invariant merged.Keys == fieldMapping.Keys
      invariant forall f :: f in fieldMapping ==>
        merged[f] == if f in ALL_FIELDS[..i] then CorrectedEntry(f, fieldMapping[f], profile) else fieldMapping[f]
    {
      var key := ALL_FIELDS[i];
      assert ALL_FIELDS[..i + 1] == ALL_FIELDS[..i] + [key];
      assert key !in ALL_FIELDS[..i];
      if key in fieldMapping {
        var entry := CorrectEntry(key, merged[key], profile);
        merged := merged[key := entry];
      }
    }
    assert ALL_FIELDS[..|ALL_FIELDS|] == ALL_FIELDS;
    forall f ensures f in ALL_FIELDS { EveryField(f); }
  }

  /** Every column object holds its corrected contents afterwards, even one that is listed twice,
      and the mapping keeps its fields and their columns. */
  method MergeWithDeterministic(profile: map<string, Profile>, columns: seq<ColumnAnalysis>, fieldMapping: FieldMapping)
    returns (merged: FieldMapping)
    modifies columns
    ensures forall c :: c in columns ==> c.Contents() == Corrected(old(c.Contents()), profile)
    ensures merged == map f | f in fieldMapping :: CorrectedEntry(f, fieldMapping[f], profile)
  {
    hide Corrected, CorrectedEntry;
    for i := 0 to |columns|
      invariant forall c :: c in columns[..i] ==> c.Contents() == Corrected(old(c.Contents()), profile)
      invariant forall c :: c in columns && c !in columns[..i] ==> c.Contents() == old(c.Contents())
    {
      ghost var before := columns[i].Contents();
      columns[i].Correct(profile);
      CorrectionIsIdempotent(old(columns[i].Contents()), profile);
    }
    merged := CorrectEntries(profile, fieldMapping);
  }

  /** Merging twice is merging once, and no mapped column name ever changes. */
  lemma MergeIsIdempotent(f: Field, e: Entry, profile: map<string, Profile>)
    ensures CorrectedEntry(f, CorrectedEntry(f, e, profile), profile) == CorrectedEntry(f, e, profile)
    ensures CorrectedEntry(f, e, profile).column == e.column
    ensures CorrectedEntry(f, e, profile).confidence in {e.confidence, 1.0}
  {
  }

  /** With a profile computed from samples the three patterns cannot all compete: an empty column
      is never a coordinate, so only a currency name overrides emptiness. */
  lemma EmptyColumnsAreIrrelevant(c: Column, sampleRows: seq<SampleRow>, profile: map<string, Profile>)
    requires c.name in profile && profile[c.name] == ProfileOf(c.name, sampleRows)
    requires PresentValues(c.name, sampleRows) == []
    ensures Corrected(c, profile).detectedType == EmptyType
    ensures Corrected(c, profile).semanticRole == if Includes(Lower(c.name), "curr") then CurrencyRole else Irrelevant
  {
    hide Includes, Lower, EmptyReason, CurrencyReason, CoordinateReason, LatitudeName;
    if Includes(Lower(c.name), "currency") {
      IncludesStart(Lower(c.name), "currency", "curr");
    }
    assert Filter(IS_CURRENCY_CODE, PresentValues(c.name, sampleRows)) == [];
  }
}
