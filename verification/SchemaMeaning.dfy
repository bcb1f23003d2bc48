/** What profiling, the manual schema and the merge make of a column, case by case. */
module SchemaMeaning {
  import opened EnrichmentTypes
  import opened HeaderNames
  import opened Options
  import opened SchemaMapping
  import opened Sequences
  import opened Strings

  // ----- the profile of a column -----

  /** One of the first ten rows has this value in the column, and it is neither null nor empty text. */
  ghost predicate IsValue(col: string, rows: seq<SampleRow>, v: Sample) {
    && v != Missing && !(v.Str? && v.text == "")
    && exists i :: 0 <= i < |rows| && i < 10 && col in rows[i] && rows[i][col] == v
  }

  /** The values a column is profiled by are exactly these. */
  lemma PresentValuesAre(col: string, rows: seq<SampleRow>, v: Sample)
    ensures v in PresentValues(col, rows) <==> IsValue(col, rows, v)
  {
    var firstTen := FirstTen(rows);
    var values := ColumnValues(col, firstTen);
    FilterMembers(IS_PRESENT, values);
    if v in PresentValues(col, rows) {
      var i :| 0 <= i < |values| && values[i] == v;
      assert firstTen[i] == rows[i];
    }
    if IsValue(col, rows, v) {
      var i :| 0 <= i < |rows| && i < 10 && col in rows[i] && rows[i][col] == v;
      assert firstTen[i] == rows[i];
      assert values[i] == v;
    }
  }

  predicate IsNumeric(v: Sample) { v.Number? || (v.Str? && v.numeric) }

  predicate IsDate(v: Sample) { v.Str? && v.date }

  predicate IsBoolean(v: Sample) { v == Boolean }

  ghost predicate AllValues(p: Sample -> bool, col: string, rows: seq<SampleRow>) {
    forall v :: IsValue(col, rows, v) ==> p(v)
  }

  lemma NoneFiltered(not: Sample -> bool, p: Sample -> bool, col: string, rows: seq<SampleRow>)
    requires forall v :: not(v) == !p(v)
    ensures Filter(not, PresentValues(col, rows)) == [] <==> AllValues(p, col, rows)
  {
    hide PresentValues, IsValue, Filter;
    FilterEmptyIff(not, PresentValues(col, rows));
    forall v ensures v in PresentValues(col, rows) <==> IsValue(col, rows, v) {
      PresentValuesAre(col, rows, v);
    }
  }

  /** A column is empty without such a value; it holds numbers if all of them are numbers or numerals,
      else dates if all are, else truth values if all are, and in all other cases text. */
  lemma ProfileTypeIs(col: string, rows: seq<SampleRow>)
    ensures var p := ProfileOf(col, rows);
      && (p.isEmpty <==> forall v :: !IsValue(col, rows, v))
      && p.detectedType ==
           if p.isEmpty then StringType
           else if AllValues(IsNumeric, col, rows) then NumberType
           else if AllValues(IsDate, col, rows) then DateType
           else if AllValues(IsBoolean, col, rows) then BooleanType
           else StringType
  {
    hide PresentValues, IsValue, Filter, Includes, Lower, AllValues;
    var present := PresentValues(col, rows);
    NoneFiltered(NOT_NUMERIC, IsNumeric, col, rows);
    NoneFiltered(NOT_DATE, IsDate, col, rows);
    NoneFiltered(NOT_BOOLEAN, IsBoolean, col, rows);
    forall v ensures v in present <==> IsValue(col, rows, v) {
      PresentValuesAre(col, rows, v);
    }
    if present != [] {
      assert present[0] in present;
    }
  }

  /** It is a coordinate exactly when it holds numbers under a name with lat, lng or lon, or the name x
      or y, and a currency exactly when its name has curr or some value is a currency code. */
  lemma ProfilePatternIff(col: string, rows: seq<SampleRow>)
    ensures var p, name := ProfileOf(col, rows), Lower(col);
      && (p.isCoordinate <==>
            p.detectedType == NumberType
            && (Includes(name, "lat") || Includes(name, "lng") || Includes(name, "lon") || name in {"x", "y"}))
      && (p.isCurrency <==>
            || Includes(name, "curr")
            || exists v :: IsValue(col, rows, v) && v.Str? && Upper(v.text) in CURRENCY_CODES)
  {
    hide PresentValues, IsValue, Includes, Lower, Upper, Filter, TypeOf, CURRENCY_CODES;
    CurrencyByProfile(col, rows);
    forall v ensures v in PresentValues(col, rows) <==> IsValue(col, rows, v) {
      PresentValuesAre(col, rows, v);
    }
  }

  // ----- the role of a column in the manual schema -----

  lemma NothingJoined()
    ensures Join([], "") == ""
  {
  }

  lemma {:induction false} FilteredTokens(s: string)
    ensures Filter(IS_ALNUM, s) == Join(Tokens(IS_ALNUM, s), "")
    decreases |s|
  {
    if s != "" && Alnum(s[0]) {
      var n := Leading(IS_ALNUM, s);
      var word, rest := s[..n], s[n..];
      FilteredTokens(rest);
      FilterAppend(IS_ALNUM, word, rest);
      FilterAll(IS_ALNUM, word);
      assert s == word + rest && Tokens(IS_ALNUM, s) == [word] + Tokens(IS_ALNUM, rest);
      hide Filter, Tokens, Join;
      JoinOne(word, "");
      if Tokens(IS_ALNUM, rest) != [] {
        JoinAppend([word], Tokens(IS_ALNUM, rest), "");
        assert word + "" == word;
      } else {
        NothingJoined();
        assert [word] + [] == [word] && word + "" == word;
      }
    } else if s != "" {
      FilteredTokens(s[1..]);
    }
  }

  /** Keywords are looked for in the words of the lower-case name, put together without anything between. */
  lemma StrippedIs(col: string)
    ensures Stripped(col) == Join(Tokens(IS_ALNUM, Lower(col)), "")
  {
    hide Join, Tokens, Lower;
    FilteredTokens(Lower(col));
  }

  predicate NoPattern(col: string, profile: map<string, Profile>) {
    col in profile ==> !profile[col].isEmpty && !profile[col].isCoordinate && !profile[col].isCurrency
  }

  /** No pattern takes the column, and its name leads to the `k`-th field of the table. */
  ghost predicate LeadsTo(k: nat, col: string, profile: map<string, Profile>)
    requires k < |KEYWORDS|
  {
    NoPattern(col, profile) && Hit(Stripped(col), k) && forall j :: 0 <= j < k ==> !Hit(Stripped(col), j)
  }

  predicate TakenAsCoordinate(col: string, profile: map<string, Profile>) {
    col in profile && !profile[col].isEmpty && profile[col].isCoordinate
  }

  predicate TakenAsCurrency(col: string, profile: map<string, Profile>) {
    col in profile && !profile[col].isEmpty && !profile[col].isCoordinate && profile[col].isCurrency
  }

  predicate LooksLikeLatitude(name: string) { Includes(name, "lat") || name == "y" }

  lemma DecidesIff(k: nat, col: string, profile: map<string, Profile>)
    requires k < |KEYWORDS|
    ensures DecidesFor(col, profile, KEYWORDS[k].0) <==> LeadsTo(k, col, profile)
  {
    hide FirstField, Stripped, Hit;
    FirstFieldIff(Stripped(col), 0, k);
  }

  function TableIndex(f: Field): (k: nat)
    ensures k < |KEYWORDS| && KEYWORDS[k].0 == f
  {
    match f
    case AssetName => 0
    case ValueField => 1
    case Currency => 2
    case Jurisdiction => 3
    case Latitude => 4
    case Longitude => 5
    case AssetType => 6
  }

  lemma KeywordDecides(col: string, profile: map<string, Profile>)
    ensures Decide(col, profile).Keyword? <==> exists k: nat :: k < |KEYWORDS| && LeadsTo(k, col, profile)
  {
    hide FirstField, Stripped, Hit;
    if Decide(col, profile).Keyword? {
      var k := TableIndex(Decide(col, profile).field);
      DecidesIff(k, col, profile);
    }
    if k: nat :| k < |KEYWORDS| && LeadsTo(k, col, profile) {
      DecidesIff(k, col, profile);
    }
  }

  /** The role a column gets: by emptiness, by a pattern, or by the field its name leads to. */
  lemma RoleIff(col: string, rows: seq<SampleRow>, profile: map<string, Profile>, role: Role)
    ensures AnalysisOf(col, rows, profile).column.semanticRole == role <==>
      match role
      case Irrelevant => col in profile && profile[col].isEmpty
      case CurrencyRole => TakenAsCurrency(col, profile) || LeadsTo(2, col, profile)
      case LatitudeRole =>
        (TakenAsCoordinate(col, profile) && LooksLikeLatitude(Stripped(col))) || LeadsTo(4, col, profile)
      case LongitudeRole =>
        (TakenAsCoordinate(col, profile) && !LooksLikeLatitude(Stripped(col))) || LeadsTo(5, col, profile)
      case AssetNameRole => LeadsTo(0, col, profile)
      case ValueRole => LeadsTo(1, col, profile)
      case JurisdictionRole => LeadsTo(3, col, profile)
      case Metadata => LeadsTo(6, col, profile)
      case UnknownRole => NoPattern(col, profile) && forall k: nat :: k < |KEYWORDS| ==> !LeadsTo(k, col, profile)
      case _ => false
  {
    hide FirstField, Stripped, Hit, Includes, LeadsTo;
    assert KEYWORDS[0].0 == AssetName && KEYWORDS[1].0 == ValueField && KEYWORDS[2].0 == Currency;
    assert KEYWORDS[3].0 == Jurisdiction && KEYWORDS[4].0 == Latitude && KEYWORDS[5].0 == Longitude;
    assert KEYWORDS[6].0 == AssetType;
    DecidesIff(0, col, profile);
    DecidesIff(1, col, profile);
    DecidesIff(2, col, profile);
    DecidesIff(3, col, profile);
    DecidesIff(4, col, profile);
    DecidesIff(5, col, profile);
    DecidesIff(6, col, profile);
    KeywordDecides(col, profile);
  }

  lemma {:induction false} FilterShrinks(p: Sample -> bool, xs: seq<Sample>)
    ensures |Filter(p, xs)| <= |xs|
  {
    if xs != [] {
      FilterShrinks(p, xs[1..]);
    }
  }

  /** The type of a column is that of its profile, or empty, or text without one; its samples are the
      first five values that are not null. */
  lemma AnalysisHolds(col: string, rows: seq<SampleRow>, profile: map<string, Profile>, v: Sample)
    ensures var analysis := AnalysisOf(col, rows, profile);
      && (col !in profile ==> analysis.column.detectedType == StringType)
      && (col in profile ==>
            analysis.column.detectedType == if profile[col].isEmpty then EmptyType else profile[col].detectedType)
      && (v in analysis.sampleValues <==>
            v != Missing && exists i :: 0 <= i < |rows| && i < 5 && col in rows[i] && rows[i][col] == v)
      && |analysis.sampleValues| <= 5
  {
    hide Decide, Stripped, Includes;
    var firstFive := if |rows| <= 5 then rows else rows[..5];
    var values := ColumnValues(col, firstFive);
    FilterMembers(NOT_NULL, values);
    FilterShrinks(NOT_NULL, values);
    if v != Missing {
      if v in values {
        var i :| 0 <= i < |values| && values[i] == v;
        assert firstFive[i] == rows[i];
      }
      if i: nat :| i < |rows| && i < 5 && col in rows[i] && rows[i][col] == v {
        assert firstFive[i] == rows[i];
        assert values[i] == v;
      }
    }
  }

  /** The column a field is mapped to has the role of that field, with confidence 0.8. */
  lemma MappedColumnHasRole(
    columns: seq<string>, rows: seq<SampleRow>, profile: map<string, Profile>, fm: map<Field, string>, k: nat)
    requires MapsFirst(columns, profile, fm) && k < |KEYWORDS| && KEYWORDS[k].0 in fm
    ensures LeadsTo(k, fm[KEYWORDS[k].0], profile)
    ensures AnalysisOf(fm[KEYWORDS[k].0], rows, profile).column.confidence == 0.8
  {
    hide Decide, LeadsTo;
    var f := KEYWORDS[k].0;
    assert EarliestFor(columns, profile, f, fm[f]);
    EarliestDecides(columns, profile, f, fm[f]);
    DecidesIff(k, fm[f], profile);
  }

  // ----- the quality of the manual schema -----

  ghost predicate SomeColumnCanBe(k: nat, columns: seq<string>, rows: seq<SampleRow>) {
    k < |KEYWORDS| && exists i :: 0 <= i < |columns| && CanBe(k, columns[i], rows)
  }

  lemma TableIsDistinct(j: nat, k: nat)
    requires j < k < |KEYWORDS|
    ensures KEYWORDS[j].0 != KEYWORDS[k].0
  {
  }

  lemma TwoKeys(fm: map<Field, string>, f: Field, g: Field)
    requires f in fm && g in fm && f != g
    ensures |fm| >= 2
  {
    assert fm.Keys - {f} - {g} + {f} + {g} == fm.Keys;
  }

  lemma AnotherKey(fm: map<Field, string>, f: Field) returns (g: Field)
    requires |fm| >= 2 && f in fm
    ensures g in fm && g != f
  {
    var rest := fm.Keys - {f};
    assert |rest| == |fm.Keys| - 1;
    g :| g in rest;
  }

  /** The schema needs review exactly when no two fields can be mapped; its completeness counts the
      mapped fields in quarters, so with five of the seven it is above one; and it is called ambiguous,
      0.9, exactly when none is. */
  lemma QualityIs(columns: seq<string>, rows: seq<SampleRow>, profile: map<string, Profile>, fm: map<Field, string>)
    requires ProfiledOn(profile, columns, rows) && MapsFirst(columns, profile, fm)
    ensures var q := QualityOf(|fm|);
      && (q.needsReview <==> !exists j, k :: j < k && SomeColumnCanBe(j, columns, rows) && SomeColumnCanBe(k, columns, rows))
      && q.completeness * 4.0 == |fm| as real && (q.completeness > 1.0 <==> |fm| >= 5)
      && (q.ambiguityScore == 0.9 <==> forall k: nat :: !SomeColumnCanBe(k, columns, rows))
      && q.ambiguityScore in {0.3, 0.9} && q.deterministicCoverage == 1.0
  {
    hide MapsFirst, ProfiledOn, CanBe;
    forall k: nat | k < |KEYWORDS| ensures KEYWORDS[k].0 in fm <==> SomeColumnCanBe(k, columns, rows) {
      FieldIsMappedIff(k, columns, rows, profile, fm);
    }
    hide SomeColumnCanBe;
    if j: nat, k: nat :| j < k && SomeColumnCanBe(j, columns, rows) && SomeColumnCanBe(k, columns, rows) {
      TableIsDistinct(j, k);
      TwoKeys(fm, KEYWORDS[j].0, KEYWORDS[k].0);
    }
    if |fm| >= 2 {
      var f :| f in fm;
      var g := AnotherKey(fm, f);
      var a, b := TableIndex(f), TableIndex(g);
      assert SomeColumnCanBe(a, columns, rows) && SomeColumnCanBe(b, columns, rows);
      assert a < b || b < a;
    }
    if fm != map[] {
      var f :| f in fm;
      assert SomeColumnCanBe(TableIndex(f), columns, rows);
    }
  }

  // ----- what the merge leaves -----

  /** A profiled currency is a currency whatever else it is; else a coordinate is a latitude or a
      longitude by its name; else an empty column is irrelevant; and a column without any of these, or
      without a profile, stays as it is. */
  lemma CorrectedIs(c: Column, profile: map<string, Profile>)
    ensures var r := Corrected(c, profile);
      && r.name == c.name
      && (NoPattern(c.name, profile) ==> r == c)
      && (c.name in profile ==>
            var p := profile[c.name];
            && (p.isCurrency ==> r.semanticRole == CurrencyRole)
            && (!p.isCurrency && p.isCoordinate ==>
                  r.semanticRole == if LooksLikeLatitude(Lower(c.name)) then LatitudeRole else LongitudeRole)
            && (!p.isCurrency && !p.isCoordinate && p.isEmpty ==> r.semanticRole == Irrelevant)
            && (p.isEmpty ==> r.detectedType == EmptyType) && (!p.isEmpty ==> r.detectedType == c.detectedType)
            && (!NoPattern(c.name, profile) ==> r.confidence == 1.0))
  {
    hide Includes, Lower;
  }

  /** An entry becomes certain exactly when its column is profiled with the meaning of its field. */
  lemma CorrectedEntryIs(f: Field, e: Entry, profile: map<string, Profile>)
    ensures var r := CorrectedEntry(f, e, profile);
      && r.column == e.column && r.alternatives == e.alternatives && r.confidence in {e.confidence, 1.0}
      && (e.confidence != 1.0 ==>
            (r.confidence == 1.0 <==>
               e.column.Some? && e.column.value != "" && e.column.value in profile
               && var p, latitude := profile[e.column.value], LooksLikeLatitude(Lower(e.column.value));
                  match f
                  case Latitude => p.isCoordinate && latitude
                  case Longitude => p.isCoordinate && !latitude
                  case Currency => p.isCurrency
                  case _ => false))
  {
    hide Includes, Lower;
  }
}
