/** What issues, confidence and explanation of an output are, in terms of its properties. */
module ScoreMeaning {
  import opened EnrichmentTypes
  import opened LlmValidation
  import opened Options
  import opened Sequences
  import opened Strings

  // ----- the issues -----

  ghost predicate Raised(code: Code, issues: seq<Issue>) {
    exists i :: 0 <= i < |issues| && issues[i].code == code
  }

  /** A finite coordinate. */
  predicate IsFinite(p: Property<Coordinate>) { p.Given? && p.value.Plain? && p.value.reading.Finite? }

  predicate Within(p: Property<Coordinate>, bound: real)
    requires IsFinite(p)
  {
    -bound <= p.value.reading.value <= bound
  }

  lemma InSum(code: Code, a: seq<Issue>, b: seq<Issue>)
    ensures Raised(code, a + b) <==> Raised(code, a) || Raised(code, b)
  {
    if i: nat :| i < |a| && a[i].code == code { assert (a + b)[i].code == code; }
    if i: nat :| i < |b| && b[i].code == code { assert (a + b)[|a| + i].code == code; }
  }

  lemma RaisedIn(code: Code, output: Output)
    ensures Raised(code, Issues(output)) <==>
      || Raised(code, LatitudeIssue(output)) || Raised(code, LongitudeIssue(output))
      || Raised(code, CurrencyIssue(output)) || Raised(code, NameIssue(output))
  {
    hide Raised, LatitudeIssue, LongitudeIssue, CurrencyIssue, NameIssue;
    InSum(code, LatitudeIssue(output) + LongitudeIssue(output) + CurrencyIssue(output), NameIssue(output));
    InSum(code, LatitudeIssue(output) + LongitudeIssue(output), CurrencyIssue(output));
    InSum(code, LatitudeIssue(output), LongitudeIssue(output));
  }

  lemma LatitudeRaises(code: Code, output: Output)
    ensures Raised(code, LatitudeIssue(output)) <==>
      output.latitude.Given?
      && match code
         case INVALID_LATITUDE => !IsFinite(output.latitude)
         case LATITUDE_OUT_OF_RANGE => IsFinite(output.latitude) && !Within(output.latitude, 90.0)
         case EXCESSIVE_COORDINATE_PRECISION =>
           IsFinite(output.latitude) && Within(output.latitude, 90.0) && DecimalPlaces(output.latitude.value.printed) > 6
         case _ => false
  {
    hide DecimalPlaces, Decimal;
    assert output.latitude.Given? && ValidateLatitude(output.latitude.value).Some? ==>
      LatitudeIssue(output)[0] == ValidateLatitude(output.latitude.value).value;
  }

  lemma LongitudeRaises(code: Code, output: Output)
    ensures Raised(code, LongitudeIssue(output)) <==>
      output.longitude.Given?
      && match code
         case INVALID_LONGITUDE => !IsFinite(output.longitude)
         case LONGITUDE_OUT_OF_RANGE => IsFinite(output.longitude) && !Within(output.longitude, 180.0)
         case EXCESSIVE_COORDINATE_PRECISION =>
           IsFinite(output.longitude) && Within(output.longitude, 180.0) && DecimalPlaces(output.longitude.value.printed) > 6
         case _ => false
  {
    hide DecimalPlaces, Decimal;
    assert output.longitude.Given? && ValidateLongitude(output.longitude.value).Some? ==>
      LongitudeIssue(output)[0] == ValidateLongitude(output.longitude.value).value;
  }

  lemma TextsRaise(code: Code, output: Output)
    ensures Raised(code, CurrencyIssue(output)) <==>
      output.currency.Given?
      && match code
         case INVALID_CURRENCY_FORMAT => !HasLengthThree(output.currency.value)
         case UNKNOWN_CURRENCY =>
           output.currency.value.Words? && |output.currency.value.text| == 3
           && Upper(output.currency.value.text) !in VALID_CURRENCIES
         case _ => false
    ensures Raised(code, NameIssue(output)) <==>
      code == EMPTY_ASSET_NAME && output.normalizedAssetName.Given? && output.normalizedAssetName.value.Words?
      && Trim(output.normalizedAssetName.value.text) == ""
  {
    hide Upper, Trim, VALID_CURRENCIES;
    assert output.currency.Given? && ValidateCurrency(output.currency.value).Some? ==>
      CurrencyIssue(output)[0] == ValidateCurrency(output.currency.value).value;
    assert output.normalizedAssetName.Given? && ValidateName(output.normalizedAssetName.value).Some? ==>
      NameIssue(output)[0] == ValidateName(output.normalizedAssetName.value).value;
  }

  /** Each code is raised exactly under its own condition on the output. */
  lemma IssueIff(code: Code, output: Output)
    ensures Raised(code, Issues(output)) <==>
      match code
      case INVALID_LATITUDE => output.latitude.Given? && !IsFinite(output.latitude)
      case INVALID_LONGITUDE => output.longitude.Given? && !IsFinite(output.longitude)
      case LATITUDE_OUT_OF_RANGE => IsFinite(output.latitude) && !Within(output.latitude, 90.0)
      case LONGITUDE_OUT_OF_RANGE => IsFinite(output.longitude) && !Within(output.longitude, 180.0)
      case EXCESSIVE_COORDINATE_PRECISION =>
        || (IsFinite(output.latitude) && Within(output.latitude, 90.0) && DecimalPlaces(output.latitude.value.printed) > 6)
        || (IsFinite(output.longitude) && Within(output.longitude, 180.0) && DecimalPlaces(output.longitude.value.printed) > 6)
      case INVALID_CURRENCY_FORMAT => output.currency.Given? && !HasLengthThree(output.currency.value)
      case UNKNOWN_CURRENCY =>
        output.currency.Given? && output.currency.value.Words? && |output.currency.value.text| == 3
        && Upper(output.currency.value.text) !in VALID_CURRENCIES
      case EMPTY_ASSET_NAME =>
        output.normalizedAssetName.Given? && output.normalizedAssetName.value.Words?
        && Trim(output.normalizedAssetName.value.text) == ""
  {
    hide Raised, LatitudeIssue, LongitudeIssue, CurrencyIssue, NameIssue, Issues, Upper, Trim, DecimalPlaces, HasLengthThree;
    RaisedIn(code, output);
    LatitudeRaises(code, output);
    LongitudeRaises(code, output);
    TextsRaise(code, output);
  }

  /** The properties in the order they are checked. */
  function Checked(k: nat): string {
    if k == 0 then "latitude" else if k == 1 then "longitude" else if k == 2 then "currency" else "normalizedAssetName"
  }

  ghost predicate AtMostOneFor(issues: seq<Issue>, k: nat)
    requires k < 4
  {
    |issues| <= 1 && forall i :: 0 <= i < |issues| ==> issues[i].field == Checked(k)
  }

  lemma OneForEach(output: Output)
    ensures AtMostOneFor(LatitudeIssue(output), 0) && AtMostOneFor(LongitudeIssue(output), 1)
    ensures AtMostOneFor(CurrencyIssue(output), 2) && AtMostOneFor(NameIssue(output), 3)
  {
    hide Upper, Blank, DecimalPlaces, Decimal, HasLengthThree, VALID_CURRENCIES;
  }

  /** The property of the first issue is checked before that of the second. */
  ghost predicate InOrder(a: Issue, b: Issue) {
    exists k, l :: 0 <= k < l < 4 && a.field == Checked(k) && b.field == Checked(l)
  }

  lemma PiecesInOrder(a: seq<Issue>, b: seq<Issue>, c: seq<Issue>, d: seq<Issue>, i: nat, j: nat)
    requires AtMostOneFor(a, 0) && AtMostOneFor(b, 1) && AtMostOneFor(c, 2) && AtMostOneFor(d, 3)
    requires i < j < |a + b + c + d|
    ensures InOrder((a + b + c + d)[i], (a + b + c + d)[j])
  {
    hide Checked;
    var all := a + b + c + d;
    var k := if i < |a| then 0 else if i < |a + b| then 1 else if i < |a + b + c| then 2 else 3;
    var l := if j < |a| then 0 else if j < |a + b| then 1 else if j < |a + b + c| then 2 else 3;
    assert all[i].field == Checked(k);
    assert all[j].field == Checked(l);
  }

  /** There is at most one issue for a property, and they are listed in the order of the properties. */
  lemma IssuesInOrder(output: Output)
    ensures forall i, j :: 0 <= i < j < |Issues(output)| ==> InOrder(Issues(output)[i], Issues(output)[j])
  {
    hide LatitudeIssue, LongitudeIssue, CurrencyIssue, NameIssue, InOrder, AtMostOneFor;
    OneForEach(output);
    forall i: nat, j: nat | i < j < |Issues(output)|
      ensures InOrder(Issues(output)[i], Issues(output)[j])
    {
      PiecesInOrder(LatitudeIssue(output), LongitudeIssue(output), CurrencyIssue(output), NameIssue(output), i, j);
    }
  }

  lemma IssueOf(output: Output, issue: Issue)
    requires issue in Issues(output)
    ensures || (output.latitude.Given? && ValidateLatitude(output.latitude.value) == Some(issue))
            || (output.longitude.Given? && ValidateLongitude(output.longitude.value) == Some(issue))
            || (output.currency.Given? && ValidateCurrency(output.currency.value) == Some(issue))
            || (output.normalizedAssetName.Given? && ValidateName(output.normalizedAssetName.value) == Some(issue))
  {
    hide ValidateLatitude, ValidateLongitude, ValidateCurrency, ValidateName;
  }

  /** The messages about a range, a precision or a currency name what they are about. */
  lemma MessagesTell(output: Output, issue: Issue)
    requires issue in Issues(output)
    ensures issue.code == LATITUDE_OUT_OF_RANGE ==>
      IsFinite(output.latitude) && "Latitude " + output.latitude.value.printed <= issue.message
    ensures issue.code == LONGITUDE_OUT_OF_RANGE ==>
      IsFinite(output.longitude) && "Longitude " + output.longitude.value.printed <= issue.message
    ensures issue.code == UNKNOWN_CURRENCY ==>
      output.currency.Given? && output.currency.value.Words?
      && "Currency " + Upper(output.currency.value.text) <= issue.message
    ensures issue.code == EXCESSIVE_COORDINATE_PRECISION ==>
      || (IsFinite(output.latitude)
          && "Latitude has excessive precision (" + Decimal(DecimalPlaces(output.latitude.value.printed)) <= issue.message)
      || (IsFinite(output.longitude)
          && "Longitude has excessive precision (" + Decimal(DecimalPlaces(output.longitude.value.printed)) <= issue.message)
  {
    hide Upper, Blank, DecimalPlaces, Decimal, HasLengthThree, VALID_CURRENCIES, Issues;
    IssueOf(output, issue);
  }

  // ----- the confidence -----

  /** Four fifths of the mapped fields, at least one, are filled. */
  predicate WellMapped(output: Output, fields: FieldMapping) {
    TotalFields(fields) > 0 && 5 * MappedFields(output, fields) >= 4 * TotalFields(fields)
  }

  lemma RatioAtLeast(m: nat, t: nat, a: nat, b: nat)
    requires t > 0 && a > 0
    ensures Ratio(m, t) >= b as real / a as real <==> a * m >= b * t
  {
    var r, q := Ratio(m, t), b as real / a as real;
    assert r * t as real == m as real && q * a as real == b as real;
    var at := a as real * t as real;
    assert r * at == (a * m) as real && q * at == (b * t) as real;
    assert r >= q ==> r * at >= q * at;
    assert r < q ==> r * at < q * at;
  }

  lemma MappingScoreIs(output: Output, fields: FieldMapping)
    ensures var m, t := MappedFields(output, fields), TotalFields(fields);
      ScoreOf(MappingScore(output, fields))
      == if WellMapped(output, fields) then 0.3 else if t > 0 && 2 * m >= t then 0.1 else 0.0
  {
    hide Ratio, MappedFields, TotalFields;
    var m, t := MappedFields(output, fields), TotalFields(fields);
    if t > 0 {
      RatioAtLeast(m, t, 5, 4);
      RatioAtLeast(m, t, 2, 1);
    }
  }

  /** The property of an output that a mapped field is measured by: for the value column, as for the
      currency column, the currency. */
  function PropertyFor(output: Output, f: Field): Property<TextValue> {
    match f
    case AssetName => output.normalizedAssetName
    case ValueField => output.currency
    case Currency => output.currency
    case _ => output.jurisdiction
  }

  const MEASURED := [AssetName, ValueField, Currency, Jurisdiction]

  function Mapped(fields: FieldMapping): Field -> bool { (f: Field) => IsMapped(fields, f) }

  function MappedAndFilled(output: Output, fields: FieldMapping): Field -> bool {
    (f: Field) => IsMapped(fields, f) && IsFilled(PropertyFor(output, f))
  }

  lemma CountOfFour<T>(p: T -> bool, a: T, b: T, c: T, d: T)
    ensures Count(p, [a, b, c, d])
         == (if p(a) then 1 else 0) + (if p(b) then 1 else 0) + (if p(c) then 1 else 0) + (if p(d) then 1 else 0)
  {
    var s := [a, b, c, d];
    var t := s[1..];
    var u := t[1..];
    var v := u[1..];
    assert t == [b, c, d] && u == [c, d] && v == [d] && v[1..] == [];
    assert Count(p, v) == if p(d) then 1 else 0;
    assert Count(p, u) == (if p(c) then 1 else 0) + Count(p, v);
    assert Count(p, t) == (if p(b) then 1 else 0) + Count(p, u);
  }

  /** The mapped ones among these fields, one more for both coordinates; and those that are filled. */
  lemma FieldsAre(output: Output, fields: FieldMapping)
    ensures var both := IsMapped(fields, Latitude) && IsMapped(fields, Longitude);
      && TotalFields(fields) == Count(Mapped(fields), MEASURED) + (if both then 1 else 0)
      && MappedFields(output, fields)
         == Count(MappedAndFilled(output, fields), MEASURED)
            + (if both && !output.latitude.Undefined? && !output.longitude.Undefined? then 1 else 0)
  {
    hide IsMapped, IsFilled, Count;
    CountOfFour(Mapped(fields), AssetName, ValueField, Currency, Jurisdiction);
    CountOfFour(MappedAndFilled(output, fields), AssetName, ValueField, Currency, Jurisdiction);
  }

  const REPORTED: Option<bool> -> bool := (b: Option<bool>) => b.Some?
  const INFERRED: Option<bool> -> bool := (b: Option<bool>) => b == Some(true)

  function FourSignals(s: Signals): seq<Option<bool>> {
    [s.currencyInferred, s.assetTypeInferred, s.jurisdictionInferred, s.coordinatesInferred]
  }

  /** The inference penalty applies exactly when at least half of the signals that are reported, and
      there are some, say that a value was inferred. */
  lemma InferencePenaltyIff(signals: Signals)
    ensures var reported, inferred := Count(REPORTED, FourSignals(signals)), Count(INFERRED, FourSignals(signals));
      && ScoreOf(InferenceScore(signals)) == (if InferenceScore(signals).Some? then -0.2 else 0.0)
      && (InferenceScore(signals).Some? <==> reported > 0 && 2 * inferred >= reported)
  {
    hide Count, Ratio, Decimal;
    CountOfFour(REPORTED, signals.currencyInferred, signals.assetTypeInferred, signals.jurisdictionInferred, signals.coordinatesInferred);
    CountOfFour(INFERRED, signals.currencyInferred, signals.assetTypeInferred, signals.jurisdictionInferred, signals.coordinatesInferred);
    var reported, inferred := Count(REPORTED, FourSignals(signals)), Count(INFERRED, FourSignals(signals));
    if reported > 0 {
      RatioAtLeast(inferred, reported, 2, 1);
    }
  }

  function Having(severity: Severity): Issue -> bool { (i: Issue) => i.severity == severity }

  /** Four tenths for each critical issue, three for a high one, two for a medium and one for a low. */
  lemma {:induction false} WeightsAre(issues: seq<Issue>)
    ensures TotalWeight(issues)
         == 0.4 * Count(Having(Critical), issues) as real + 0.3 * Count(Having(High), issues) as real
            + 0.2 * Count(Having(Medium), issues) as real + 0.1 * Count(Having(Low), issues) as real
  {
    if issues != [] {
      hide Count;
      var front, last := issues[..|issues| - 1], issues[|issues| - 1];
      assert issues == front + [last];
      WeightsAre(front);
      CountPush(Having(Critical), front, last);
      CountPush(Having(High), front, last);
      CountPush(Having(Medium), front, last);
      CountPush(Having(Low), front, last);
    }
  }

  /** A mapped name, currency or jurisdiction that the output does not even have as null. */
  ghost predicate LacksMapped(output: Output, fields: FieldMapping) {
    exists f :: f in {AssetName, Currency, Jurisdiction} && IsMapped(fields, f) && PropertyFor(output, f).Undefined?
  }

  lemma MissingIff(output: Output, fields: FieldMapping)
    ensures ScoreOf(MissingFieldScore(output, fields))
         == if LacksMapped(output, fields) || SignalsOf(output).fieldMissing then -0.3 else 0.0
  {
    hide IsMapped;
    assert PropertyFor(output, AssetName) == output.normalizedAssetName;
  }

  lemma SimpleScores(output: Output)
    ensures ScoreOf(DeterministicScore(output)) == if SignalsOf(output).exactValueMatch then 0.2 else 0.0
    ensures ScoreOf(ReviewScore(output)) == if output.needsReview then -0.3 else 0.0
  {
  }

  /** The confidence of an output: one half; three tenths more if four fifths of the mapped fields are
      filled, one tenth if half of them are; two tenths for an exact match; less two for inference,
      three for a missing field, the weight of its issues up to one, and three if it asks for review;
      all kept between 0 and 1. */
  lemma ConfidenceIs(output: Output, issues: seq<Issue>, fields: FieldMapping)
    ensures var filled, mapped := MappedFields(output, fields), TotalFields(fields);
      var signals, weight := SignalsOf(output), TotalWeight(issues);
      var reported, inferred := Count(REPORTED, FourSignals(signals)), Count(INFERRED, FourSignals(signals));
      var sum := 0.5
        + (if mapped > 0 && 5 * filled >= 4 * mapped then 0.3 else if mapped > 0 && 2 * filled >= mapped then 0.1 else 0.0)
        + (if signals.exactValueMatch then 0.2 else 0.0)
        - (if reported > 0 && 2 * inferred >= reported then 0.2 else 0.0)
        - (if LacksMapped(output, fields) || signals.fieldMissing then 0.3 else 0.0)
        - (if weight > 1.0 then 1.0 else weight)
        - (if output.needsReview then 0.3 else 0.0);
      Scored(output, Verdict(issues), fields).overall == if sum < 0.0 then 0.0 else if sum > 1.0 then 1.0 else sum
  {
    hide MappedFields, TotalFields, MappingScore, InferenceScore, MissingFieldScore, DeterministicScore, ReviewScore;
    hide LacksMapped, Count, FourSignals, Scored, Verdict, TotalWeight, ScoreOf;
    OverallIs(output, issues, fields);
    MappingScoreIs(output, fields);
    InferencePenaltyIff(SignalsOf(output));
    MissingIff(output, fields);
    SimpleScores(output);
  }

  // ----- the explanation and the confidence of single fields -----

  /** The factors that raise the confidence, and those that lower it, in the order of their components. */
  function Raising(output: Output, fields: FieldMapping): seq<Factor> {
    ToSeq(MappingScore(output, fields)) + ToSeq(DeterministicScore(output))
  }

  function Lowering(output: Output, issues: seq<Issue>, fields: FieldMapping): seq<Factor> {
    ToSeq(InferenceScore(SignalsOf(output))) + ToSeq(MissingFieldScore(output, fields))
    + ToSeq(ValidationScore(Verdict(issues))) + ToSeq(ReviewScore(output))
  }

  /** The reason of a counted factor begins with the counts, the part before the whole. */
  lemma ReasonsCount(output: Output, fields: FieldMapping)
    ensures var s, mapping := FourSignals(SignalsOf(output)), MappingScore(output, fields);
      var inference := InferenceScore(SignalsOf(output));
      && (mapping.Some? ==>
            Decimal(MappedFields(output, fields)) + "/" + Decimal(TotalFields(fields)) <= mapping.value.reason)
      && (inference.Some? ==> Decimal(Count(INFERRED, s)) + "/" + Decimal(Count(REPORTED, s)) <= inference.value.reason)
  {
    hide Count, Ratio, Decimal, MappedFields, TotalFields;
    var signals := SignalsOf(output);
    CountOfFour(REPORTED, signals.currencyInferred, signals.assetTypeInferred, signals.jurisdictionInferred, signals.coordinatesInferred);
    CountOfFour(INFERRED, signals.currencyInferred, signals.assetTypeInferred, signals.jurisdictionInferred, signals.coordinatesInferred);
  }

  lemma RaisingRaises(output: Output, fields: FieldMapping)
    ensures forall i :: 0 <= i < |Raising(output, fields)| ==> Raising(output, fields)[i].score > 0.0
  {
    hide IsMapped, IsFilled, Ratio, Decimal;
  }

  lemma PenaltyLowers(issues: seq<Issue>)
    ensures ValidationScore(Verdict(issues)).Some? ==> ValidationScore(Verdict(issues)).value.score < 0.0
  {
    hide Decimal, Filter;
    ValidationScoreIsPenalty(issues);
  }

  lemma LoweringLowers(output: Output, issues: seq<Issue>, fields: FieldMapping)
    ensures forall i :: 0 <= i < |Lowering(output, issues, fields)| ==> Lowering(output, issues, fields)[i].score < 0.0
  {
    hide IsMapped, IsFilled, Ratio, Decimal, Verdict, ValidationScore, HasAllExpectedFields;
    PenaltyLowers(issues);
  }

  lemma PercentIs(score: real)
    requires score >= 0.0 && Tenths(score)
    ensures Percent(score) as real == 100.0 * score
  {
    assert 100.0 * score == (10 * (10.0 * score).Floor) as real;
    assert (100.0 * score + 0.5).Floor == 10 * (10.0 * score).Floor;
  }

  lemma FactorsSplit(output: Output, issues: seq<Issue>, fields: FieldMapping)
    ensures Factors(output, Verdict(issues), fields) == Raising(output, fields) + Lowering(output, issues, fields)
  {
    hide MappingScore, DeterministicScore, InferenceScore, MissingFieldScore, ValidationScore, ReviewScore, Verdict, ToSeq;
  }

  lemma SplitBySign(positive: seq<Factor>, negative: seq<Factor>)
    requires forall i :: 0 <= i < |positive| ==> positive[i].score > 0.0
    requires forall i :: 0 <= i < |negative| ==> negative[i].score < 0.0
    ensures Filter((f: Factor) => f.score > 0.0, positive + negative) == positive
    ensures Filter((f: Factor) => f.score < 0.0, positive + negative) == negative
  {
    hide Filter;
    FilterAppend((f: Factor) => f.score > 0.0, positive, negative);
    FilterAppend((f: Factor) => f.score < 0.0, positive, negative);
    FilterAll((f: Factor) => f.score > 0.0, positive);
    FilterAll((f: Factor) => f.score > 0.0, negative);
    FilterAll((f: Factor) => f.score < 0.0, positive);
    FilterAll((f: Factor) => f.score < 0.0, negative);
    assert positive + [] == positive && [] + negative == negative;
  }

  /** The explanation gives the confidence in percent, without rounding, and then all reported reasons,
      those that raised it before those that lowered it. */
  lemma ExplanationIs(output: Output, issues: seq<Issue>, fields: FieldMapping)
    ensures var score := Scored(output, Verdict(issues), fields);
      var positive, negative := Raising(output, fields), Lowering(output, issues, fields);
      && score.factors == positive + negative
      && Percent(score.overall) as real == 100.0 * score.overall
      && score.explanation ==
           "Overall confidence: " + Decimal(Percent(score.overall)) + "%. "
           + (if positive == [] then "" else "Positive signals: " + Join(ReasonsOf(positive), "; ") + ". ")
           + (if negative == [] then "" else "Negative signals: " + Join(ReasonsOf(negative), "; ") + ".")
  {
    hide Raising, Lowering, Verdict, Decimal, Join, ReasonsOf, Filter, Tenths, Percent, FieldConfidenceOf, Factors;
    var v := Verdict(issues);
    var positive, negative := Raising(output, fields), Lowering(output, issues, fields);
    FactorsSplit(output, issues, fields);
    RaisingRaises(output, fields);
    LoweringLowers(output, issues, fields);
    SplitBySign(positive, negative);
    ScoresAreTenths(output, issues, fields);
    PercentIs(Scored(output, v, fields).overall);
  }

  /** A single field gets 0.3 exactly when it is not filled, 0.7 when it is filled but inferred, and
      else 0.9; the coordinates are filled when both are given and neither is a zero. */
  lemma FieldConfidenceIs(output: Output, issues: seq<Issue>, fields: FieldMapping)
    ensures var r, s := Scored(output, Verdict(issues), fields).fieldConfidence, SignalsOf(output);
      && r.assetName == (if IsFilled(output.normalizedAssetName) then 0.9 else 0.3)
      && {r.currency, r.assetType, r.jurisdiction, r.coordinates} <= {0.3, 0.7, 0.9}
      && (r.currency == 0.3 <==> !IsFilled(output.currency))
      && (r.currency == 0.7 <==> IsFilled(output.currency) && s.currencyInferred == Some(true))
      && (r.assetType == 0.3 <==> !IsFilled(output.assetType))
      && (r.assetType == 0.7 <==> IsFilled(output.assetType) && s.assetTypeInferred == Some(true))
      && (r.jurisdiction == 0.3 <==> !IsFilled(output.jurisdiction))
      && (r.jurisdiction == 0.7 <==> IsFilled(output.jurisdiction) && s.jurisdictionInferred == Some(true))
      && r.coordinates == if output.latitude.Given? && IsNonZero(output.latitude.value)
                             && output.longitude.Given? && IsNonZero(output.longitude.value) then 0.9 else 0.3
  {
    hide Verdict, Factors, Scores, GenerateConfidenceExplanation, IsFilled, IsNonZero;
  }
}
