/** Validation of an enrichment output and the confidence score computed from it. Scores are
    reals; `ScoresAreTenths` shows why rounding cannot move one across the review threshold. */
module LlmValidation {
  import opened EnrichmentTypes
  import opened Options
  import opened Sequences
  import opened Strings

  const MAX_COORDINATE_PRECISION: nat := 6
  const CONFIDENCE_THRESHOLD: real := 0.65

  const OTHER_CODES := [
    "SEK", "NOK", "DKK", "NZD", "ZAR", "RUB", "IDR", "MYR", "PHP", "THB", "VND", "AED", "SAR", "ILS", "TRY"]

  /** The validator accepts the codes that extraction recognises and fifteen more. */
  const VALID_CURRENCIES := CURRENCY_CODES + OTHER_CODES

  datatype Severity = Low | Medium | High | Critical

  datatype Code =
    | INVALID_LATITUDE
    | LATITUDE_OUT_OF_RANGE
    | INVALID_LONGITUDE
    | LONGITUDE_OUT_OF_RANGE
    | EXCESSIVE_COORDINATE_PRECISION
    | INVALID_CURRENCY_FORMAT
    | UNKNOWN_CURRENCY
    | EMPTY_ASSET_NAME

  datatype Issue = Issue(field: string, severity: Severity, message: string, code: Code)

  datatype ValidationResult = ValidationResult(valid: bool, issues: seq<Issue>, confidencePenalty: real)

  /** Why validating or scoring an output throws. */
  datatype Fault = LatitudeDoesNotConvert | LongitudeDoesNotConvert | CurrencyIsNoText | NameIsNoText | NoSignals

  const IS_SERIOUS: Issue -> bool := (i: Issue) => i.severity.Critical? || i.severity.High?

  // ----- countDecimalPlaces -----

  function UpToDot(s: string): (r: string)
    ensures |r| <= |s| && ('.' in s ==> |r| < |s|)
  {
    if s == "" || s[0] == '.' then "" else [s[0]] + UpToDot(s[1..])
  }

  /** The length of the piece between the first point and the next, zero without a point. */
  function DecimalPlaces(printed: string): nat {
    if '.' !in printed then 0 else |UpToDot(printed[|UpToDot(printed)| + 1..])|
  }

  lemma {:induction false} UpToDotIs(whole: string, rest: string)
    requires '.' !in whole && (rest == "" || rest[0] == '.')
    ensures UpToDot(whole + rest) == whole
  {
    if whole == "" {
      assert whole + rest == rest;
    } else {
      assert (whole + rest)[0] == whole[0] && (whole + rest)[1..] == whole[1..] + rest;
      UpToDotIs(whole[1..], rest);
    }
  }

  lemma ExponentForm()
    ensures DecimalPlaces("1e-7") == 0 && DecimalPlaces("1.5e-10") == 5
  {
    UpToDotIs("1", ".5e-10");
    UpToDotIs("5e-10", "");
    var s := "1.5e-10";
    assert s == "1" + ".5e-10" && s[1] == '.' && s[2..] == "5e-10" && "5e-10" + "" == "5e-10";
  }

  /** For a number printed as digits, point, digits these are its decimals. In exponent form the
      exponent counts as decimals after a point, and without a point nothing counts: 1e-7, which
      has seven decimals, passes, and 1.5e-10 is charged with five. */
  lemma DecimalPlacesIs(whole: string, fraction: string)
    requires '.' !in whole && '.' !in fraction
    ensures DecimalPlaces(whole) == 0 && DecimalPlaces(whole + "." + fraction) == |fraction|
    ensures DecimalPlaces("1e-7") == 0 && DecimalPlaces("1.5e-10") == 5
  {
    var s := whole + "." + fraction;
    assert s == whole + ("." + fraction) && s[|whole|] == '.';
    UpToDotIs(whole, "." + fraction);
    UpToDotIs(fraction, "");
    assert s[|whole| + 1..] == fraction && fraction + "" == fraction;
    ExponentForm();
  }

  // ----- validateEnrichmentOutput -----

  function ValidateLatitude(lat: Coordinate): Option<Issue> {
    if !lat.Plain? || !lat.reading.Finite? then
      Some(Issue("latitude", Critical, "Latitude is not a valid number", INVALID_LATITUDE))
    else if lat.reading.value < -90.0 || lat.reading.value > 90.0 then
      Some(Issue("latitude", Critical, "Latitude " + lat.printed + " is out of range (-90 to 90)", LATITUDE_OUT_OF_RANGE))
    else if DecimalPlaces(lat.printed) > MAX_COORDINATE_PRECISION then
      Some(Issue("latitude", Low, "Latitude has excessive precision (" + Decimal(DecimalPlaces(lat.printed)) + " decimals)",
                 EXCESSIVE_COORDINATE_PRECISION))
    else None
  }

  function ValidateLongitude(lng: Coordinate): Option<Issue> {
    if !lng.Plain? || !lng.reading.Finite? then
      Some(Issue("longitude", Critical, "Longitude is not a valid number", INVALID_LONGITUDE))
    else if lng.reading.value < -180.0 || lng.reading.value > 180.0 then
      Some(Issue("longitude", Critical, "Longitude " + lng.printed + " is out of range (-180 to 180)", LONGITUDE_OUT_OF_RANGE))
    else if DecimalPlaces(lng.printed) > MAX_COORDINATE_PRECISION then
      Some(Issue("longitude", Low, "Longitude has excessive precision (" + Decimal(DecimalPlaces(lng.printed)) + " decimals)",
                 EXCESSIVE_COORDINATE_PRECISION))
    else None
  }

  const WRONG_FORMAT := Issue("currency", High, "Currency must be a 3-letter code", INVALID_CURRENCY_FORMAT)
  const EMPTY_NAME := Issue("normalizedAssetName", High, "Asset name cannot be empty", EMPTY_ASSET_NAME)

  /** Only a value that is a text goes past the length check without an exception. */
  function ValidateCurrency(currency: TextValue): Option<Issue> {
    if !IsTruthy(currency) || !HasLengthThree(currency) then Some(WRONG_FORMAT)
    else if currency.Words? && Upper(currency.text) !in VALID_CURRENCIES then
      Some(Issue("currency", Medium, "Currency " + Upper(currency.text) + " is not in the standard currency list", UNKNOWN_CURRENCY))
    else None
  }

  function ValidateName(name: TextValue): Option<Issue> {
    if name.Words? && Blank(name.text) then Some(EMPTY_NAME) else None
  }

  function ToSeq<T>(x: Option<T>): seq<T> {
    if x.Some? then [x.value] else []
  }

  function LatitudeIssue(output: Output): seq<Issue> {
    if output.latitude.Given? then ToSeq(ValidateLatitude(output.latitude.value)) else []
  }

  function LongitudeIssue(output: Output): seq<Issue> {
    if output.longitude.Given? then ToSeq(ValidateLongitude(output.longitude.value)) else []
  }

  function CurrencyIssue(output: Output): seq<Issue> {
    if output.currency.Given? then ToSeq(ValidateCurrency(output.currency.value)) else []
  }

  function NameIssue(output: Output): seq<Issue> {
    if output.normalizedAssetName.Given? then ToSeq(ValidateName(output.normalizedAssetName.value)) else []
  }

  function Issues(output: Output): seq<Issue> {
    LatitudeIssue(output) + LongitudeIssue(output) + CurrencyIssue(output) + NameIssue(output)
  }

  /** The first exception of the validator, in the order of its checks. */
  function ValidationFault(output: Output): Option<Fault> {
    if output.latitude.Given? && !Converts(output.latitude.value) then Some(LatitudeDoesNotConvert)
    else if output.longitude.Given? && !Converts(output.longitude.value) then Some(LongitudeDoesNotConvert)
    else if output.currency.Given? && HasLengthThree(output.currency.value) && !output.currency.value.Words? then
      Some(CurrencyIsNoText)
    else if output.normalizedAssetName.Given? && !output.normalizedAssetName.value.Words? then Some(NameIsNoText)
    else None
  }

  function Weight(s: Severity): real {
    match s
    case Critical => 0.4
    case High => 0.3
    case Medium => 0.2
    case Low => 0.1
  }

  function TotalWeight(issues: seq<Issue>): (w: real)
    ensures w >= 0.0 && (w == 0.0 <==> issues == [])
  {
    if issues == [] then 0.0 else TotalWeight(issues[..|issues| - 1]) + Weight(issues[|issues| - 1].severity)
  }

  function Max(a: real, b: real): real { if a >= b then a else b }

  function Min(a: real, b: real): real { if a <= b then a else b }

  /** The result the validator gives for a list of issues. */
  function Verdict(issues: seq<Issue>): ValidationResult {
    ValidationResult(Filter(IS_SERIOUS, issues) == [], issues, Max(-TotalWeight(issues), -1.0))
  }

  method CalculateValidationPenalty(issues: seq<Issue>) returns (r: real)
    ensures r == Max(-TotalWeight(issues), -1.0)
  {
    var penalty := 0.0;
    for i := 0 to |issues|
      invariant penalty == -TotalWeight(issues[..i])
    {
      assert issues[..i + 1][..i] == issues[..i];
      match issues[i].severity {
        case Critical => penalty := penalty - 0.4;
        case High => penalty := penalty - 0.3;
        case Medium => penalty := penalty - 0.2;
        case Low => penalty := penalty - 0.1;
      }
    }
    assert issues[..|issues|] == issues;
    r := Max(penalty, -1.0);
  }

  /** The checks of one coordinate, which convert it first. */
  method CheckLatitude(lat: Coordinate) returns (r: Result<Option<Issue>, Fault>)
    ensures r == if Converts(lat) then Ok(ValidateLatitude(lat)) else Err(LatitudeDoesNotConvert)
  {
    if lat.Object? && "toString" in lat.names { return Err(LatitudeDoesNotConvert); }
    r := Ok(ValidateLatitude(lat));
  }

  method CheckLongitude(lng: Coordinate) returns (r: Result<Option<Issue>, Fault>)
    ensures r == if Converts(lng) then Ok(ValidateLongitude(lng)) else Err(LongitudeDoesNotConvert)
  {
    if lng.Object? && "toString" in lng.names { return Err(LongitudeDoesNotConvert); }
    r := Ok(ValidateLongitude(lng));
  }

  /** `toUpperCase` is called on whatever is truthy and has length 3. */
  method CheckCurrency(currency: TextValue) returns (r: Result<Option<Issue>, Fault>)
    ensures r == if HasLengthThree(currency) && !currency.Words? then Err(CurrencyIsNoText) else Ok(ValidateCurrency(currency))
  {
    if !IsTruthy(currency) || !HasLengthThree(currency) { return Ok(Some(WRONG_FORMAT)); }
    if !currency.Words? { return Err(CurrencyIsNoText); }
    r := Ok(ValidateCurrency(currency));
  }

  /** `trim` is called on whatever is there. */
  method CheckName(name: TextValue) returns (r: Result<Option<Issue>, Fault>)
    ensures r == if name.Words? then Ok(ValidateName(name)) else Err(NameIsNoText)
  {
    if !name.Words? { return Err(NameIsNoText); }
    r := Ok(if |Trim(name.text)| == 0 then Some(EMPTY_NAME) else None);
  }

  /** The four checks in turn; the first exception ends them. */
  method ValidateEnrichmentOutput(output: Output) returns (r: Result<ValidationResult, Fault>)
    ensures r == if ValidationFault(output).Some? then Err(ValidationFault(output).value) else Ok(Verdict(Issues(output)))
  {
    hide ValidateLatitude, ValidateLongitude, ValidateCurrency, ValidateName, Filter, TotalWeight, Max, IS_SERIOUS;
    hide Converts, HasLengthThree;
    var issues: seq<Issue> := [];
    if output.latitude.Given? {
      var check := CheckLatitude(output.latitude.value);
      if check.Err? { return Err(check.error); }
      issues := issues + ToSeq(check.value);
    }
    assert issues == LatitudeIssue(output);
    if output.longitude.Given? {
      var check := CheckLongitude(output.longitude.value);
      if check.Err? { return Err(check.error); }
      issues := issues + ToSeq(check.value);
    }
    assert issues == LatitudeIssue(output) + LongitudeIssue(output);
    if output.currency.Given? {
      var check := CheckCurrency(output.currency.value);
      if check.Err? { return Err(check.error); }
      issues := issues + ToSeq(check.value);
    }
    assert issues == LatitudeIssue(output) + LongitudeIssue(output) + CurrencyIssue(output);
    if output.normalizedAssetName.Given? {
      var check := CheckName(output.normalizedAssetName.value);
      if check.Err? { return Err(check.error); }
      issues := issues + ToSeq(check.value);
    }
    assert issues == Issues(output);
    var confidencePenalty := CalculateValidationPenalty(issues);
    r := Ok(ValidationResult(Filter(IS_SERIOUS, issues) == [], issues, confidencePenalty));
  }

  // ----- what the verdict means -----

  predicate InRange(p: Property<Coordinate>, bound: real) {
    p.Given? ==> p.value.Plain? && p.value.reading.Finite? && -bound <= p.value.reading.value <= bound
  }

  predicate Precise(p: Property<Coordinate>) {
    p.Given? && p.value.Plain? && p.value.reading.Finite? ==> DecimalPlaces(p.value.printed) <= MAX_COORDINATE_PRECISION
  }

  predicate Listed(p: Property<TextValue>) {
    p.Given? && p.value.Words? ==> Upper(p.value.text) in VALID_CURRENCIES
  }

  predicate Named(p: Property<TextValue>) {
    p.Given? && p.value.Words? ==> !Blank(p.value.text)
  }

  lemma SeriousOf(issue: Option<Issue>)
    ensures Filter(IS_SERIOUS, ToSeq(issue)) == [] <==> issue.None? || !IS_SERIOUS(issue.value)
  {
    if issue.Some? {
      assert [issue.value][1..] == [];
    }
  }

  lemma CoordinateIssues(output: Output)
    ensures Filter(IS_SERIOUS, LatitudeIssue(output)) == [] <==> InRange(output.latitude, 90.0)
    ensures LatitudeIssue(output) == [] <==> InRange(output.latitude, 90.0) && Precise(output.latitude)
    ensures Filter(IS_SERIOUS, LongitudeIssue(output)) == [] <==> InRange(output.longitude, 180.0)
    ensures LongitudeIssue(output) == [] <==> InRange(output.longitude, 180.0) && Precise(output.longitude)
  {
    hide Filter;
    SeriousOf(None);
    if output.latitude.Given? { SeriousOf(ValidateLatitude(output.latitude.value)); }
    if output.longitude.Given? { SeriousOf(ValidateLongitude(output.longitude.value)); }
  }

  lemma TextIssues(output: Output)
    ensures Filter(IS_SERIOUS, CurrencyIssue(output)) == [] <==> (output.currency.Given? ==> HasLengthThree(output.currency.value))
    ensures CurrencyIssue(output) == [] <==>
      (output.currency.Given? ==> HasLengthThree(output.currency.value)) && Listed(output.currency)
    ensures Filter(IS_SERIOUS, NameIssue(output)) == [] <==> NameIssue(output) == []
    ensures NameIssue(output) == [] <==> Named(output.normalizedAssetName)
  {
    hide Filter, Blank, Upper;
    SeriousOf(None);
    if output.currency.Given? { SeriousOf(ValidateCurrency(output.currency.value)); }
    if output.normalizedAssetName.Given? { SeriousOf(ValidateName(output.normalizedAssetName.value)); }
  }

  /** An output on which the validator does not throw is valid exactly when each coordinate it gives
      is a finite number in range, its currency has length three and its name is not blank; it has
      no issue at all exactly when moreover no coordinate has over six decimals and the currency is
      on the list. */
  lemma ValidIff(output: Output)
    ensures var r := Verdict(Issues(output));
      && (r.valid <==>
          && InRange(output.latitude, 90.0) && InRange(output.longitude, 180.0)
          && (output.currency.Given? ==> HasLengthThree(output.currency.value))
          && Named(output.normalizedAssetName))
      && (r.issues == [] <==> r.valid && Precise(output.latitude) && Precise(output.longitude) && Listed(output.currency))
  {
    hide LatitudeIssue, LongitudeIssue, CurrencyIssue, NameIssue, Filter, TotalWeight, InRange, Precise, Listed, Named;
    var a, b, c, d := LatitudeIssue(output), LongitudeIssue(output), CurrencyIssue(output), NameIssue(output);
    FilterAppend(IS_SERIOUS, a + b + c, d);
    FilterAppend(IS_SERIOUS, a + b, c);
    FilterAppend(IS_SERIOUS, a, b);
    CoordinateIssues(output);
    TextIssues(output);
  }

  // ----- calculateConfidence -----

  datatype FactorKind =
    | ExactColumnMapping | PartialColumnMapping | DeterministicParse | LlmInferenceRequired
    | MissingFields | ValidationIssue | ValidationFailed | ReviewEscalationTriggered

  datatype Factor = Factor(kind: FactorKind, score: real, reason: string)

  datatype FieldConfidence = FieldConfidence(
    assetName: real, currency: real, assetType: real, jurisdiction: real, coordinates: real)

  datatype Confidence = Confidence(
    fieldConfidence: FieldConfidence, overall: real, explanation: string, factors: seq<Factor>)

  function One(b: bool): nat { if b then 1 else 0 }

  predicate BothMapped(fields: FieldMapping) { IsMapped(fields, Latitude) && IsMapped(fields, Longitude) }

  function TotalFields(fields: FieldMapping): nat {
    One(IsMapped(fields, AssetName)) + One(IsMapped(fields, ValueField)) + One(IsMapped(fields, Currency))
    + One(IsMapped(fields, Jurisdiction)) + One(BothMapped(fields))
  }

  /** As in the source, a mapped value column is judged by the currency. */
  function MappedFields(output: Output, fields: FieldMapping): nat {
    One(IsMapped(fields, AssetName) && IsFilled(output.normalizedAssetName))
    + One(IsMapped(fields, ValueField) && IsFilled(output.currency))
    + One(IsMapped(fields, Currency) && IsFilled(output.currency))
    + One(IsMapped(fields, Jurisdiction) && IsFilled(output.jurisdiction))
    + One(BothMapped(fields) && !output.latitude.Undefined? && !output.longitude.Undefined?)
  }

  function Ratio(part: nat, whole: nat): real
    requires whole > 0
  {
    part as real / whole as real
  }

  function MappingFactor(mappedFields: nat, totalFields: nat): (r: Option<Factor>)
    ensures r.Some? ==> r.value.kind == ExactColumnMapping || r.value.kind == PartialColumnMapping
  {
    if totalFields == 0 then None
    else
      var ratio := Ratio(mappedFields, totalFields);
      var share := Decimal(mappedFields) + "/" + Decimal(totalFields);
      if ratio >= 0.8 then Some(Factor(ExactColumnMapping, 0.3, share + " fields mapped via exact column match"))
      else if ratio >= 0.5 then Some(Factor(PartialColumnMapping, 0.1, share + " fields mapped via column match"))
      else None
  }

  function MappingScore(output: Output, fields: FieldMapping): (r: Option<Factor>)
    ensures r.Some? ==> r.value.kind == ExactColumnMapping || r.value.kind == PartialColumnMapping
  {
    MappingFactor(MappedFields(output, fields), TotalFields(fields))
  }

  method CalculateExactColumnMappingScore(output: Output, fields: FieldMapping) returns (r: Option<Factor>)
    ensures r == MappingScore(output, fields)
  {
    hide IsMapped, IsFilled, MappingFactor;
    var mappedFields, totalFields: nat := 0, 0;
    if IsMapped(fields, AssetName) {
      totalFields := totalFields + 1;
      if IsFilled(output.normalizedAssetName) { mappedFields := mappedFields + 1; }
    }
    if IsMapped(fields, ValueField) {
      totalFields := totalFields + 1;
      if IsFilled(output.currency) { mappedFields := mappedFields + 1; }
    }
    if IsMapped(fields, Currency) {
      totalFields := totalFields + 1;
      if IsFilled(output.currency) { mappedFields := mappedFields + 1; }
    }
    if IsMapped(fields, Jurisdiction) {
      totalFields := totalFields + 1;
      if IsFilled(output.jurisdiction) { mappedFields := mappedFields + 1; }
    }
    if IsMapped(fields, Latitude) && IsMapped(fields, Longitude) {
      totalFields := totalFields + 1;
      if !output.latitude.Undefined? && !output.longitude.Undefined? { mappedFields := mappedFields + 1; }
    }
    r := MappingFactor(mappedFields, totalFields);
  }

  function DeterministicScore(output: Output): (r: Option<Factor>)
    ensures r.Some? ==> r.value.kind == DeterministicParse
  {
    if SignalsOf(output).exactValueMatch then
      Some(Factor(DeterministicParse, 0.2, "Values matched exactly without inference"))
    else None
  }

  function InferenceFactor(inferenceCount: nat, totalSignals: nat): Option<Factor> {
    if totalSignals == 0 then None
    else if Ratio(inferenceCount, totalSignals) >= 0.5 then
      Some(Factor(LlmInferenceRequired, -0.2,
                  Decimal(inferenceCount) + "/" + Decimal(totalSignals) + " fields required LLM inference"))
    else None
  }

  function InferenceScore(signals: Signals): (r: Option<Factor>)
    ensures r.Some? ==> r.value.kind == LlmInferenceRequired
  {
    var totalSignals :=
      One(signals.currencyInferred.Some?) + One(signals.assetTypeInferred.Some?)
      + One(signals.jurisdictionInferred.Some?) + One(signals.coordinatesInferred.Some?);
    var inferenceCount :=
      One(signals.currencyInferred == Some(true)) + One(signals.assetTypeInferred == Some(true))
      + One(signals.jurisdictionInferred == Some(true)) + One(signals.coordinatesInferred == Some(true));
    InferenceFactor(inferenceCount, totalSignals)
  }

  method CalculateInferenceScore(signals: Signals) returns (r: Option<Factor>)
    ensures r == InferenceScore(signals)
  {
    hide InferenceFactor;
    var inferenceCount, totalSignals: nat := 0, 0;
    if signals.currencyInferred.Some? {
      totalSignals := totalSignals + 1;
      if signals.currencyInferred.value { inferenceCount := inferenceCount + 1; }
    }
    if signals.assetTypeInferred.Some? {
      totalSignals := totalSignals + 1;
      if signals.assetTypeInferred.value { inferenceCount := inferenceCount + 1; }
    }
    if signals.jurisdictionInferred.Some? {
      totalSignals := totalSignals + 1;
      if signals.jurisdictionInferred.value { inferenceCount := inferenceCount + 1; }
    }
    if signals.coordinatesInferred.Some? {
      totalSignals := totalSignals + 1;
      if signals.coordinatesInferred.value { inferenceCount := inferenceCount + 1; }
    }
    r := InferenceFactor(inferenceCount, totalSignals);
  }

  predicate HasAllExpectedFields(output: Output, fields: FieldMapping) {
    && (IsMapped(fields, AssetName) ==> !output.normalizedAssetName.Undefined?)
    && (IsMapped(fields, Currency) ==> !output.currency.Undefined?)
    && (IsMapped(fields, Jurisdiction) ==> !output.jurisdiction.Undefined?)
  }

  function MissingFieldScore(output: Output, fields: FieldMapping): (r: Option<Factor>)
    ensures r.Some? ==> r.value.kind == MissingFields
  {
    if !HasAllExpectedFields(output, fields) || SignalsOf(output).fieldMissing then
      Some(Factor(MissingFields, -0.3, "Expected fields are missing or could not be inferred"))
    else None
  }

  function ValidationScore(v: ValidationResult): (r: Option<Factor>)
    ensures r.Some? ==> r.value.kind == ValidationIssue || r.value.kind == ValidationFailed
  {
    if v.confidencePenalty != 0.0 then
      Some(Factor(ValidationIssue, v.confidencePenalty,
                  "Validation issues detected: " + Decimal(|v.issues|) + " issues"))
    else if !v.valid then Some(Factor(ValidationFailed, -0.2, "Validation failed for one or more fields"))
    else None
  }

  function ReviewScore(output: Output): (r: Option<Factor>)
    ensures r.Some? ==> r.value.kind == ReviewEscalationTriggered
  {
    if output.needsReview then Some(Factor(ReviewEscalationTriggered, -0.3, "LLM marked this row for human review"))
    else None
  }

  function Scores(factors: seq<Factor>): real {
    if factors == [] then 0.0 else Scores(factors[..|factors| - 1]) + factors[|factors| - 1].score
  }

  function Clamp(x: real): (r: real)
    ensures 0.0 <= r <= 1.0
  {
    Max(0.0, Min(1.0, x))
  }

  /** How sure a single field is: filled and not inferred, filled but inferred, or not filled. */
  function Sureness(p: Property<TextValue>, inferred: Option<bool>): real {
    if !IsFilled(p) then 0.3 else if inferred == Some(true) then 0.7 else 0.9
  }

  function FieldConfidenceOf(output: Output): FieldConfidence {
    var signals := SignalsOf(output);
    FieldConfidence(
      if IsFilled(output.normalizedAssetName) then 0.9 else 0.3,
      Sureness(output.currency, signals.currencyInferred),
      Sureness(output.assetType, signals.assetTypeInferred),
      Sureness(output.jurisdiction, signals.jurisdictionInferred),
      if output.latitude.Given? && IsNonZero(output.latitude.value)
         && output.longitude.Given? && IsNonZero(output.longitude.value) then 0.9 else 0.3)
  }

  /** The nearest whole number of percent. */
  function Percent(score: real): nat
    requires score >= 0.0
  {
    (100.0 * score + 0.5).Floor
  }

  function ReasonsOf(factors: seq<Factor>): seq<string> {
    seq(|factors|, i requires 0 <= i < |factors| => factors[i].reason)
  }

  function JoinReasons(factors: seq<Factor>): string { Join(ReasonsOf(factors), "; ") }

  function GenerateConfidenceExplanation(factors: seq<Factor>, score: real): string
    requires score >= 0.0
  {
    var positive, negative := Filter((f: Factor) => f.score > 0.0, factors), Filter((f: Factor) => f.score < 0.0, factors);
    "Overall confidence: " + Decimal(Percent(score)) + "%. "
    + (if positive != [] then "Positive signals: " + JoinReasons(positive) + ". " else "")
    + (if negative != [] then "Negative signals: " + JoinReasons(negative) + "." else "")
  }

  /** Each component adds its factor, if any, to the list and the factor's score to the sum. */
  method Accumulate(component: Option<Factor>, score: real, factors: seq<Factor>)
    returns (newScore: real, newFactors: seq<Factor>)
    requires score == 0.5 + Scores(factors)
    ensures newFactors == factors + ToSeq(component)
    ensures newScore == 0.5 + Scores(newFactors)
  {
    newScore, newFactors := score, factors;
    if component.Some? {
      newScore := score + component.value.score;
      newFactors := factors + [component.value];
      assert newFactors[..|factors|] == factors;
    }
  }

  function Factors(output: Output, validation: ValidationResult, fields: FieldMapping): seq<Factor> {
    ToSeq(MappingScore(output, fields)) + ToSeq(DeterministicScore(output)) + ToSeq(InferenceScore(SignalsOf(output)))
    + ToSeq(MissingFieldScore(output, fields)) + ToSeq(ValidationScore(validation)) + ToSeq(ReviewScore(output))
  }

  lemma NoScores()
    ensures Scores([]) == 0.0
  {
  }

  function Scored(output: Output, validation: ValidationResult, fields: FieldMapping): Confidence {
    var factors := Factors(output, validation, fields);
    var overall := Clamp(0.5 + Scores(factors));
    Confidence(FieldConfidenceOf(output), overall, GenerateConfidenceExplanation(factors, overall), factors)
  }

  /** The overall confidence is one half plus the scores of the reported factors, kept in [0, 1];
      without signals the second component throws. */
  method CalculateConfidence(output: Output, validation: ValidationResult, fields: FieldMapping)
    returns (r: Result<Confidence, Fault>)
    ensures !output.confidenceSignals.Given? ==> r == Err(NoSignals)
    ensures output.confidenceSignals.Given? ==> r == Ok(Scored(output, validation, fields))
    ensures r.Ok? ==> r.value.factors == Factors(output, validation, fields)
    ensures r.Ok? ==> r.value.overall == Clamp(0.5 + Scores(r.value.factors))
  {
    hide MappingScore, DeterministicScore, InferenceScore, MissingFieldScore, ValidationScore, ReviewScore, ToSeq, Scores;
    hide FieldConfidenceOf, GenerateConfidenceExplanation;
    var score, factors := 0.5, [];
    NoScores();
    var exactMappingScore := CalculateExactColumnMappingScore(output, fields);
    score, factors := Accumulate(exactMappingScore, score, factors);
    assert factors == ToSeq(exactMappingScore);
    if !output.confidenceSignals.Given? { return Err(NoSignals); }
    score, factors := Accumulate(DeterministicScore(output), score, factors);
    var inferenceScore := CalculateInferenceScore(output.confidenceSignals.value);
    score, factors := Accumulate(inferenceScore, score, factors);
    score, factors := Accumulate(MissingFieldScore(output, fields), score, factors);
    score, factors := Accumulate(ValidationScore(validation), score, factors);
    score, factors := Accumulate(ReviewScore(output), score, factors);
    assert factors == Factors(output, validation, fields);
    var finalScore := Clamp(score);
    r := Ok(Confidence(FieldConfidenceOf(output), finalScore, GenerateConfidenceExplanation(factors, finalScore), factors));
  }

  /** The first exception of validating and scoring an output. */
  function FaultOf(output: Output): Option<Fault> {
    if ValidationFault(output).Some? then ValidationFault(output)
    else if !output.confidenceSignals.Given? then Some(NoSignals)
    else None
  }

  /** The signals are neither absent nor null, a name that is given is a text, so is a currency of
      length 3, and no coordinate is an object that hides its conversion. */
  predicate Scorable(output: Output) {
    && output.confidenceSignals.Given?
    && (output.normalizedAssetName.Given? ==> output.normalizedAssetName.value.Words?)
    && (output.currency.Given? && HasLengthThree(output.currency.value) ==> output.currency.value.Words?)
    && (output.latitude.Given? ==> Converts(output.latitude.value))
    && (output.longitude.Given? ==> Converts(output.longitude.value))
  }

  lemma ScorableIff(output: Output)
    ensures FaultOf(output).None? <==> Scorable(output)
  {
  }

  // ----- what the score means -----

  function ScoreOf(f: Option<Factor>): real { if f.Some? then f.value.score else 0.0 }

  /** The sum of the six component scores. */
  function Total(output: Output, validation: ValidationResult, fields: FieldMapping): real {
    ScoreOf(MappingScore(output, fields)) + ScoreOf(DeterministicScore(output))
    + ScoreOf(InferenceScore(SignalsOf(output))) + ScoreOf(MissingFieldScore(output, fields))
    + ScoreOf(ValidationScore(validation)) + ScoreOf(ReviewScore(output))
  }

  lemma ScoresPush(factors: seq<Factor>, f: Option<Factor>)
    ensures Scores(factors + ToSeq(f)) == Scores(factors) + ScoreOf(f)
  {
    if f.Some? {
      assert (factors + [f.value])[..|factors|] == factors;
    } else {
      assert factors + [] == factors;
    }
  }

  lemma ScoresAreTotal(output: Output, validation: ValidationResult, fields: FieldMapping)
    ensures Scores(Factors(output, validation, fields)) == Total(output, validation, fields)
  {
    hide MappingScore, DeterministicScore, InferenceScore, MissingFieldScore, ValidationScore, ReviewScore, ToSeq, ScoreOf, Scores;
    var a, b, c := MappingScore(output, fields), DeterministicScore(output), InferenceScore(SignalsOf(output));
    var d, e, f := MissingFieldScore(output, fields), ValidationScore(validation), ReviewScore(output);
    NoScores();
    ScoresPush([], a);
    assert [] + ToSeq(a) == ToSeq(a);
    ScoresPush(ToSeq(a), b);
    ScoresPush(ToSeq(a) + ToSeq(b), c);
    ScoresPush(ToSeq(a) + ToSeq(b) + ToSeq(c), d);
    ScoresPush(ToSeq(a) + ToSeq(b) + ToSeq(c) + ToSeq(d), e);
    ScoresPush(ToSeq(a) + ToSeq(b) + ToSeq(c) + ToSeq(d) + ToSeq(e), f);
  }

  lemma {:induction false} TotalWeightAppend(a: seq<Issue>, b: seq<Issue>)
    ensures TotalWeight(a + b) == TotalWeight(a) + TotalWeight(b)
  {
    if b == [] {
      assert a + b == a;
    } else {
      assert (a + b)[..|a + b| - 1] == a + b[..|b| - 1];
      TotalWeightAppend(a, b[..|b| - 1]);
    }
  }

  /** For a result of the validator the validation component is the penalty, whatever its size. */
  lemma ValidationScoreIsPenalty(issues: seq<Issue>)
    ensures ScoreOf(ValidationScore(Verdict(issues))) == Max(-TotalWeight(issues), -1.0)
    ensures ValidationScore(Verdict(issues)).None? <==> issues == []
  {
    if issues == [] {
      assert Filter(IS_SERIOUS, issues) == [];
    }
  }

  /** The overall confidence of an output with these issues, component by component. */
  lemma OverallIs(output: Output, issues: seq<Issue>, fields: FieldMapping)
    ensures Scored(output, Verdict(issues), fields).overall
         == Clamp(0.5 + ScoreOf(MappingScore(output, fields)) + ScoreOf(DeterministicScore(output))
                  + ScoreOf(InferenceScore(SignalsOf(output))) + ScoreOf(MissingFieldScore(output, fields))
                  + Max(-TotalWeight(issues), -1.0) + ScoreOf(ReviewScore(output)))
  {
    hide MappingScore, DeterministicScore, InferenceScore, MissingFieldScore, ValidationScore, ReviewScore, Scores, Factors;
    hide TotalWeight, Filter, ScoreOf;
    ScoresAreTotal(output, Verdict(issues), fields);
    ValidationScoreIsPenalty(issues);
  }

  lemma FactorsMember(output: Output, validation: ValidationResult, fields: FieldMapping, f: Factor)
    requires f in Factors(output, validation, fields)
    ensures || f in ToSeq(MappingScore(output, fields)) || f in ToSeq(DeterministicScore(output))
            || f in ToSeq(InferenceScore(SignalsOf(output))) || f in ToSeq(MissingFieldScore(output, fields))
            || f in ToSeq(ValidationScore(validation)) || f in ToSeq(ReviewScore(output))
  {
    hide ToSeq, MappingScore, DeterministicScore, InferenceScore, MissingFieldScore, ValidationScore, ReviewScore;
  }

  /** Hence the fallback for an invalid result without a penalty never reports its factor. */
  lemma ValidationFailedNeverArises(output: Output, issues: seq<Issue>, fields: FieldMapping)
    ensures forall f :: f in Factors(output, Verdict(issues), fields) ==> f.kind != ValidationFailed
  {
    hide Factors, TotalWeight, Filter, MappingScore, DeterministicScore, InferenceScore, MissingFieldScore, ReviewScore;
    ValidationScoreIsPenalty(issues);
    assert ValidationScore(Verdict(issues)) == None || ValidationScore(Verdict(issues)).value.kind == ValidationIssue;
    forall f | f in Factors(output, Verdict(issues), fields) ensures f.kind != ValidationFailed {
      FactorsMember(output, Verdict(issues), fields, f);
    }
  }

  /** Adding issues, anywhere in the list, never raises the confidence. */
  lemma AddingIssuesNeverRaisesConfidence(
    output: Output, fields: FieldMapping, before: seq<Issue>, added: seq<Issue>, after: seq<Issue>)
    ensures Scored(output, Verdict(before + added + after), fields).overall
         <= Scored(output, Verdict(before + after), fields).overall
  {
    hide MappingScore, DeterministicScore, InferenceScore, MissingFieldScore, ValidationScore, ReviewScore, Scores, Factors;
    hide TotalWeight, Filter;
    ScoresAreTotal(output, Verdict(before + added + after), fields);
    ScoresAreTotal(output, Verdict(before + after), fields);
    ValidationScoreIsPenalty(before + added + after);
    ValidationScoreIsPenalty(before + after);
    TotalWeightAppend(before + added, after);
    TotalWeightAppend(before, added);
    TotalWeightAppend(before, after);
  }

  lemma ComponentBounds(output: Output, fields: FieldMapping)
    ensures ScoreOf(MappingScore(output, fields)) in {0.0, 0.1, 0.3}
    ensures ScoreOf(DeterministicScore(output)) in {0.0, 0.2}
    ensures ScoreOf(InferenceScore(SignalsOf(output))) in {0.0, -0.2}
    ensures ScoreOf(MissingFieldScore(output, fields)) in {0.0, -0.3}
    ensures ScoreOf(ReviewScore(output)) in {0.0, -0.3}
  {
  }

  lemma {:induction false} WeightOfMember(issues: seq<Issue>)
    requires exists i :: 0 <= i < |issues| && issues[i].severity == Critical
    ensures TotalWeight(issues) >= 0.4
  {
    var i :| 0 <= i < |issues| && issues[i].severity == Critical;
    if i < |issues| - 1 {
      var front := issues[..|issues| - 1];
      assert front[i].severity == Critical;
      WeightOfMember(front);
    }
  }

  /** A critical issue keeps the confidence at 0.6 or below, however good everything else is. */
  lemma CriticalForcesReview(output: Output, issues: seq<Issue>, fields: FieldMapping)
    requires exists i :: 0 <= i < |issues| && issues[i].severity == Critical
    ensures Scored(output, Verdict(issues), fields).overall <= 0.6 < CONFIDENCE_THRESHOLD
  {
    hide MappingScore, DeterministicScore, InferenceScore, MissingFieldScore, ValidationScore, ReviewScore, Scores, Factors;
    ScoresAreTotal(output, Verdict(issues), fields);
    ValidationScoreIsPenalty(issues);
    ComponentBounds(output, fields);
    WeightOfMember(issues);
  }

  predicate Tenths(x: real) { (10.0 * x).Floor as real == 10.0 * x }

  lemma WeightIsTenths(s: Severity)
    ensures Tenths(Weight(s)) && Tenths(0.0)
  {
  }

  lemma TenthsAdd(x: real, y: real)
    requires Tenths(x) && Tenths(y)
    ensures Tenths(x + y)
  {
    assert 10.0 * (x + y) == ((10.0 * x).Floor + (10.0 * y).Floor) as real;
  }

  lemma {:induction false} WeightsAreTenths(issues: seq<Issue>)
    ensures Tenths(TotalWeight(issues))
  {
    hide Tenths;
    WeightIsTenths(Low);
    if issues != [] {
      WeightsAreTenths(issues[..|issues| - 1]);
      WeightIsTenths(issues[|issues| - 1].severity);
      TenthsAdd(TotalWeight(issues[..|issues| - 1]), Weight(issues[|issues| - 1].severity));
    }
  }

  lemma TenthsOfTotal(output: Output, validation: ValidationResult, fields: FieldMapping)
    requires Tenths(ScoreOf(ValidationScore(validation)))
    ensures Tenths(0.5 + Total(output, validation, fields))
  {
    hide MappingScore, DeterministicScore, InferenceScore, MissingFieldScore, ValidationScore, ReviewScore;
    ComponentBounds(output, fields);
    var a, b := ScoreOf(MappingScore(output, fields)), ScoreOf(DeterministicScore(output));
    var c, d := ScoreOf(InferenceScore(SignalsOf(output))), ScoreOf(MissingFieldScore(output, fields));
    var e, f := ScoreOf(ValidationScore(validation)), ScoreOf(ReviewScore(output));
    assert Tenths(a) && Tenths(b) && Tenths(c) && Tenths(d) && Tenths(f);
    TenthsAdd(a, b);
    TenthsAdd(a + b, c);
    TenthsAdd(a + b + c, d);
    TenthsAdd(a + b + c + d, e);
    TenthsAdd(a + b + c + d + e, f);
    TenthsAdd(0.5, a + b + c + d + e + f);
  }

  lemma ClampKeepsTenths(x: real)
    requires Tenths(x)
    ensures Tenths(Clamp(x)) && (Clamp(x) <= 0.6 || Clamp(x) >= 0.7)
  {
  }

  lemma TenthsNegate(x: real)
    requires Tenths(x)
    ensures Tenths(-x) && Tenths(-1.0)
  {
    assert 10.0 * -x == (-(10.0 * x).Floor) as real;
  }

  lemma PenaltyIsTenths(issues: seq<Issue>)
    ensures Tenths(ScoreOf(ValidationScore(Verdict(issues))))
  {
    hide ValidationScore, ScoreOf, Verdict, TotalWeight, Tenths;
    ValidationScoreIsPenalty(issues);
    WeightsAreTenths(issues);
    TenthsNegate(TotalWeight(issues));
  }

  /** Every confidence is a multiple of a tenth, so none lies within 0.05 of the threshold. */
  lemma ScoresAreTenths(output: Output, issues: seq<Issue>, fields: FieldMapping)
    ensures Tenths(Scored(output, Verdict(issues), fields).overall)
    ensures var overall := Scored(output, Verdict(issues), fields).overall; overall <= 0.6 || overall >= 0.7
  {
    hide Total, Scores, Factors, Verdict, Tenths, Clamp, FieldConfidenceOf, GenerateConfidenceExplanation;
    var v := Verdict(issues);
    ScoresAreTotal(output, v, fields);
    PenaltyIsTenths(issues);
    TenthsOfTotal(output, v, fields);
    ClampKeepsTenths(0.5 + Total(output, v, fields));
  }
}
