/** Escalation to human review: which rules hold for a row, and the priority they give it. */
module LlmReview {
  import opened EnrichmentTypes
  import opened LlmValidation
  import opened Options
  import opened ScoreMeaning
  import opened Sequences
  import opened Strings

  const VALIDATION_THRESHOLD: nat := 2

  datatype Reason =
    | LowConfidence | SeriousIssues | MultipleIssues | InvalidCoordinates
    | InvalidCurrency | DeterministicValidationFailed | MultipleInferences

  datatype Escalation = Escalation(shouldEscalate: bool, reasons: seq<Reason>, priority: nat)

  /** The codes whose text contains LATITUDE or LONGITUDE. */
  const IS_COORDINATE_ISSUE: Issue -> bool := (i: Issue) =>
    i.code in {INVALID_LATITUDE, LATITUDE_OUT_OF_RANGE, INVALID_LONGITUDE, LONGITUDE_OUT_OF_RANGE}

  /** The codes whose text contains CURRENCY. */
  const IS_CURRENCY_ISSUE: Issue -> bool := (i: Issue) => i.code in {INVALID_CURRENCY_FORMAT, UNKNOWN_CURRENCY}

  const IS_INFERENCE: Factor -> bool := (f: Factor) => f.kind == LlmInferenceRequired

  function PriorityOf(reason: Reason): nat {
    match reason
    case SeriousIssues => 3
    case LowConfidence => 2
    case MultipleIssues => 2
    case InvalidCoordinates => 2
    case DeterministicValidationFailed => 2
    case InvalidCurrency => 1
    case MultipleInferences => 1
  }

  function Highest(reasons: seq<Reason>): nat {
    if reasons == [] then 0
    else
      var before, last := Highest(reasons[..|reasons| - 1]), PriorityOf(reasons[|reasons| - 1]);
      if before >= last then before else last
  }

  predicate Holds(reason: Reason, confidence: Confidence, validation: ValidationResult) {
    match reason
    case LowConfidence => confidence.overall < CONFIDENCE_THRESHOLD
    case SeriousIssues => Filter(IS_SERIOUS, validation.issues) != []
    case MultipleIssues => |validation.issues| >= VALIDATION_THRESHOLD
    case InvalidCoordinates => Filter(IS_COORDINATE_ISSUE, validation.issues) != []
    case InvalidCurrency => Filter(IS_CURRENCY_ISSUE, validation.issues) != []
    case DeterministicValidationFailed => !validation.valid
    case MultipleInferences => |Filter(IS_INFERENCE, confidence.factors)| >= 2
  }

  function If(condition: bool, reason: Reason): seq<Reason> {
    if condition then [reason] else []
  }

  function Reasons(c: Confidence, v: ValidationResult): seq<Reason> {
    [] + If(Holds(LowConfidence, c, v), LowConfidence) + If(Holds(SeriousIssues, c, v), SeriousIssues)
    + If(Holds(MultipleIssues, c, v), MultipleIssues) + If(Holds(InvalidCoordinates, c, v), InvalidCoordinates)
    + If(Holds(InvalidCurrency, c, v), InvalidCurrency)
    + If(Holds(DeterministicValidationFailed, c, v), DeterministicValidationFailed)
    + If(Holds(MultipleInferences, c, v), MultipleInferences)
  }

  function Escalated(c: Confidence, v: ValidationResult): Escalation {
    Escalation(Reasons(c, v) != [], Reasons(c, v), Highest(Reasons(c, v)))
  }

  /** The step each rule performs when its condition holds. */
  method Raise(condition: bool, reason: Reason, reasons: seq<Reason>, priority: nat)
    returns (newReasons: seq<Reason>, newPriority: nat)
    requires priority == Highest(reasons)
    ensures newReasons == reasons + If(condition, reason)
    ensures newPriority == Highest(newReasons)
  {
    newReasons, newPriority := reasons, priority;
    if condition {
      newReasons := reasons + [reason];
      assert newReasons[..|reasons|] == reasons;
      newPriority := if priority >= PriorityOf(reason) then priority else PriorityOf(reason);
    }
  }

  lemma NoReasons()
    ensures Highest([]) == 0
  {
  }

  method ShouldEscalate(confidence: Confidence, validation: ValidationResult) returns (r: Escalation)
    ensures r == Escalated(confidence, validation)
  {
    hide Highest, PriorityOf, Filter, If;
    var reasons: seq<Reason>, priority: nat := [], 0;
    NoReasons();
    reasons, priority := Raise(confidence.overall < CONFIDENCE_THRESHOLD, LowConfidence, reasons, priority);
    reasons, priority := Raise(Filter(IS_SERIOUS, validation.issues) != [], SeriousIssues, reasons, priority);
    reasons, priority := Raise(|validation.issues| >= VALIDATION_THRESHOLD, MultipleIssues, reasons, priority);
    reasons, priority := Raise(Filter(IS_COORDINATE_ISSUE, validation.issues) != [], InvalidCoordinates, reasons, priority);
    reasons, priority := Raise(Filter(IS_CURRENCY_ISSUE, validation.issues) != [], InvalidCurrency, reasons, priority);
    reasons, priority := Raise(!validation.valid, DeterministicValidationFailed, reasons, priority);
    reasons, priority := Raise(|Filter(IS_INFERENCE, confidence.factors)| >= 2, MultipleInferences, reasons, priority);
    if |reasons| == 0 { NoReasons(); return Escalation(false, [], 0); }
    r := Escalation(true, reasons, priority);
  }

  lemma {:induction false} HighestIsMaximum(reasons: seq<Reason>)
    ensures forall reason :: reason in reasons ==> PriorityOf(reason) <= Highest(reasons)
    ensures reasons != [] ==> exists reason :: reason in reasons && PriorityOf(reason) == Highest(reasons)
    ensures reasons == [] ==> Highest(reasons) == 0
  {
    hide PriorityOf;
    if reasons != [] {
      var front, last := reasons[..|reasons| - 1], reasons[|reasons| - 1];
      HighestIsMaximum(front);
      assert reasons == front + [last] && last in reasons;
    }
  }

  lemma InIf(condition: bool, given: Reason, reason: Reason)
    ensures reason in If(condition, given) <==> condition && reason == given
  {
  }

  lemma ReasonsMember(c: Confidence, v: ValidationResult, reason: Reason)
    ensures reason in Reasons(c, v) <==> Holds(reason, c, v)
  {
    hide Holds, If;
    InIf(Holds(LowConfidence, c, v), LowConfidence, reason);
    InIf(Holds(SeriousIssues, c, v), SeriousIssues, reason);
    InIf(Holds(MultipleIssues, c, v), MultipleIssues, reason);
    InIf(Holds(InvalidCoordinates, c, v), InvalidCoordinates, reason);
    InIf(Holds(InvalidCurrency, c, v), InvalidCurrency, reason);
    InIf(Holds(DeterministicValidationFailed, c, v), DeterministicValidationFailed, reason);
    InIf(Holds(MultipleInferences, c, v), MultipleInferences, reason);
  }

  /** Exactly the rules whose condition holds are given as reasons, any of them escalates, and
      the priority is the highest among theirs. */
  lemma EscalationMeans(c: Confidence, v: ValidationResult)
    ensures var r := Escalated(c, v);
      && (forall reason :: reason in r.reasons <==> Holds(reason, c, v))
      && (r.shouldEscalate <==> exists reason :: Holds(reason, c, v))
      && (forall reason :: Holds(reason, c, v) ==> PriorityOf(reason) <= r.priority)
      && (r.shouldEscalate ==> exists reason :: Holds(reason, c, v) && PriorityOf(reason) == r.priority)
      && (!r.shouldEscalate ==> r.priority == 0)
  {
    hide Holds, Highest, PriorityOf;
    var reasons := Reasons(c, v);
    forall reason ensures reason in reasons <==> Holds(reason, c, v) {
      ReasonsMember(c, v, reason);
    }
    HighestIsMaximum(reasons);
    if reasons != [] {
      assert reasons[0] in reasons;
    }
  }

  // ----- which outputs are escalated -----

  function SeverityOf(code: Code): Severity {
    match code
    case EXCESSIVE_COORDINATE_PRECISION => Low
    case UNKNOWN_CURRENCY => Medium
    case INVALID_CURRENCY_FORMAT => High
    case EMPTY_ASSET_NAME => High
    case _ => Critical
  }

  lemma CodesFixSeverities(output: Output)
    ensures forall i :: i in Issues(output) ==> i.severity == SeverityOf(i.code)
  {
    hide Blank, Upper;
    forall i | i in Issues(output) ensures i.severity == SeverityOf(i.code) {
      assert i in LatitudeIssue(output) || i in LongitudeIssue(output)
          || i in CurrencyIssue(output) || i in NameIssue(output);
    }
  }

  lemma OtherKinds(output: Output, validation: ValidationResult, fields: FieldMapping)
    ensures var others := [MappingScore(output, fields), DeterministicScore(output), MissingFieldScore(output, fields),
                           ValidationScore(validation), ReviewScore(output)];
      forall f :: f in others && f.Some? ==> !IS_INFERENCE(f.value)
  {
    hide MappingScore, DeterministicScore, MissingFieldScore, ValidationScore, ReviewScore;
  }

  lemma InferencesIn(f: Option<Factor>)
    ensures |Filter(IS_INFERENCE, ToSeq(f))| == if f.Some? && IS_INFERENCE(f.value) then 1 else 0
  {
    if f.Some? {
      assert [f.value][1..] == [];
    }
  }

  /** A score has at most one inference factor, so the rule that asks for two never holds. */
  lemma MultipleInferencesNeverHolds(output: Output, validation: ValidationResult, fields: FieldMapping, v: ValidationResult)
    ensures !Holds(MultipleInferences, Scored(output, validation, fields), v)
  {
    hide MappingScore, DeterministicScore, InferenceScore, MissingFieldScore, ValidationScore, ReviewScore, ToSeq, Filter, Scores;
    var a, b, c := MappingScore(output, fields), DeterministicScore(output), InferenceScore(SignalsOf(output));
    var d, e, f := MissingFieldScore(output, fields), ValidationScore(validation), ReviewScore(output);
    FilterAppend(IS_INFERENCE, ToSeq(a) + ToSeq(b) + ToSeq(c) + ToSeq(d) + ToSeq(e), ToSeq(f));
    FilterAppend(IS_INFERENCE, ToSeq(a) + ToSeq(b) + ToSeq(c) + ToSeq(d), ToSeq(e));
    FilterAppend(IS_INFERENCE, ToSeq(a) + ToSeq(b) + ToSeq(c), ToSeq(d));
    FilterAppend(IS_INFERENCE, ToSeq(a) + ToSeq(b), ToSeq(c));
    FilterAppend(IS_INFERENCE, ToSeq(a), ToSeq(b));
    OtherKinds(output, validation, fields);
    InferencesIn(a);
    InferencesIn(b);
    InferencesIn(c);
    InferencesIn(d);
    InferencesIn(e);
    InferencesIn(f);
  }

  function ConfidenceOf(output: Output, fields: FieldMapping): Confidence {
    Scored(output, Verdict(Issues(output)), fields)
  }

  function EscalationOf(output: Output, fields: FieldMapping): Escalation {
    Escalated(ConfidenceOf(output, fields), Verdict(Issues(output)))
  }

  lemma RulesOnOutputs(output: Output, fields: FieldMapping)
    ensures var c, v := ConfidenceOf(output, fields), Verdict(Issues(output));
      && !Holds(MultipleInferences, c, v)
      && (Holds(SeriousIssues, c, v) <==> !v.valid)
      && (Holds(InvalidCoordinates, c, v) ==> !v.valid)
      && ((!v.valid || Holds(InvalidCurrency, c, v)) <==> exists i :: i in v.issues && i.code != EXCESSIVE_COORDINATE_PRECISION)
      && (!v.valid || (Holds(InvalidCurrency, c, v) <==> exists i :: i in v.issues && i.code == UNKNOWN_CURRENCY))
  {
    hide Issues, Scored, Filter;
    var c, v, issues := ConfidenceOf(output, fields), Verdict(Issues(output)), Issues(output);
    MultipleInferencesNeverHolds(output, v, fields, v);
    CodesFixSeverities(output);
    FilterEmptyIff(IS_SERIOUS, issues);
    FilterEmptyIff(IS_COORDINATE_ISSUE, issues);
    FilterEmptyIff(IS_CURRENCY_ISSUE, issues);
  }

  /** The reasons given for a row are exactly those of the rules it meets: the fourth and fifth look for
      particular codes, the sixth repeats the second, and the seventh is never met. */
  lemma ReasonIff(output: Output, fields: FieldMapping, reason: Reason)
    ensures reason in EscalationOf(output, fields).reasons <==>
      var issues := Issues(output);
      match reason
      case LowConfidence => ConfidenceOf(output, fields).overall < 0.65
      case MultipleIssues => |issues| >= 2
      case InvalidCoordinates =>
        || Raised(INVALID_LATITUDE, issues) || Raised(LATITUDE_OUT_OF_RANGE, issues)
        || Raised(INVALID_LONGITUDE, issues) || Raised(LONGITUDE_OUT_OF_RANGE, issues)
      case InvalidCurrency => Raised(INVALID_CURRENCY_FORMAT, issues) || Raised(UNKNOWN_CURRENCY, issues)
      case MultipleInferences => false
      case _ => exists i :: i in issues && (i.severity == Critical || i.severity == High)
  {
    hide Issues, Scored, Filter, Reasons;
    var c, v, issues := ConfidenceOf(output, fields), Verdict(Issues(output)), Issues(output);
    ReasonsMember(c, v, reason);
    MultipleInferencesNeverHolds(output, v, fields, v);
    FilterEmptyIff(IS_SERIOUS, issues);
    FilterEmptyIff(IS_COORDINATE_ISSUE, issues);
    FilterEmptyIff(IS_CURRENCY_ISSUE, issues);
  }

  function RuleNumber(reason: Reason): nat {
    match reason
    case LowConfidence => 1
    case SeriousIssues => 2
    case MultipleIssues => 3
    case InvalidCoordinates => 4
    case InvalidCurrency => 5
    case DeterministicValidationFailed => 6
    case MultipleInferences => 7
  }

  /** In the order of the rules, each at most once, and all of them before rule `n`. */
  ghost predicate InRuleOrder(reasons: seq<Reason>, n: nat) {
    && (forall i, j :: 0 <= i < j < |reasons| ==> RuleNumber(reasons[i]) < RuleNumber(reasons[j]))
    && forall i :: 0 <= i < |reasons| ==> RuleNumber(reasons[i]) < n
  }

  lemma NextRule(reasons: seq<Reason>, condition: bool, reason: Reason)
    requires InRuleOrder(reasons, RuleNumber(reason))
    ensures InRuleOrder(reasons + If(condition, reason), RuleNumber(reason) + 1)
  {
    hide RuleNumber;
  }

  lemma NoRules()
    ensures InRuleOrder([], 1)
  {
  }

  lemma ReasonsInOrder(c: Confidence, v: ValidationResult)
    ensures InRuleOrder(Reasons(c, v), 8)
  {
    hide Holds, If, InRuleOrder;
    var one := [] + If(Holds(LowConfidence, c, v), LowConfidence);
    var two := one + If(Holds(SeriousIssues, c, v), SeriousIssues);
    var three := two + If(Holds(MultipleIssues, c, v), MultipleIssues);
    var four := three + If(Holds(InvalidCoordinates, c, v), InvalidCoordinates);
    var five := four + If(Holds(InvalidCurrency, c, v), InvalidCurrency);
    var six := five + If(Holds(DeterministicValidationFailed, c, v), DeterministicValidationFailed);
    NoRules();
    NextRule([], Holds(LowConfidence, c, v), LowConfidence);
    NextRule(one, Holds(SeriousIssues, c, v), SeriousIssues);
    NextRule(two, Holds(MultipleIssues, c, v), MultipleIssues);
    NextRule(three, Holds(InvalidCoordinates, c, v), InvalidCoordinates);
    NextRule(four, Holds(InvalidCurrency, c, v), InvalidCurrency);
    NextRule(five, Holds(DeterministicValidationFailed, c, v), DeterministicValidationFailed);
    NextRule(six, Holds(MultipleInferences, c, v), MultipleInferences);
  }

  /** A row is escalated exactly when its confidence is below the threshold, or it has two issues,
      or an issue other than excessive precision. */
  lemma EscalatesIff(output: Output, fields: FieldMapping)
    ensures EscalationOf(output, fields).shouldEscalate <==>
      || ConfidenceOf(output, fields).overall < CONFIDENCE_THRESHOLD
      || |Issues(output)| >= 2
      || exists i :: i in Issues(output) && i.code != EXCESSIVE_COORDINATE_PRECISION
  {
    hide Issues, Scored, Filter, Escalated;
    var c, v := ConfidenceOf(output, fields), Verdict(Issues(output));
    EscalationMeans(c, v);
    RulesOnOutputs(output, fields);
    assert Holds(LowConfidence, c, v) <==> c.overall < CONFIDENCE_THRESHOLD;
    assert Holds(MultipleIssues, c, v) <==> |v.issues| >= 2;
    assert Holds(DeterministicValidationFailed, c, v) <==> !v.valid;
  }

  /** Priority 3 for an invalid output, 2 for low confidence or two issues, 1 for a lone unknown
      currency, 0 for everything that is not escalated. */
  lemma PriorityIs(output: Output, fields: FieldMapping)
    ensures EscalationOf(output, fields).priority ==
      if !Verdict(Issues(output)).valid then 3
      else if ConfidenceOf(output, fields).overall < CONFIDENCE_THRESHOLD || |Issues(output)| >= 2 then 2
      else if exists i :: i in Issues(output) && i.code == UNKNOWN_CURRENCY then 1
      else 0
  {
    hide Issues, Scored, Filter, Escalated;
    var c, v := ConfidenceOf(output, fields), Verdict(Issues(output));
    EscalationMeans(c, v);
    RulesOnOutputs(output, fields);
    assert Holds(LowConfidence, c, v) <==> c.overall < CONFIDENCE_THRESHOLD;
    assert Holds(MultipleIssues, c, v) <==> |v.issues| >= 2;
    assert Holds(DeterministicValidationFailed, c, v) <==> !v.valid;
  }
}
