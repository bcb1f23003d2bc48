/** The loop that turns the enrichment outputs of a document into fields with a review status,
    validation flags and review items. */
module LlmEnrichment {
  import opened EnrichmentTypes
  import opened Enrichment
  import opened EnrichmentAnswers
  import opened LlmReview
  import opened LlmValidation
  import opened Options
  import opened ScoreMeaning
  import opened Sequences
  import opened Strings

  datatype ReviewStatus = REQUIRES_REVIEW | AUTO_APPROVED

  /** The properties the stored field keeps of an output; falsy names, currencies, types and
      jurisdictions are left out. */
  datatype NormalizedValue = NormalizedValue(
    normalizedAssetName: Option<TextValue>, currency: Option<TextValue>, assetType: Option<TextValue>,
    jurisdiction: Option<TextValue>, latitude: Property<Coordinate>, longitude: Property<Coordinate>,
    confidenceSignals: Property<Signals>)

  datatype Metadata = Metadata(
    extractionModel: string, extractionStrategy: string, inferenceExplanation: Property<TextValue>)

  /** The document the rows belong to, as the caller names it. */
  datatype Document = Document(documentId: string, extractionJobId: Option<string>, sourceSheetName: Option<string>)

  /** `row` is the position of the output the field was made from. A falsy `sourceRowIndex` is zero. */
  datatype EnrichedField = EnrichedField(
    row: nat, document: Document, rawAssetName: string, fieldName: string, rawValue: map<string, Value>,
    normalizedValue: NormalizedValue, confidence: real, extractionMethod: string, reviewStatus: ReviewStatus,
    isInferred: bool, inferenceExplanation: TextValue, sourceRowIndex: Value, metadata: Metadata)

  /** Flags and review items name the field by its id, which ends in `row`. */
  datatype ReviewItem = ReviewItem(row: nat, reasons: seq<LlmReview.Reason>, priority: nat)

  datatype ValidationFlag = ValidationFlag(row: nat, flagType: Code, severity: Severity, explanation: string)

  function StatusOf(confidence: real): ReviewStatus {
    if confidence < 0.65 then REQUIRES_REVIEW else AUTO_APPROVED
  }

  function StatusAt(output: Output, fields: FieldMapping): ReviewStatus {
    StatusOf(ConfidenceOf(output, fields).overall)
  }

  function FieldId(documentId: string, row: nat): string {
    "field_" + documentId + "_" + Decimal(row)
  }

  /** What `String` makes of a text property. It is only called on texts: scoring throws on any
      other name. */
  function StringOf(v: TextValue): string {
    match v
    case Words(text) => text
    case Scalar(json) => json
    case _ => ""
  }

  /** The name of a stored field: from the output, else from the paired input row, else made up. */
  function AssetNameAt(documentId: string, original: Row, output: Output, fields: FieldMapping, row: nat): string {
    var cell := CellOf(original, ColumnOr(fields, AssetName, "asset_name"));
    if IsFilled(output.normalizedAssetName) then StringOf(output.normalizedAssetName.value)
    else if Truthy(cell) then Shown(cell)
    else "asset_" + FieldId(documentId, row)
  }

  function Filled(p: Property<TextValue>): Option<TextValue> {
    if IsFilled(p) then Some(p.value) else None
  }

  function NormalizedOf(output: Output): NormalizedValue {
    NormalizedValue(
      Filled(output.normalizedAssetName), Filled(output.currency), Filled(output.assetType),
      Filled(output.jurisdiction), output.latitude, output.longitude, output.confidenceSignals)
  }

  function OrElse(p: Property<TextValue>, otherwise: string): TextValue {
    if IsFilled(p) then p.value else Words(otherwise)
  }

  function TruthyOr(v: Value): Value {
    if Truthy(v) then v else Falsy
  }

  function FieldAt(document: Document, original: Row, output: Output, fields: FieldMapping, row: nat): EnrichedField {
    EnrichedField(
      row, document, AssetNameAt(document.documentId, original, output, fields, row), "enriched_asset_data",
      original.data, NormalizedOf(output), ConfidenceOf(output, fields).overall, "LLM_EXTRACTION",
      StatusAt(output, fields), true, OrElse(output.explanation, ConfidenceOf(output, fields).explanation),
      TruthyOr(CellOf(original, "sourceRowIndex")), Metadata("llm_enrichment", "llm_inference", output.explanation))
  }

  function ItemAt(output: Output, fields: FieldMapping, row: nat): seq<ReviewItem> {
    var review := EscalationOf(output, fields);
    if review.shouldEscalate then [ReviewItem(row, review.reasons, review.priority)] else []
  }

  /** Filling the stored field property by property. */
  method CreateEnrichedFieldData(
    document: Document, original: Row, enrichment: Output, fields: FieldMapping, confidence: Confidence, row: nat)
    returns (field: EnrichedField)
    requires confidence == ConfidenceOf(enrichment, fields)
    ensures field == FieldAt(document, original, enrichment, fields, row)
  {
    hide Decimal, ConfidenceOf;
    var assetName := "asset_" + FieldId(document.documentId, row);
    var cell := CellOf(original, ColumnOr(fields, AssetName, "asset_name"));
    if Truthy(cell) { assetName := Shown(cell); }
    if IsFilled(enrichment.normalizedAssetName) { assetName := StringOf(enrichment.normalizedAssetName.value); }
    var normalizedValue := NormalizedValue(None, None, None, None, Undefined, Undefined, Undefined);
    if IsFilled(enrichment.normalizedAssetName) {
      normalizedValue := normalizedValue.(normalizedAssetName := Some(enrichment.normalizedAssetName.value));
    }
    if IsFilled(enrichment.currency) {
      normalizedValue := normalizedValue.(currency := Some(enrichment.currency.value));
    }
    if IsFilled(enrichment.assetType) {
      normalizedValue := normalizedValue.(assetType := Some(enrichment.assetType.value));
    }
    if IsFilled(enrichment.jurisdiction) {
      normalizedValue := normalizedValue.(jurisdiction := Some(enrichment.jurisdiction.value));
    }
    if !enrichment.latitude.Undefined? {
      normalizedValue := normalizedValue.(latitude := enrichment.latitude);
    }
    if !enrichment.longitude.Undefined? {
      normalizedValue := normalizedValue.(longitude := enrichment.longitude);
    }
    normalizedValue := normalizedValue.(confidenceSignals := enrichment.confidenceSignals);
    field := EnrichedField(
      row, document, assetName, "enriched_asset_data", original.data, normalizedValue, confidence.overall,
      "LLM_EXTRACTION", StatusOf(confidence.overall), true,
      if IsFilled(enrichment.explanation) then enrichment.explanation.value else Words(confidence.explanation),
      if Has(original, "sourceRowIndex") then CellOf(original, "sourceRowIndex") else Falsy,
      Metadata("llm_enrichment", "llm_inference", enrichment.explanation));
  }

  // ----- flags -----

  function Rank(s: Severity): nat {
    match s
    case Low => 0
    case Medium => 1
    case High => 2
    case Critical => 3
  }

  function MaxSeverity(issues: seq<Issue>): Severity {
    if issues == [] then Low
    else
      var max, last := MaxSeverity(issues[..|issues| - 1]), issues[|issues| - 1].severity;
      if Rank(last) > Rank(max) then last else max
  }

  lemma {:induction false} MaxSeverityIsMaximum(issues: seq<Issue>)
    ensures forall i :: 0 <= i < |issues| ==> Rank(issues[i].severity) <= Rank(MaxSeverity(issues))
    ensures issues != [] ==> exists i :: 0 <= i < |issues| && issues[i].severity == MaxSeverity(issues)
  {
    if issues != [] {
      var front := issues[..|issues| - 1];
      MaxSeverityIsMaximum(front);
      if front != [] {
        var i :| 0 <= i < |front| && front[i].severity == MaxSeverity(front);
        assert issues[i] == front[i];
      }
      assert issues[|issues| - 1].severity == MaxSeverity(issues) || MaxSeverity(issues) == MaxSeverity(front);
    }
  }

  function IssueTexts(issues: seq<Issue>): seq<string> {
    seq(|issues|, i requires 0 <= i < |issues| => issues[i].field + ": " + issues[i].message)
  }

  function Explanation(issues: seq<Issue>): string { Join(IssueTexts(issues), "; ") }

  function FlagAt(issues: seq<Issue>, row: nat): seq<ValidationFlag> {
    if issues == [] then []
    else
      var serious := Filter(IS_SERIOUS, issues);
      [ValidationFlag(row, if serious != [] then serious[0].code else issues[0].code, MaxSeverity(issues), Explanation(issues))]
  }

  /** The type and severity of a flag agree: the severity is the highest among the issues, and
      the type belongs to the first issue that is critical or high, if the severity is. */
  lemma FlagNamesAnIssue(issues: seq<Issue>, row: nat)
    requires issues != []
    ensures |FlagAt(issues, row)| == 1
    ensures var flag := FlagAt(issues, row)[0];
      exists k :: 0 <= k < |issues| && flag.flagType == issues[k].code
        && (if Rank(flag.severity) >= 2
            then IS_SERIOUS(issues[k]) && forall j :: 0 <= j < k ==> !IS_SERIOUS(issues[j])
            else k == 0)
  {
    hide Filter;
    FilterEmptyIff(IS_SERIOUS, issues);
    MaxSeverityIsMaximum(issues);
    if Filter(IS_SERIOUS, issues) == [] {
      assert forall i :: 0 <= i < |issues| ==> !IS_SERIOUS(issues[i]);
      assert FlagAt(issues, row)[0].flagType == issues[0].code;
    } else {
      var k := FirstOfFilter(IS_SERIOUS, issues);
      assert IS_SERIOUS(issues[k]);
    }
  }

  method CreateFlag(issues: seq<Issue>, row: nat) returns (flag: ValidationFlag)
    requires issues != []
    ensures [flag] == FlagAt(issues, row)
  {
    var criticalIssues := Filter(IS_SERIOUS, issues);
    var flagType := if |criticalIssues| > 0 then criticalIssues[0].code else issues[0].code;
    var maxSeverity := Low;
    for i := 0 to |issues|
      invariant maxSeverity == MaxSeverity(issues[..i])
    {
      assert issues[..i + 1][..i] == issues[..i];
      if Rank(issues[i].severity) > Rank(maxSeverity) { maxSeverity := issues[i].severity; }
    }
    assert issues[..|issues|] == issues;
    flag := ValidationFlag(row, flagType, maxSeverity, Explanation(issues));
  }

  // ----- the loop -----

  function ReviewItems(outputs: seq<Output>, fields: FieldMapping): seq<ReviewItem> {
    if outputs == [] then []
    else ReviewItems(outputs[..|outputs| - 1], fields)
         + ItemAt(outputs[|outputs| - 1], fields, |outputs| - 1)
  }

  function ValidationFlags(outputs: seq<Output>): seq<ValidationFlag> {
    if outputs == [] then []
    else ValidationFlags(outputs[..|outputs| - 1]) + FlagAt(Issues(outputs[|outputs| - 1]), |outputs| - 1)
  }

  /** What one pass of the loop adds to the three lists. */
  datatype RowResult = RowResult(field: EnrichedField, flags: seq<ValidationFlag>, items: seq<ReviewItem>)

  /** One pass of the loop: the field, and the flag and the review item if there are any, or the
      exception of the validator or the scorer. */
  method EnrichRow(document: Document, original: Row, enrichment: Output, fields: FieldMapping, i: nat)
    returns (r: Result<RowResult, Fault>)
    ensures FaultOf(enrichment).Some? ==> r == Err(FaultOf(enrichment).value)
    ensures FaultOf(enrichment).None? ==>
      r == Ok(RowResult(
        FieldAt(document, original, enrichment, fields, i), FlagAt(Issues(enrichment), i), ItemAt(enrichment, fields, i)))
  {
    hide Issues, Factors, Scores, Reasons, Highest, Filter, TotalWeight, MaxSeverity, FieldAt, ValidationFault, Explanation;
    hide GenerateConfidenceExplanation, FieldConfidenceOf;
    var flags: seq<ValidationFlag>, items: seq<ReviewItem> := [], [];
    var validated := ValidateEnrichmentOutput(enrichment);
    if validated.Err? { return Err(validated.error); }
    var validation := validated.value;
    var scored := CalculateConfidence(enrichment, validation, fields);
    if scored.Err? { return Err(scored.error); }
    var confidence := scored.value;
    var field := CreateEnrichedFieldData(document, original, enrichment, fields, confidence, i);
    if |validation.issues| > 0 {
      var flag := CreateFlag(validation.issues, i);
      flags := [flag];
    }
    var reviewResult := ShouldEscalate(confidence, validation);
    if reviewResult.shouldEscalate {
      items := [ReviewItem(i, reviewResult.reasons, reviewResult.priority)];
    }
    r := Ok(RowResult(field, flags, items));
  }

  /** An entry of the error list the caller gets. */
  datatype Notice = RowNotice(reason: Enrichment.Reason) | Thrown(fault: Fault) | NotConfigured

  datatype EnrichmentResult = EnrichmentResult(
    enrichedFields: seq<EnrichedField>, reviewItems: seq<ReviewItem>, validationFlags: seq<ValidationFlag>,
    errors: seq<Notice>)

  /** The exception of the first output that cannot be scored. */
  function FirstFault(outputs: seq<Output>): Option<Fault> {
    if outputs == [] then None
    else if FirstFault(outputs[..|outputs| - 1]).Some? then FirstFault(outputs[..|outputs| - 1])
    else FaultOf(outputs[|outputs| - 1])
  }

  lemma {:induction false} FaultIff(outputs: seq<Output>)
    ensures FirstFault(outputs).Some? <==> exists i :: 0 <= i < |outputs| && !Scorable(outputs[i])
  {
    hide Scorable, FaultOf;
    if outputs != [] {
      var front := outputs[..|outputs| - 1];
      FaultIff(front);
      ScorableIff(outputs[|outputs| - 1]);
      if FirstFault(front).Some? {
        var i :| 0 <= i < |front| && !Scorable(front[i]);
        assert !Scorable(outputs[i]);
      }
      assert forall i :: 0 <= i < |front| ==> front[i] == outputs[i];
    }
  }

  lemma {:induction false} FaultEarly(outputs: seq<Output>, n: nat)
    requires n <= |outputs| && FirstFault(outputs[..n]).Some?
    ensures FirstFault(outputs) == FirstFault(outputs[..n])
    decreases |outputs|
  {
    hide FaultOf;
    if n < |outputs| {
      assert outputs[..|outputs| - 1][..n] == outputs[..n];
      FaultEarly(outputs[..|outputs| - 1], n);
    } else {
      assert outputs[..n] == outputs;
    }
  }

  function FieldsOf(document: Document, rows: seq<Row>, outputs: seq<Output>, fields: FieldMapping): seq<EnrichedField>
    requires |outputs| <= |rows|
  {
    seq(|outputs|, i requires 0 <= i < |outputs| => FieldAt(document, rows[i], outputs[i], fields, i))
  }

  /** The loop over the outputs, each paired with the input row at its position; an exception
      leaves it with nothing. */
  method ScoreRows(document: Document, rows: seq<Row>, enrichedRows: seq<Output>, fields: FieldMapping)
    returns (r: Result<EnrichmentResult, Fault>)
    requires |enrichedRows| <= |rows|
    ensures FirstFault(enrichedRows).Some? ==> r == Err(FirstFault(enrichedRows).value)
    ensures FirstFault(enrichedRows).None? ==>
      r == Ok(EnrichmentResult(
        FieldsOf(document, rows, enrichedRows, fields), ReviewItems(enrichedRows, fields),
        ValidationFlags(enrichedRows), []))
  {
    hide FieldAt, Issues, FlagAt, ItemAt, FaultOf;
    var enrichedFields: seq<EnrichedField> := [];
    var reviewItems: seq<ReviewItem>, validationFlags: seq<ValidationFlag> := [], [];
    for i := 0 to |enrichedRows|
      invariant FirstFault(enrichedRows[..i]).None?
      invariant enrichedFields == FieldsOf(document, rows, enrichedRows[..i], fields)
      invariant reviewItems == ReviewItems(enrichedRows[..i], fields)
      invariant validationFlags == ValidationFlags(enrichedRows[..i])
    {
      assert enrichedRows[..i + 1][..i] == enrichedRows[..i];
      var row := EnrichRow(document, rows[i], enrichedRows[i], fields, i);
      if row.Err? {
        FaultEarly(enrichedRows, i + 1);
        return Err(row.error);
      }
      enrichedFields := enrichedFields + [row.value.field];
      validationFlags := validationFlags + row.value.flags;
      reviewItems := reviewItems + row.value.items;
    }
    assert enrichedRows[..|enrichedRows|] == enrichedRows;
    return Ok(EnrichmentResult(enrichedFields, reviewItems, validationFlags, []));
  }

  function Notices(errors: seq<Enrichment.RowError>): seq<Notice> {
    seq(|errors|, i requires 0 <= i < |errors| => RowNotice(errors[i].reason))
  }

  // ----- review covers everything that requires it -----

  function Of(row: nat): ReviewItem -> bool { (item: ReviewItem) => item.row == row }

  /** The field made from output `k` requires review exactly below the threshold, and has exactly one
      review item if it does. */
  ghost predicate IsQueued(field: EnrichedField, k: nat, items: seq<ReviewItem>) {
    && field.row == k
    && (field.reviewStatus == REQUIRES_REVIEW <==> field.confidence < 0.65)
    && (field.reviewStatus == REQUIRES_REVIEW ==> Count(Of(k), items) == 1)
  }

  /** Every field that requires review is queued, and items and flags are about nothing but fields. */
  ghost predicate Coherent(r: EnrichmentResult) {
    && (forall k :: 0 <= k < |r.enrichedFields| ==> IsQueued(r.enrichedFields[k], k, r.reviewItems))
    && (forall item :: item in r.reviewItems ==> item.row < |r.enrichedFields|)
    && forall flag :: flag in r.validationFlags ==> flag.row < |r.enrichedFields|
  }

  lemma OneFieldEach(document: Document, rows: seq<Row>, outputs: seq<Output>, fields: FieldMapping)
    requires |outputs| <= |rows|
    ensures |FieldsOf(document, rows, outputs, fields)| == |outputs|
  {
  }

  lemma StoredStatus(document: Document, rows: seq<Row>, outputs: seq<Output>, fields: FieldMapping, k: nat)
    requires k < |outputs| <= |rows|
    ensures var field := FieldsOf(document, rows, outputs, fields)[k];
      && field.row == k
      && field.confidence == ConfidenceOf(outputs[k], fields).overall
      && (field.reviewStatus == REQUIRES_REVIEW <==> field.confidence < 0.65)
  {
    hide ConfidenceOf, NormalizedOf, Decimal;
  }

  /** A row has at most one review item, and has one exactly when it is escalated. */
  lemma {:induction false} ReviewItemsMember(outputs: seq<Output>, fields: FieldMapping, row: nat)
    ensures Count(Of(row), ReviewItems(outputs, fields))
         == if row < |outputs| && EscalationOf(outputs[row], fields).shouldEscalate then 1 else 0
    ensures forall item :: item in ReviewItems(outputs, fields) ==> item.row < |outputs|
  {
    hide EscalationOf;
    if outputs != [] {
      var front, n := outputs[..|outputs| - 1], |outputs| - 1;
      ReviewItemsMember(front, fields, row);
      var item := ItemAt(outputs[n], fields, n);
      CountAppend(Of(row), ReviewItems(front, fields), item);
      if item != [] {
        assert item[1..] == [];
      }
    }
  }

  /** Every field that is stored as requiring review has exactly one review item. */
  lemma EveryReviewRowIsQueued(document: Document, rows: seq<Row>, outputs: seq<Output>, fields: FieldMapping, row: nat)
    requires row < |outputs| <= |rows| && FieldsOf(document, rows, outputs, fields)[row].reviewStatus == REQUIRES_REVIEW
    ensures Count(Of(row), ReviewItems(outputs, fields)) == 1
  {
    hide Issues, ConfidenceOf, EscalationOf, ReviewItems, Count, FieldsOf;
    StoredStatus(document, rows, outputs, fields, row);
    EscalatesIff(outputs[row], fields);
    ReviewItemsMember(outputs, fields, row);
  }

  lemma FieldIsQueued(document: Document, rows: seq<Row>, outputs: seq<Output>, fields: FieldMapping, k: nat)
    requires k < |outputs| <= |rows|
    ensures IsQueued(FieldsOf(document, rows, outputs, fields)[k], k, ReviewItems(outputs, fields))
  {
    hide FieldAt, ReviewItems, Count, Of, ConfidenceOf;
    StoredStatus(document, rows, outputs, fields, k);
    if FieldsOf(document, rows, outputs, fields)[k].reviewStatus == REQUIRES_REVIEW {
      EveryReviewRowIsQueued(document, rows, outputs, fields, k);
    }
  }

  lemma {:induction false} FlagsMember(outputs: seq<Output>)
    ensures forall flag :: flag in ValidationFlags(outputs) ==> flag.row < |outputs|
  {
    hide Issues, MaxSeverity, Filter;
    if outputs != [] {
      FlagsMember(outputs[..|outputs| - 1]);
    }
  }

  lemma ResultIsCoherent(document: Document, rows: seq<Row>, outputs: seq<Output>, fields: FieldMapping, errors: seq<Notice>)
    requires |outputs| <= |rows|
    ensures Coherent(EnrichmentResult(
      FieldsOf(document, rows, outputs, fields), ReviewItems(outputs, fields), ValidationFlags(outputs), errors))
  {
    hide FieldsOf, ReviewItems, ValidationFlags, IsQueued;
    OneFieldEach(document, rows, outputs, fields);
    forall k | 0 <= k < |outputs|
      ensures IsQueued(FieldsOf(document, rows, outputs, fields)[k], k, ReviewItems(outputs, fields))
    {
      FieldIsQueued(document, rows, outputs, fields, k);
    }
    ReviewItemsMember(outputs, fields, 0);
    FlagsMember(outputs);
  }

  // ----- the whole document -----

  /** `enrichExtraction` after schema inference. One output that cannot be scored throws, and the
      `catch` then drops the fields, flags and review items of every row of the document. */
  method EnrichExtraction(
    configured: bool, document: Document, rows: seq<Row>, fields: FieldMapping, replies: nat -> Reply)
    returns (r: EnrichmentResult)
    ensures Coherent(r)
    ensures !configured ==> r == EnrichmentResult([], [], [], [NotConfigured])
    ensures configured ==>
      var outputs := Combined(rows, fields, replies);
      && |outputs| <= |rows|
      && (FirstFault(outputs).Some? ==> r == EnrichmentResult([], [], [], [Thrown(FirstFault(outputs).value)]))
      && (FirstFault(outputs).None? ==>
            var toEnrich := Filter(Needy(fields), rows);
            r == EnrichmentResult(
              FieldsOf(document, rows, outputs, fields), ReviewItems(outputs, fields), ValidationFlags(outputs),
              Notices(Complaints(toEnrich, replies, DEFAULT_BATCH_SIZE, |toEnrich|))))
  {
    hide Combined, Complaints, Filter, FieldsOf, ReviewItems, ValidationFlags, FirstFault, IsQueued;
    if !configured { return EnrichmentResult([], [], [], [NotConfigured]); }
    SourcesAreOrigins(rows, fields, replies);
    var enriched := InferSchemaAndEnrich(rows, fields, replies);
    var scored := ScoreRows(document, rows, enriched.enrichedRows, fields);
    match scored
    case Err(fault) => return EnrichmentResult([], [], [], [Thrown(fault)]);
    case Ok(result) =>
      ResultIsCoherent(document, rows, enriched.enrichedRows, fields, Notices(enriched.errors));
      return result.(errors := Notices(enriched.errors));
  }

  /** The model's element for the `p`-th row sent to it cannot be scored. */
  predicate IsUnscorableAt(replies: nat -> Reply, p: nat) {
    var reply, place := replies(p / DEFAULT_BATCH_SIZE), p % DEFAULT_BATCH_SIZE;
    IsAnswered(reply, place) && !Scorable(reply.results[place].value)
  }

  lemma EmptyIsScorable()
    ensures Scorable(EMPTY_ENRICHMENT)
  {
  }

  lemma NoBatchNoAnswer(reply: Reply, place: nat)
    requires reply.Throws?
    ensures !IsAnswered(reply, place)
  {
  }

  lemma GatheredIsUnscorableIff(replies: nat -> Reply, n: nat)
    ensures (exists i :: 0 <= i < |Gathered(replies, DEFAULT_BATCH_SIZE, n)|
                         && !Scorable(Gathered(replies, DEFAULT_BATCH_SIZE, n)[i]))
       <==> exists p: nat :: p < n && IsUnscorableAt(replies, p)
  {
    hide IsAnswered, Scorable, Gathered, Select;
    var kept, outputs := Select(Survives(replies, DEFAULT_BATCH_SIZE), n), Gathered(replies, DEFAULT_BATCH_SIZE, n);
    OutputsAreAnswers(replies, DEFAULT_BATCH_SIZE, n);
    SelectShape(Survives(replies, DEFAULT_BATCH_SIZE), n);
    EmptyIsScorable();
    if i: nat :| i < |outputs| && !Scorable(outputs[i]) {
      assert IsUnscorableAt(replies, kept[i]);
    }
    if p: nat :| p < n && IsUnscorableAt(replies, p) {
      if replies(p / DEFAULT_BATCH_SIZE).Throws? { NoBatchNoAnswer(replies(p / DEFAULT_BATCH_SIZE), p % DEFAULT_BATCH_SIZE); }
      PlaceOfLast(replies, DEFAULT_BATCH_SIZE, p);
      assert p in kept;
      var k :| 0 <= k < |kept| && kept[k] == p;
      assert !Scorable(outputs[k]);
    }
  }

  /** The errors of a document are those of the unanswered rows sent to the model, each with the reason
      of its batch. */
  lemma NoticesAre(toEnrich: seq<Row>, replies: nat -> Reply)
    ensures var missed := Select(Unanswered(replies, DEFAULT_BATCH_SIZE), |toEnrich|);
      var notices := Notices(Complaints(toEnrich, replies, DEFAULT_BATCH_SIZE, |toEnrich|));
      && |notices| == |missed|
      && forall k :: 0 <= k < |missed| ==>
           match replies(missed[k] / 50)
           case Throws => notices[k] == RowNotice(BatchFailed)
           case NotAnArray => notices[k] == RowNotice(InvalidFormat)
           case Answers(_) => notices[k] == RowNotice(NoResult)
  {
    hide Complaints, Select;
    ErrorsAreUnanswered(toEnrich, replies, DEFAULT_BATCH_SIZE, |toEnrich|);
  }

  lemma DirectRowIsScorable(row: Row, fields: FieldMapping)
    ensures Scorable(BasicOutput(row, fields))
  {
    hide Upper, CellOf, Shown;
  }

  /** A configured run stores nothing of a document, not even the rows that never needed the model,
      exactly when the element the model answered for one row sent to it has no signals, a name
      that is no text, a currency of length 3 that is no text, or an inconvertible coordinate. */
  lemma OneMalformedAnswerDropsAllIff(rows: seq<Row>, fields: FieldMapping, replies: nat -> Reply)
    ensures FirstFault(Combined(rows, fields, replies)).Some? <==>
      exists p: nat :: p < |Filter(Needy(fields), rows)| && IsUnscorableAt(replies, p)
  {
    hide IsUnscorableAt, FirstFault, Gathered, Scorable, BasicOutput;
    var outputs := Combined(rows, fields, replies);
    var direct := BasicOutputs(Filter(Direct(fields), rows), fields);
    var gathered := Gathered(replies, DEFAULT_BATCH_SIZE, |Filter(Needy(fields), rows)|);
    FaultIff(outputs);
    GatheredIsUnscorableIff(replies, |Filter(Needy(fields), rows)|);
    assert outputs == direct + gathered;
    assert forall i :: 0 <= i < |gathered| ==> outputs[|direct| + i] == gathered[i];
    forall i | 0 <= i < |direct| ensures Scorable(outputs[i]) {
      DirectRowIsScorable(Filter(Direct(fields), rows)[i], fields);
    }
  }

  lemma OneDirectOneNeedy(direct: Row, needy: Row, fields: FieldMapping)
    requires !NeedsEnrichment(direct, fields) && NeedsEnrichment(needy, fields)
    ensures Filter(Direct(fields), [direct, needy]) == [direct] && Filter(Needy(fields), [direct, needy]) == [needy]
  {
    hide NeedsEnrichment;
    var rest := [direct, needy][1..];
    var none: seq<Row> := rest[1..];
    assert rest == [needy] && none == [];
    assert Filter(Direct(fields), none) == [] && Filter(Needy(fields), none) == [];
    assert Filter(Direct(fields), rest) == [] && Filter(Needy(fields), rest) == [needy];
  }

  /** Two rows of which only the second needs the model, and an answer without properties: the
      first row is lost as well. */
  lemma OneMalformedAnswerCanDropAll()
    ensures exists rows: seq<Row>, fields: FieldMapping, replies: nat -> Reply ::
      (forall b: nat :: replies(b).Answers?) && Filter(Direct(fields), rows) != []
      && FirstFault(Combined(rows, fields, replies)).Some?
  {
    hide FirstFault, Combined, Filter;
    var fields: FieldMapping := map[];
    var full := Row(map["currency" := Text("USD"), "jurisdiction" := Text("FR"),
                        "latitude" := Text("1"), "longitude" := Text("2")], 1);
    var bare := Row(map[], 2);
    var nothing := EMPTY_ENRICHMENT.(confidenceSignals := Undefined);
    var replies: nat -> Reply := (b: nat) => Answers([Some(nothing)]);
    OneDirectOneNeedy(full, bare, fields);
    OneMalformedAnswerDropsAllIff([full, bare], fields, replies);
    assert IsUnscorableAt(replies, 0);
    assert Filter(Direct(fields), [full, bare]) != [] && forall b: nat :: replies(b).Answers?;
  }

  // ----- what a stored field, a review item and a flag hold -----

  ghost predicate Keeps(kept: Option<TextValue>, p: Property<TextValue>) {
    (kept.Some? <==> IsFilled(p)) && (kept.Some? ==> p == Given(kept.value))
  }

  /** Field `k` keeps the truthy texts, the coordinates and the signals of output `k` and the data of
      row `k`. */
  lemma FieldHolds(document: Document, rows: seq<Row>, outputs: seq<Output>, fields: FieldMapping, k: nat)
    requires k < |outputs| <= |rows|
    ensures var field, output := FieldsOf(document, rows, outputs, fields)[k], outputs[k];
      var kept := field.normalizedValue;
      && field.document == document && field.rawValue == rows[k].data
      && Keeps(kept.normalizedAssetName, output.normalizedAssetName) && Keeps(kept.currency, output.currency)
      && Keeps(kept.assetType, output.assetType) && Keeps(kept.jurisdiction, output.jurisdiction)
      && kept.latitude == output.latitude && kept.longitude == output.longitude
      && kept.confidenceSignals == output.confidenceSignals
      && field.isInferred && field.extractionMethod == "LLM_EXTRACTION"
  {
    hide ConfidenceOf, Decimal, StatusAt;
  }

  /** Its confidence and status are those of output `k`, its explanation that of the output, else that
      of the score, and its row index that of row `k`, else zero. */
  lemma FieldScores(document: Document, rows: seq<Row>, outputs: seq<Output>, fields: FieldMapping, k: nat)
    requires k < |outputs| <= |rows|
    ensures var field, output := FieldsOf(document, rows, outputs, fields)[k], outputs[k];
      var score := Scored(output, Verdict(Issues(output)), fields);
      && field.confidence == score.overall && field.reviewStatus == StatusAt(output, fields)
      && (IsFilled(output.explanation) ==> output.explanation == Given(field.inferenceExplanation))
      && (!IsFilled(output.explanation) ==> field.inferenceExplanation == Words(score.explanation))
      && field.metadata.inferenceExplanation == output.explanation
      && var index := CellOf(rows[k], "sourceRowIndex");
         field.sourceRowIndex == if Truthy(index) then index else Falsy
  {
    hide Issues, Verdict, Scored, Decimal, StatusAt, NormalizedOf, AssetNameAt;
  }

  /** The name of field `k`: a text of the output; else what row `k` has in the name column, mapped or
      by default; else one made from the document and the position. */
  lemma FieldName(document: Document, rows: seq<Row>, outputs: seq<Output>, fields: FieldMapping, k: nat, column: string)
    requires k < |outputs| <= |rows|
    requires column == if IsMapped(fields, AssetName) then fields[AssetName].column.value else "asset_name"
    ensures var name, given := FieldsOf(document, rows, outputs, fields)[k].rawAssetName, outputs[k].normalizedAssetName;
      && (given.Given? && given.value.Words? && given.value.text != "" ==> name == given.value.text)
      && (!IsFilled(given) && Has(rows[k], column) ==> rows[k].data[column] in {Text(name), Other(name)})
      && (!IsFilled(given) && !Has(rows[k], column) ==> name == "asset_field_" + document.documentId + "_" + Decimal(k))
  {
    hide ConfidenceOf, NormalizedOf, Decimal;
    assert "asset_" + ("field_" + document.documentId + "_" + Decimal(k))
        == "asset_field_" + document.documentId + "_" + Decimal(k);
  }

  function Escalates(outputs: seq<Output>, fields: FieldMapping): nat -> bool {
    (k: nat) => k < |outputs| && EscalationOf(outputs[k], fields).shouldEscalate
  }

  ghost predicate IsItemOf(item: ReviewItem, review: Escalation, k: nat) {
    item.row == k && item.reasons == review.reasons && item.priority == review.priority
  }

  lemma {:induction false} ReviewItemsUpTo(outputs: seq<Output>, fields: FieldMapping, n: nat)
    requires n <= |outputs|
    ensures var queued, items := Select(Escalates(outputs, fields), n), ReviewItems(outputs[..n], fields);
      && |items| == |queued|
      && forall j :: 0 <= j < |queued| ==>
           queued[j] < |outputs| && IsItemOf(items[j], EscalationOf(outputs[queued[j]], fields), queued[j])
  {
    hide EscalationOf;
    if n > 0 {
      ReviewItemsUpTo(outputs, fields, n - 1);
      assert outputs[..n][..n - 1] == outputs[..n - 1];
    }
  }

  /** The review items are those of the escalated rows, in row order, with their reasons and priority. */
  lemma ReviewItemsAre(outputs: seq<Output>, fields: FieldMapping)
    ensures var queued, items := Select(Escalates(outputs, fields), |outputs|), ReviewItems(outputs, fields);
      && |items| == |queued|
      && forall j :: 0 <= j < |queued| ==>
           queued[j] < |outputs| && IsItemOf(items[j], EscalationOf(outputs[queued[j]], fields), queued[j])
  {
    hide EscalationOf, ReviewItems, Select, IsItemOf;
    ReviewItemsUpTo(outputs, fields, |outputs|);
    assert outputs[..|outputs|] == outputs;
  }

  function HasIssues(outputs: seq<Output>): nat -> bool {
    (k: nat) => k < |outputs| && Issues(outputs[k]) != []
  }

  /** A flag of row `k`: its severity is the highest of the issues, its type chosen among them, and it
      lists their fields and messages, joined by semicolons. */
  ghost predicate IsFlagOf(flag: ValidationFlag, issues: seq<Issue>, k: nat) {
    && flag.row == k && [flag] == FlagAt(issues, k) && flag.severity == MaxSeverity(issues)
    && exists texts: seq<string> ::
         && flag.explanation == Join(texts, "; ") && |texts| == |issues|
         && forall i :: 0 <= i < |issues| ==> texts[i] == issues[i].field + ": " + issues[i].message
  }

  lemma OneFlag(issues: seq<Issue>, row: nat)
    ensures issues == [] ==> FlagAt(issues, row) == []
    ensures issues != [] ==> |FlagAt(issues, row)| == 1 && IsFlagOf(FlagAt(issues, row)[0], issues, row)
  {
    hide MaxSeverity, Filter, Join;
    if issues != [] {
      assert FlagAt(issues, row)[0].explanation == Join(IssueTexts(issues), "; ");
    }
  }

  lemma {:induction false} ValidationFlagsUpTo(outputs: seq<Output>, n: nat)
    requires n <= |outputs|
    ensures var flagged, flags := Select(HasIssues(outputs), n), ValidationFlags(outputs[..n]);
      && |flags| == |flagged|
      && forall j :: 0 <= j < |flagged| ==>
           flagged[j] < |outputs| && IsFlagOf(flags[j], Issues(outputs[flagged[j]]), flagged[j])
  {
    hide Issues, IsFlagOf, FlagAt;
    if n > 0 {
      ValidationFlagsUpTo(outputs, n - 1);
      assert outputs[..n][..n - 1] == outputs[..n - 1];
      OneFlag(Issues(outputs[n - 1]), n - 1);
    }
  }

  /** The flags are those of the rows with issues, in row order. */
  lemma ValidationFlagsAre(outputs: seq<Output>)
    ensures var flagged, flags := Select(HasIssues(outputs), |outputs|), ValidationFlags(outputs);
      && |flags| == |flagged|
      && forall j :: 0 <= j < |flagged| ==>
           flagged[j] < |outputs| && IsFlagOf(flags[j], Issues(outputs[flagged[j]]), flagged[j])
  {
    hide Issues, IsFlagOf, ValidationFlags, Select;
    ValidationFlagsUpTo(outputs, |outputs|);
    assert outputs[..|outputs|] == outputs;
  }

  // ----- rows the model did not answer, and rows that never reach it -----

  lemma SpaceIsBlank()
    ensures Blank(" ")
  {
  }

  lemma OneIssue(issue: Issue)
    ensures TotalWeight([issue]) == Weight(issue.severity)
    ensures Filter(IS_SERIOUS, [issue]) == if IS_SERIOUS(issue) then [issue] else []
  {
    assert [issue][..0] == [] && [issue][1..] == [];
  }

  lemma NothingGiven(fields: FieldMapping)
    ensures MappingScore(EMPTY_ENRICHMENT, fields) == None && Issues(EMPTY_ENRICHMENT) == []
  {
  }

  /** A row without an answer is stored with confidence zero, requires review, and is queued with
      priority 2 although nothing flags it. */
  lemma UnansweredRowIsReviewed(document: Document, original: Row, fields: FieldMapping, row: nat)
    ensures FieldAt(document, original, EMPTY_ENRICHMENT, fields, row).confidence == 0.0
    ensures FieldAt(document, original, EMPTY_ENRICHMENT, fields, row).reviewStatus == REQUIRES_REVIEW
    ensures EscalationOf(EMPTY_ENRICHMENT, fields).priority == 2
    ensures FlagAt(Issues(EMPTY_ENRICHMENT), row) == []
  {
    hide MappingScore, Issues, Scored, EscalationOf, AssetNameAt, NormalizedOf;
    NothingGiven(fields);
    OverallIs(EMPTY_ENRICHMENT, [], fields);
    PriorityIs(EMPTY_ENRICHMENT, fields);
  }

  function DirectName(row: Row, fields: FieldMapping): string {
    Shown(CellOf(row, ColumnOr(fields, AssetName, "asset_name")))
  }

  function DirectCurrency(row: Row, fields: FieldMapping): Property<TextValue> {
    ExtractCurrency(CellOf(row, ColumnOr(fields, Currency, "currency")))
  }

  predicate ThreeCapitals(s: string) {
    |s| == 3 && 'A' <= s[0] <= 'Z' && 'A' <= s[1] <= 'Z' && 'A' <= s[2] <= 'Z'
  }

  lemma CodesAreCapitals(code: string)
    requires code in CURRENCY_CODES
    ensures ThreeCapitals(code)
  {
    assert ThreeCapitals("USD") && ThreeCapitals("EUR") && ThreeCapitals("GBP") && ThreeCapitals("JPY");
    assert ThreeCapitals("AUD") && ThreeCapitals("CAD") && ThreeCapitals("CHF") && ThreeCapitals("CNY");
    assert ThreeCapitals("INR") && ThreeCapitals("BRL") && ThreeCapitals("MXN") && ThreeCapitals("SGD");
    assert ThreeCapitals("HKD") && ThreeCapitals("KRW");
    hide ThreeCapitals;
  }

  lemma InFront(x: string, a: seq<string>, b: seq<string>)
    requires x in a
    ensures x in a + b
  {
  }

  lemma CodesAreValid(code: string)
    requires code in CURRENCY_CODES
    ensures ValidateCurrency(Words(code)) == None
  {
    CodesAreCapitals(code);
    UpperFixed(code);
    InFront(code, CURRENCY_CODES, OTHER_CODES);
  }

  /** The only issue a row can have that never reaches the model is a blank name. */
  lemma DirectRowIssues(row: Row, fields: FieldMapping)
    ensures Issues(BasicOutput(row, fields))
         == if Blank(DirectName(row, fields)) then [EMPTY_NAME] else []
  {
    hide Blank, Upper, CellOf, Shown;
    if DirectCurrency(row, fields).Given? {
      CodesAreValid(DirectCurrency(row, fields).value.text);
    }
  }

  lemma NoWeight()
    ensures TotalWeight([]) == 0.0
  {
  }

  /** With a field missing, the mapped fields of such a row are never well filled. */
  lemma DirectRowMapping(row: Row, fields: FieldMapping)
    ensures HasAllExpectedFields(BasicOutput(row, fields), fields) <==>
      !IsMapped(fields, Jurisdiction) && (IsMapped(fields, Currency) ==> DirectCurrency(row, fields).Given?)
    ensures !HasAllExpectedFields(BasicOutput(row, fields), fields) ==> !WellMapped(BasicOutput(row, fields), fields)
  {
    hide Blank, Upper, CellOf, Shown, ExtractCurrency, IsMapped;
  }

  /** A row that never reaches the model is approved exactly when no jurisdiction column is
      mapped, a mapped currency column holds a recognised code, and the name is not blank or
      else the mapped fields are well filled. In particular a mapped jurisdiction column sends
      all such rows to review. */
  lemma DirectRowStatus(row: Row, fields: FieldMapping)
    ensures StatusAt(BasicOutput(row, fields), fields) == AUTO_APPROVED <==>
      && !IsMapped(fields, Jurisdiction)
      && (IsMapped(fields, Currency) ==> DirectCurrency(row, fields).Given?)
      && (!Blank(DirectName(row, fields)) || WellMapped(BasicOutput(row, fields), fields))
  {
    hide Blank, Upper, CellOf, Shown, ExtractCurrency, IsMapped, MappingScore, Issues, Scored, TotalWeight;
    var output := BasicOutput(row, fields);
    DirectRowIssues(row, fields);
    OneIssue(EMPTY_NAME);
    NoWeight();
    OverallIs(output, Issues(output), fields);
    MappingScoreIs(output, fields);
    DirectRowMapping(row, fields);
  }

  /** A row is stored as approved and yet queued exactly when its confidence reaches the threshold
      and it has two issues, or an issue other than excessive precision. */
  lemma ApprovedAndQueuedIff(output: Output, fields: FieldMapping)
    ensures StatusAt(output, fields) == AUTO_APPROVED && EscalationOf(output, fields).shouldEscalate <==>
      && ConfidenceOf(output, fields).overall >= 0.65
      && (|Issues(output)| >= 2 || exists i :: i in Issues(output) && i.code != EXCESSIVE_COORDINATE_PRECISION)
  {
    hide Issues, ConfidenceOf, EscalationOf;
    EscalatesIff(output, fields);
  }

  lemma OneFieldFilled()
    ensures var fields: FieldMapping := map[AssetName := Entry(Some("name"), 1.0, [])];
      WellMapped(BasicOutput(Row(map["name" := Text(" ")], 1), fields), fields)
  {
    hide Upper;
  }

  lemma BlankNameIsHigh()
    ensures Verdict([EMPTY_NAME]).valid == false
  {
    hide TotalWeight;
    OneIssue(EMPTY_NAME);
  }

  /** Such rows exist: a blank asset name in a fully mapped row is a high issue, the row is
      escalated with the highest priority, and yet it is stored as approved. */
  lemma ApprovedRowCanBeQueued()
    ensures exists output: Output, fields: FieldMapping ::
      StatusAt(output, fields) == AUTO_APPROVED && EscalationOf(output, fields).priority == 3
  {
    hide EscalationOf, Issues, Blank, ConfidenceOf, Verdict, BasicOutput;
    var fields: FieldMapping := map[AssetName := Entry(Some("name"), 1.0, [])];
    var row := Row(map["name" := Text(" ")], 1);
    var output := BasicOutput(row, fields);
    assert Blank(" ") by { SpaceIsBlank(); }
    assert WellMapped(output, fields) by { OneFieldFilled(); }
    DirectRowStatus(row, fields);
    DirectRowIssues(row, fields);
    BlankNameIsHigh();
    PriorityIs(output, fields);
    assert StatusAt(output, fields) == AUTO_APPROVED;
  }
}
