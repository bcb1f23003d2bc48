/** Row enrichment by a language model: batches of a clamped size, one answer array per batch
    that may be missing, malformed or too short, and a stable partition of the rows into those
    that need the model and those that do not. */
module Enrichment {
  import opened EnrichmentTypes
  import opened Options
  import opened Sequences
  import opened Strings

  const DEFAULT_BATCH_SIZE: nat := 50
  const MAX_BATCH_SIZE: nat := 100

  /** A cell as truthiness and String() see it; `Falsy` also stands for null, 0 and false. */
  datatype Value = Falsy | Text(text: string) | Other(shown: string)

  datatype Row = Row(data: map<string, Value>, sourceRowIndex: int)

  function CellOf(row: Row, key: string): Value {
    if key in row.data then row.data[key] else Falsy
  }

  predicate Truthy(v: Value) { v.Other? || (v.Text? && v.text != "") }

  predicate Has(row: Row, key: string) { Truthy(CellOf(row, key)) }

  predicate NeedsEnrichment(row: Row, fields: FieldMapping) {
    || (!IsMapped(fields, Currency) && !Has(row, "currency"))
    || (!IsMapped(fields, Jurisdiction) && !Has(row, "jurisdiction"))
    || ((!IsMapped(fields, Latitude) || !IsMapped(fields, Longitude))
        && (!Has(row, "latitude") || !Has(row, "longitude")))
  }

  function ExtractCurrency(v: Value): (r: Property<TextValue>)
    ensures !r.Null? && (r.Given? <==> v.Text? && Upper(v.text) in CURRENCY_CODES)
    ensures r.Given? ==> r.value.Words? && r.value.text in CURRENCY_CODES && r.value.text == Upper(v.text)
  {
    if v.Text? && v.text != "" && Upper(v.text) in CURRENCY_CODES then Given(Words(Upper(v.text))) else Undefined
  }

  function Shown(v: Value): string {
    match v
    case Falsy => ""
    case Text(text) => text
    case Other(shown) => shown
  }

  /** The output for a row that goes past the model. */
  function BasicOutput(row: Row, fields: FieldMapping): Output {
    Output(
      Given(Words(Shown(CellOf(row, ColumnOr(fields, AssetName, "asset_name"))))),
      ExtractCurrency(CellOf(row, ColumnOr(fields, Currency, "currency"))),
      Undefined, Undefined, Undefined, Undefined, Given(NO_SIGNALS.(exactValueMatch := true)),
      Given(Words("Direct extraction - no LLM inference required")), false)
  }

  /** The output for a row the model did not answer. */
  const EMPTY_ENRICHMENT :=
    Output(
      Undefined, Undefined, Undefined, Undefined, Undefined, Undefined, Given(NO_SIGNALS.(fieldMissing := true)),
      Given(Words("Enrichment failed - using raw values")), true)

  // ----- one batch -----

  /** What comes back for one batch; `None` is a missing or falsy array element. */
  datatype Reply = Throws | NotAnArray | Answers(results: seq<Option<Output>>)

  datatype Reason = BatchFailed | NoResult | InvalidFormat

  datatype RowError = RowError(rowIndex: int, reason: Reason)

  datatype BatchOutput = BatchOutput(enrichedRows: seq<Output>, errors: seq<RowError>)

  function AnswerTo(reply: Reply, j: nat): Option<Output> {
    if reply.Answers? && j < |reply.results| then reply.results[j] else None
  }

  /** The outputs, at most one, that row `j` of a batch contributes. */
  function OutputFor(reply: Reply, j: nat): seq<Output> {
    if reply.Throws? then []
    else if AnswerTo(reply, j).Some? then [AnswerTo(reply, j).value]
    else [EMPTY_ENRICHMENT]
  }

  /** The errors, at most one, that row `j` of a batch contributes. */
  function ErrorFor(row: Row, reply: Reply, j: nat): seq<RowError> {
    if AnswerTo(reply, j).Some? then []
    else [RowError(row.sourceRowIndex,
                   if reply.Throws? then BatchFailed else if reply.NotAnArray? then InvalidFormat else NoResult)]
  }

  function BatchOutputs(reply: Reply, m: nat): seq<Output> {
    if m == 0 then [] else BatchOutputs(reply, m - 1) + OutputFor(reply, m - 1)
  }

  function BatchErrors(rows: seq<Row>, reply: Reply, m: nat): seq<RowError>
    requires m <= |rows|
  {
    if m == 0 then [] else BatchErrors(rows, reply, m - 1) + ErrorFor(rows[m - 1], reply, m - 1)
  }

  /** `enrichBatch`; an exception of the provider is rethrown. */
  method EnrichBatch(rows: seq<Row>, reply: Reply) returns (r: Result<BatchOutput, Reason>)
    ensures reply.Throws? ==> r == Err(BatchFailed)
    ensures !reply.Throws? ==>
      r == Ok(BatchOutput(BatchOutputs(reply, |rows|), BatchErrors(rows, reply, |rows|)))
  {
    var enrichedRows, errors := [], [];
    match reply {
      case Throws => return Err(BatchFailed);
      case Answers(results) =>
        for i := 0 to |rows|
          invariant enrichedRows == BatchOutputs(reply, i) && errors == BatchErrors(rows, reply, i)
        {
          if i < |results| && results[i].Some? {
            enrichedRows := enrichedRows + [results[i].value];
          } else {
            errors := errors + [RowError(rows[i].sourceRowIndex, NoResult)];
            enrichedRows := enrichedRows + [EMPTY_ENRICHMENT];
          }
        }
      case NotAnArray =>
        for i := 0 to |rows|
          invariant enrichedRows == BatchOutputs(reply, i) && errors == BatchErrors(rows, reply, i)
        {
          errors := errors + [RowError(rows[i].sourceRowIndex, InvalidFormat)];
          enrichedRows := enrichedRows + [EMPTY_ENRICHMENT];
        }
    }
    return Ok(BatchOutput(enrichedRows, errors));
  }

  // ----- all batches, row by row -----

  function BatchOf(size: nat, p: nat): nat
    requires size > 0
  {
    p / size
  }

  function PlaceOf(size: nat, p: nat): nat
    requires size > 0
  {
    p % size
  }

  function FirstOf(size: nat, batch: nat): nat { size * batch }

  /** What the first `n` rows contribute, each at its place in its batch. */
  function Gathered(replies: nat -> Reply, size: nat, n: nat): seq<Output>
    requires size > 0
  {
    if n == 0 then [] else Gathered(replies, size, n - 1) + OutputFor(replies(BatchOf(size, n - 1)), PlaceOf(size, n - 1))
  }

  function Complaints(rows: seq<Row>, replies: nat -> Reply, size: nat, n: nat): seq<RowError>
    requires size > 0 && n <= |rows|
  {
    if n == 0 then []
    else Complaints(rows, replies, size, n - 1) + ErrorFor(rows[n - 1], replies(BatchOf(size, n - 1)), PlaceOf(size, n - 1))
  }

  function SafeBatchSize(batchSize: int): (size: nat)
    ensures 1 <= size <= MAX_BATCH_SIZE
    ensures 1 <= batchSize <= MAX_BATCH_SIZE ==> size == batchSize
    ensures batchSize < 1 ==> size == 1
    ensures batchSize > MAX_BATCH_SIZE ==> size == MAX_BATCH_SIZE
  {
    var atLeastOne := if batchSize >= 1 then batchSize else 1;
    if atLeastOne <= MAX_BATCH_SIZE then atLeastOne else MAX_BATCH_SIZE
  }

  lemma Position(size: nat, i: nat, j: nat)
    requires j < size
    ensures BatchOf(size, FirstOf(size, i) + j) == i && PlaceOf(size, FirstOf(size, i) + j) == j
  {
    DivisionUnique(size * i + j, size, i);
  }

  lemma FirstOrder(size: nat, i: nat, j: nat)
    requires 0 < size && i < j
    ensures BatchOf(size, i) <= BatchOf(size, j) && FirstOf(size, BatchOf(size, j)) <= j
    ensures FirstOf(size, i) < FirstOf(size, j)
  {
    var d := i / size - j / size;
    assert i == size * (i / size) + i % size && j == size * (j / size) + j % size;
    assert size * (i / size) == size * (j / size) + size * d;
    assert d >= 1 ==> size * d >= size;
    assert size * j == size * i + size * (j - i);
  }

  /** The next `m` positions after `i` full batches are the first `m` rows of batch `i`. */
  lemma {:induction false} GatherBatch(replies: nat -> Reply, size: nat, i: nat, m: nat)
    requires 0 < size && m <= size
    ensures Gathered(replies, size, FirstOf(size, i) + m)
         == Gathered(replies, size, FirstOf(size, i)) + BatchOutputs(replies(i), m)
  {
    hide OutputFor, BatchOf, PlaceOf, FirstOf;
    if m > 0 {
      GatherBatch(replies, size, i, m - 1);
      Position(size, i, m - 1);
    }
  }

  lemma {:induction false} ComplainBatch(
    rows: seq<Row>, replies: nat -> Reply, size: nat, i: nat, batch: seq<Row>, m: nat)
    requires 0 < size && m <= size && m <= |batch| && FirstOf(size, i) + m <= |rows|
    requires forall j :: 0 <= j < m ==> batch[j] == rows[FirstOf(size, i) + j]
    ensures Complaints(rows, replies, size, FirstOf(size, i) + m)
         == Complaints(rows, replies, size, FirstOf(size, i)) + BatchErrors(batch, replies(i), m)
  {
    hide ErrorFor, BatchOf, PlaceOf, FirstOf;
    if m > 0 {
      ComplainBatch(rows, replies, size, i, batch, m - 1);
      Position(size, i, m - 1);
    }
  }

  lemma NothingGathered(rows: seq<Row>, replies: nat -> Reply, size: nat)
    requires size > 0
    ensures Gathered(replies, size, 0) == [] && Complaints(rows, replies, size, 0) == []
  {
  }

  /** The loop that reports every row of a batch whose call threw. */
  method ReportFailedBatch(batch: seq<Row>) returns (errors: seq<RowError>)
    ensures |errors| == |batch|
    ensures forall j :: 0 <= j < |batch| ==> errors[j] == RowError(batch[j].sourceRowIndex, BatchFailed)
  {
    errors := [];
    for j := 0 to |batch|
      invariant |errors| == j
      invariant forall k :: 0 <= k < j ==> errors[k] == RowError(batch[k].sourceRowIndex, BatchFailed)
    {
      errors := errors + [RowError(batch[j].sourceRowIndex, BatchFailed)];
    }
  }

  lemma FailedRow(row: Row, reply: Reply, j: nat)
    requires reply.Throws?
    ensures OutputFor(reply, j) == [] && ErrorFor(row, reply, j) == [RowError(row.sourceRowIndex, BatchFailed)]
  {
  }

  /** A failed batch contributes no output and one error per row. */
  lemma {:induction false} FailedBatch(batch: seq<Row>, reply: Reply, m: nat)
    requires reply.Throws? && m <= |batch|
    ensures BatchOutputs(reply, m) == []
    ensures |BatchErrors(batch, reply, m)| == m
    ensures forall j :: 0 <= j < m ==> BatchErrors(batch, reply, m)[j] == RowError(batch[j].sourceRowIndex, BatchFailed)
  {
    hide OutputFor, ErrorFor;
    if m > 0 {
      FailedBatch(batch, reply, m - 1);
      FailedRow(batch[m - 1], reply, m - 1);
    }
  }

  /** `processBatch`: the batches are gone from the result, except that a failing call takes all
      rows of its batch with it. */
  method ProcessBatch(rows: seq<Row>, batchSize: int, replies: nat -> Reply) returns (r: BatchOutput)
    ensures r.enrichedRows == Gathered(replies, SafeBatchSize(batchSize), |rows|)
    ensures r.errors == Complaints(rows, replies, SafeBatchSize(batchSize), |rows|)
  {
    hide Chunk, Gathered, Complaints, OutputFor, ErrorFor, BatchOutputs, BatchErrors;
    if |rows| == 0 {
      NothingGathered(rows, replies, SafeBatchSize(batchSize));
      return BatchOutput([], []);
    }
    var size := SafeBatchSize(batchSize);
    var batches := ChunkArray(rows, size);
    var allEnrichedRows: seq<Output>, allErrors: seq<RowError> := [], [];
    NothingGathered(rows, replies, size);
    ChunkLengths(rows, size);
    ghost var done := 0;
    for i := 0 to |batches|
      invariant done == (if FirstOf(size, i) <= |rows| then FirstOf(size, i) else |rows|)
      invariant allEnrichedRows == Gathered(replies, size, done)
      invariant allErrors == Complaints(rows, replies, size, done)
    {
      var batch := batches[i];
      ChunkAt(rows, size, i);
      done := FirstOf(size, i) + |batch|;
      GatherBatch(replies, size, i, |batch|);
      ComplainBatch(rows, replies, size, i, batch, |batch|);
      var result := EnrichBatch(batch, replies(i));
      match result
      case Ok(output) =>
        allEnrichedRows := allEnrichedRows + output.enrichedRows;
        allErrors := allErrors + output.errors;
      case Err(_) =>
        var failures := ReportFailedBatch(batch);
        FailedBatch(batch, replies(i), |batch|);
        assert failures == BatchErrors(batch, replies(i), |batch|);
        allErrors := allErrors + failures;
    }
    r := BatchOutput(allEnrichedRows, allErrors);
  }

  // ----- accounting -----

  function Survives(replies: nat -> Reply, size: nat): nat -> bool
    requires size > 0
  {
    (p: nat) => !replies(BatchOf(size, p)).Throws?
  }

  function Answered(replies: nat -> Reply, size: nat): nat -> bool
    requires size > 0
  {
    (p: nat) => AnswerTo(replies(BatchOf(size, p)), PlaceOf(size, p)).Some?
  }

  const IS_BATCH_FAILURE: RowError -> bool := (e: RowError) => e.reason == BatchFailed

  lemma OneOrTheOther(row: Row, reply: Reply, j: nat)
    ensures |OutputFor(reply, j)| == if reply.Throws? then 0 else 1
    ensures |OutputFor(reply, j)| + Count(IS_BATCH_FAILURE, ErrorFor(row, reply, j)) == 1
    ensures |ErrorFor(row, reply, j)| == if AnswerTo(reply, j).Some? then 0 else 1
  {
    var e := ErrorFor(row, reply, j);
    if e != [] {
      assert e[1..] == [];
    }
  }

  /** Every row of a batch that came back has one output and every row of a failed batch has one
      error saying so; all errors together are one for each row the model did not answer. */
  lemma {:induction false} EveryRowIsAccountedFor(rows: seq<Row>, replies: nat -> Reply, size: nat, n: nat)
    requires 0 < size && n <= |rows|
    ensures |Gathered(replies, size, n)| == |Select(Survives(replies, size), n)|
    ensures |Gathered(replies, size, n)| + Count(IS_BATCH_FAILURE, Complaints(rows, replies, size, n)) == n
    ensures |Complaints(rows, replies, size, n)| + |Select(Answered(replies, size), n)| == n
  {
    hide OutputFor, ErrorFor, AnswerTo, BatchOf, PlaceOf;
    if n > 0 {
      EveryRowIsAccountedFor(rows, replies, size, n - 1);
      var reply, j := replies(BatchOf(size, n - 1)), PlaceOf(size, n - 1);
      OneOrTheOther(rows[n - 1], reply, j);
      CountAppend(IS_BATCH_FAILURE, Complaints(rows, replies, size, n - 1), ErrorFor(rows[n - 1], reply, j));
    }
  }

  /** Output `k` is the output for the `k`-th row whose batch came back. */
  lemma {:induction false} OutputsBelongToSurvivors(replies: nat -> Reply, size: nat, n: nat)
    requires 0 < size
    ensures var s := Select(Survives(replies, size), n);
      && |Gathered(replies, size, n)| == |s|
      && forall k :: 0 <= k < |s| ==> OutputFor(replies(BatchOf(size, s[k])), PlaceOf(size, s[k])) == [Gathered(replies, size, n)[k]]
  {
    hide AnswerTo, BatchOf, PlaceOf;
    if n > 0 {
      OutputsBelongToSurvivors(replies, size, n - 1);
    }
  }

  // ----- the partition, and which row an output belongs to -----

  function Needy(fields: FieldMapping): Row -> bool {
    (row: Row) => NeedsEnrichment(row, fields)
  }

  function Direct(fields: FieldMapping): Row -> bool {
    (row: Row) => !NeedsEnrichment(row, fields)
  }

  /** The positions of the rows that satisfy `p`. */
  function Where(p: Row -> bool, rows: seq<Row>): nat -> bool {
    (i: nat) => i < |rows| && p(rows[i])
  }

  function BasicOutputs(rows: seq<Row>, fields: FieldMapping): seq<Output> {
    seq(|rows|, k requires 0 <= k < |rows| => BasicOutput(rows[k], fields))
  }

  function Combined(allRows: seq<Row>, fields: FieldMapping, replies: nat -> Reply): seq<Output> {
    BasicOutputs(Filter(Direct(fields), allRows), fields)
    + Gathered(replies, DEFAULT_BATCH_SIZE, |Filter(Needy(fields), allRows)|)
  }

  /** The part of `inferSchemaAndEnrich` after schema inference: direct rows first, then the
      others in the order of their batches. */
  method InferSchemaAndEnrich(allRows: seq<Row>, fields: FieldMapping, replies: nat -> Reply) returns (r: BatchOutput)
    ensures r.enrichedRows == Combined(allRows, fields, replies)
    ensures var toEnrich := Filter(Needy(fields), allRows);
      r.errors == Complaints(toEnrich, replies, DEFAULT_BATCH_SIZE, |toEnrich|)
  {
    var rowsToEnrich := Filter(Needy(fields), allRows);
    var rowsWithoutEnrichment := Filter(Direct(fields), allRows);
    var basicOutputs := BasicOutputs(rowsWithoutEnrichment, fields);
    var enrichedOutputs: seq<Output>, errors: seq<RowError> := [], [];
    if |rowsToEnrich| > 0 {
      var result := ProcessBatch(rowsToEnrich, DEFAULT_BATCH_SIZE, replies);
      enrichedOutputs := result.enrichedRows;
      errors := result.errors;
    }
    r := BatchOutput(basicOutputs + enrichedOutputs, errors);
  }

  /** For each combined output, the position of the row it was made from. */
  function Sources(allRows: seq<Row>, fields: FieldMapping, replies: nat -> Reply): seq<nat> {
    var needy := Select(Where(Needy(fields), allRows), |allRows|);
    var survivors := Select(Survives(replies, DEFAULT_BATCH_SIZE), |needy|);
    SelectShape(Survives(replies, DEFAULT_BATCH_SIZE), |needy|);
    Select(Where(Direct(fields), allRows), |allRows|)
    + seq(|survivors|, k requires 0 <= k < |survivors| => needy[survivors[k]])
  }

  lemma {:induction false} FilterSelects(p: Row -> bool, rows: seq<Row>, n: nat)
    requires n <= |rows|
    ensures var s := Select(Where(p, rows), n);
      && |Filter(p, rows[..n])| == |s|
      && forall k :: 0 <= k < |s| ==> s[k] < n && Filter(p, rows[..n])[k] == rows[s[k]]
  {
    if n > 0 {
      FilterSelects(p, rows, n - 1);
      assert rows[..n] == rows[..n - 1] + [rows[n - 1]];
      FilterPush(p, rows[..n - 1], rows[n - 1]);
    }
  }

  lemma {:induction false} SelectAtMost(p: nat -> bool, n: nat)
    ensures |Select(p, n)| <= n
  {
    if n > 0 {
      SelectAtMost(p, n - 1);
    }
  }

  /** The combined output is never longer than the input, and each entry is indeed made from the
      row at its source position: directly, or from that row's place in its batch. */
  lemma SourcesAreOrigins(allRows: seq<Row>, fields: FieldMapping, replies: nat -> Reply)
    ensures var outputs, sources := Combined(allRows, fields, replies), Sources(allRows, fields, replies);
      var needy := Select(Where(Needy(fields), allRows), |allRows|);
      && |outputs| == |sources| <= |allRows|
      && forall k :: 0 <= k < |outputs| ==>
           && sources[k] < |allRows|
           && if NeedsEnrichment(allRows[sources[k]], fields)
              then exists p: nat :: p < |needy| && needy[p] == sources[k]
                     && OutputFor(replies(BatchOf(DEFAULT_BATCH_SIZE, p)), PlaceOf(DEFAULT_BATCH_SIZE, p)) == [outputs[k]]
              else outputs[k] == BasicOutput(allRows[sources[k]], fields)
  {
    hide Select, Filter, Gathered, OutputFor, NeedsEnrichment, BasicOutput, BatchOf, PlaceOf;
    var n := |allRows|;
    assert allRows[..n] == allRows;
    FilterSelects(Needy(fields), allRows, n);
    FilterSelects(Direct(fields), allRows, n);
    var needy, direct := Select(Where(Needy(fields), allRows), n), Select(Where(Direct(fields), allRows), n);
    SelectShape(Where(Needy(fields), allRows), n);
    SelectShape(Where(Direct(fields), allRows), n);
    SelectSplits(Where(Needy(fields), allRows), Where(Direct(fields), allRows), n);
    var survives := Survives(replies, DEFAULT_BATCH_SIZE);
    var survivors := Select(survives, |needy|);
    SelectShape(survives, |needy|);
    SelectAtMost(survives, |needy|);
    OutputsBelongToSurvivors(replies, DEFAULT_BATCH_SIZE, |needy|);
    var outputs, sources := Combined(allRows, fields, replies), Sources(allRows, fields, replies);
    forall k | 0 <= k < |outputs|
      ensures sources[k] < |allRows|
      ensures if NeedsEnrichment(allRows[sources[k]], fields)
        then exists p: nat :: p < |needy| && needy[p] == sources[k]
               && OutputFor(replies(BatchOf(DEFAULT_BATCH_SIZE, p)), PlaceOf(DEFAULT_BATCH_SIZE, p)) == [outputs[k]]
        else outputs[k] == BasicOutput(allRows[sources[k]], fields)
    {
      if k < |direct| {
        assert sources[k] == direct[k];
      } else {
        var p := survivors[k - |direct|];
        assert sources[k] == needy[p];
        assert needy[p] == sources[k];
      }
    }
  }

  /** Nothing vanishes silently: the combined outputs and the rows reported as part of a failed
      batch add up to the input. */
  lemma NoRowIsLost(allRows: seq<Row>, fields: FieldMapping, replies: nat -> Reply)
    ensures var toEnrich := Filter(Needy(fields), allRows);
      |Combined(allRows, fields, replies)|
      + Count(IS_BATCH_FAILURE, Complaints(toEnrich, replies, DEFAULT_BATCH_SIZE, |toEnrich|)) == |allRows|
  {
    hide Gathered, Complaints, Count;
    var n := |allRows|;
    assert allRows[..n] == allRows;
    FilterSelects(Needy(fields), allRows, n);
    FilterSelects(Direct(fields), allRows, n);
    SelectSplits(Where(Needy(fields), allRows), Where(Direct(fields), allRows), n);
    var toEnrich := Filter(Needy(fields), allRows);
    EveryRowIsAccountedFor(toEnrich, replies, DEFAULT_BATCH_SIZE, |toEnrich|);
  }

  ghost predicate NeedyRowsComeLast(allRows: seq<Row>, fields: FieldMapping) {
    forall i, j :: 0 <= i < j < |allRows| && NeedsEnrichment(allRows[i], fields) ==> NeedsEnrichment(allRows[j], fields)
  }

  /** No batch of the first `m` rows sent to the model fails before one that comes back. */
  ghost predicate FailuresComeLast(replies: nat -> Reply, size: nat, m: nat) {
    forall b: nat, c: nat :: b < c && FirstOf(size, c) < m && replies(b).Throws? ==> replies(c).Throws?
  }

  lemma NoGapIff(allRows: seq<Row>, fields: FieldMapping)
    ensures NoGap(Where(Direct(fields), allRows), |allRows|) <==> NeedyRowsComeLast(allRows, fields)
  {
    var p := Where(Direct(fields), allRows);
    if NoGap(p, |allRows|) {
      forall i: nat, j: nat | i < j < |allRows| && NeedsEnrichment(allRows[i], fields)
        ensures NeedsEnrichment(allRows[j], fields)
      {
        assert p(i) || !p(j);
      }
    }
  }

  lemma NoFailureGapIff(replies: nat -> Reply, size: nat, m: nat)
    requires size > 0
    ensures NoGap(Survives(replies, size), m) <==> FailuresComeLast(replies, size, m)
  {
    hide BatchOf, PlaceOf, FirstOf;
    var p := Survives(replies, size);
    if NoGap(p, m) {
      forall b: nat, c: nat | b < c && FirstOf(size, c) < m && replies(b).Throws? ensures replies(c).Throws? {
        Position(size, b, 0);
        Position(size, c, 0);
        FirstOrder(size, b, c);
        assert p(FirstOf(size, b)) || !p(FirstOf(size, c));
      }
    }
    if FailuresComeLast(replies, size, m) {
      forall i: nat, j: nat | i < j < m && p(j) ensures p(i) {
        FirstOrder(size, i, j);
        var before, here := replies(BatchOf(size, i)), replies(BatchOf(size, j));
      }
    }
  }

  lemma NeedyFollowDirect(allRows: seq<Row>, fields: FieldMapping)
    requires IsPrefix(Select(Where(Direct(fields), allRows), |allRows|))
    ensures var direct := |Select(Where(Direct(fields), allRows), |allRows|)|;
      var needy := Select(Where(Needy(fields), allRows), |allRows|);
      forall k :: 0 <= k < |needy| ==> needy[k] == direct + k
  {
    var n := |allRows|;
    var isNeedy, isDirect := Where(Needy(fields), allRows), Where(Direct(fields), allRows);
    var direct := Select(isDirect, n);
    SelectShape(isDirect, n);
    SelectAtMost(isDirect, n);
    forall i: nat | i < n ensures isNeedy(i) <==> |direct| <= i {
      if i < |direct| {
        assert direct[i] == i;
      }
      if isDirect(i) {
        assert i in direct;
      }
    }
    SelectOfSuffix(isNeedy, |direct|, n);
  }

  lemma SourcesAt(allRows: seq<Row>, fields: FieldMapping, replies: nat -> Reply)
    ensures var direct := Select(Where(Direct(fields), allRows), |allRows|);
      var needy := Select(Where(Needy(fields), allRows), |allRows|);
      var picks := Select(Survives(replies, DEFAULT_BATCH_SIZE), |needy|);
      var sources := Sources(allRows, fields, replies);
      && |sources| == |direct| + |picks|
      && (forall k :: 0 <= k < |picks| ==> picks[k] < |needy|)
      && (forall k :: 0 <= k < |direct| ==> sources[k] == direct[k])
      && forall k :: |direct| <= k < |sources| ==> sources[k] == needy[picks[k - |direct|]]
  {
    var needy := Select(Where(Needy(fields), allRows), |allRows|);
    SelectShape(Survives(replies, DEFAULT_BATCH_SIZE), |needy|);
  }

  /** The caller pairs output `k` with input row `k`. That pairs every output with the row it was
      made from exactly when the rows that need the model all come after those that do not, and
      failed batches after those that came back. */
  lemma PairingIsRightIff(allRows: seq<Row>, fields: FieldMapping, replies: nat -> Reply)
    ensures IsPrefix(Sources(allRows, fields, replies)) <==>
      && NeedyRowsComeLast(allRows, fields)
      && FailuresComeLast(replies, DEFAULT_BATCH_SIZE, |Filter(Needy(fields), allRows)|)
  {
    hide Select, Filter, IsPrefix, NoGap, NeedyRowsComeLast, FailuresComeLast, Sources;
    var n := |allRows|;
    var direct := Select(Where(Direct(fields), allRows), n);
    var needy := Select(Where(Needy(fields), allRows), n);
    var survives := Survives(replies, DEFAULT_BATCH_SIZE);
    assert allRows[..n] == allRows;
    FilterSelects(Needy(fields), allRows, n);
    SelectIsPrefixIff(Where(Direct(fields), allRows), n);
    SelectIsPrefixIff(survives, |needy|);
    NoGapIff(allRows, fields);
    NoFailureGapIff(replies, DEFAULT_BATCH_SIZE, |needy|);
    if IsPrefix(direct) {
      NeedyFollowDirect(allRows, fields);
    }
    SourcesAt(allRows, fields, replies);
    PrefixThenPicks(direct, needy, Select(survives, |needy|), Sources(allRows, fields, replies));
  }

  /** Two rows of which only the first needs the model: its output lands on the second. */
  lemma PairingCanBeWrong()
    ensures exists allRows: seq<Row>, fields: FieldMapping, replies: nat -> Reply ::
      (forall b: nat :: replies(b).Answers?) && !IsPrefix(Sources(allRows, fields, replies))
  {
    hide Sources;
    var fields: FieldMapping := map[];
    var bare := Row(map[], 1);
    var full := Row(map["currency" := Text("USD"), "jurisdiction" := Text("FR"),
                        "latitude" := Text("1"), "longitude" := Text("2")], 2);
    var allRows := [bare, full];
    var replies: nat -> Reply := (b: nat) => Answers([Some(EMPTY_ENRICHMENT)]);
    PairingIsRightIff(allRows, fields, replies);
    assert NeedsEnrichment(allRows[0], fields) && !NeedsEnrichment(allRows[1], fields);
    assert !IsPrefix(Sources(allRows, fields, replies));
    assert forall b: nat :: replies(b).Answers?;
  }
}
