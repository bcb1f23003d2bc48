/** Bulk insertion: one transaction per call, saved in slices of a hundred, and the batch service
    that calls it once per chunk of candidates. */
module Persistence {
  import opened Options
  import opened Sequences
  import opened Strings

  /** The columns that tell how a field came about. */
  datatype Origin = Origin(reviewStatus: string, extractionStrategy: string, extractionMethod: string, isInferred: bool)

  /** A row to insert, but for its creation time. */
  datatype FieldData = FieldData(
    documentId: string, extractionJobId: Option<string>, fieldName: string, rawAssetName: string, rawValue: string,
    normalizedValue: Option<string>, confidence: real, sourceRowIndex: int, sourceSheetName: Option<string>,
    origin: Origin)

  datatype Failure = ConnectFailed | BeginFailed | SaveFailed(slice: nat) | CommitFailed

  /** What the database does during one call: which step, if any, throws. */
  datatype Fate = Fate(connects: bool, begins: bool, saves: nat -> bool, commits: bool)

  const CHUNK_SIZE: nat := 100

  const HAS_NAME: FieldData -> bool := (d: FieldData) => !Blank(d.fieldName)

  /** The first slice whose save throws. */
  function FirstFailure(fate: Fate, from: nat, slices: nat): Option<nat>
    requires from <= slices
    decreases slices - from
  {
    if from == slices then None else if !fate.saves(from) then Some(from) else FirstFailure(fate, from + 1, slices)
  }

  /** The outcome of `bulkInsertWithTransaction`: the number of rows saved, or what threw. */
  function InsertOutcome(data: seq<FieldData>, fate: Fate): Result<nat, Failure> {
    var valid := Filter(HAS_NAME, data);
    var slices := |Chunk(valid, CHUNK_SIZE)|;
    if valid == [] then Ok(0)
    else if !fate.connects then Err(ConnectFailed)
    else if !fate.begins then Err(BeginFailed)
    else if FirstFailure(fate, 0, slices).Some? then Err(SaveFailed(FirstFailure(fate, 0, slices).value))
    else if !fate.commits then Err(CommitFailed)
    else Ok(|valid|)
  }

  class ExtractedAssetFieldRepository {
    var table: seq<FieldData>

    constructor ()
      ensures table == []
    {
      table := [];
    }

    /** The loop inside the transaction: saves slice after slice until one throws. */
    method SaveSlices(validData: seq<FieldData>, fate: Fate) returns (totalSaved: nat, failed: Option<nat>)
      modifies this
      ensures failed == FirstFailure(fate, 0, |Chunk(validData, CHUNK_SIZE)|)
      ensures failed.None? ==> totalSaved == |validData| && table == old(table) + validData
    {
      hide Chunk;
      totalSaved := 0;
      ghost var slices := |Chunk(validData, CHUNK_SIZE)|;
      ChunkLengths(validData, CHUNK_SIZE);
      var slice, i := 0, 0;
      while i < |validData|
        invariant i == CHUNK_SIZE * slice && slice <= slices
        invariant totalSaved == (if i <= |validData| then i else |validData|)
        invariant table == old(table) + validData[..totalSaved]
        invariant FirstFailure(fate, 0, slices) == FirstFailure(fate, slice, slices)
        decreases |validData| - i
      {
        var end := if i + CHUNK_SIZE <= |validData| then i + CHUNK_SIZE else |validData|;
        var entities := validData[i..end];
        if !fate.saves(slice) { return totalSaved, Some(slice); }
        assert validData[..i] + entities == validData[..end];
        table := table + entities;
        totalSaved := totalSaved + |entities|;
        slice := slice + 1;
        i := i + CHUNK_SIZE;
      }
      assert validData[..|validData|] == validData;
      return totalSaved, None;
    }

    /** All or nothing: on success exactly the named rows are appended, in order; on any failure
        the table is as it was. The slice size does not show in the result. */
    method BulkInsertWithTransaction(data: seq<FieldData>, fate: Fate) returns (r: Result<nat, Failure>)
      modifies this
      ensures r == InsertOutcome(data, fate)
      ensures table == old(table) + (if r.Ok? then Filter(HAS_NAME, data) else [])
    {
      hide Chunk, FirstFailure;
      if |data| == 0 { return Ok(0); }
      var validData := Filter(HAS_NAME, data);
      if |validData| == 0 { return Ok(0); }
      if !fate.connects { return Err(ConnectFailed); }
      if !fate.begins { return Err(BeginFailed); }
      var snapshot := table; // startTransaction: rollback returns to this state
      var totalSaved, failed := SaveSlices(validData, fate);
      if failed.Some? {
        table := snapshot; // rollbackTransaction
        return Err(SaveFailed(failed.value));
      }
      if !fate.commits {
        table := snapshot; // rollbackTransaction
        return Err(CommitFailed);
      }
      return Ok(totalSaved);
    }
  }

  // ----- the batch service -----

  /** Serialised row data; `None` for a missing record. */
  datatype RowRecord = RowRecord(json: string, columns: nat)

  /** `sourceRowIndex` is `None` when it is not a number. */
  datatype Candidate =
    | NullCandidate
    | Candidate(
        rawAssetName: Option<string>, sourceRowIndex: Option<int>, sourceSheetName: Option<string>,
        overallConfidence: Option<real>, rawRowData: Option<RowRecord>, normalizedRowData: Option<RowRecord>)

  /** The document and job a batch belongs to. */
  datatype Job = Job(documentId: string, extractionJobId: Option<string>)

  function RawData(c: Candidate): Option<RowRecord> {
    if c.NullCandidate? then None else if c.rawRowData.Some? then c.rawRowData else c.normalizedRowData
  }

  /** An empty text counts as absent. */
  function OrNull(text: Option<string>): Option<string> {
    if text == Some("") then None else text
  }

  /** A null candidate, one without data, or one with an empty record is skipped. */
  const HAS_DATA: Candidate -> bool := (c: Candidate) => RawData(c).Some? && RawData(c).value.columns > 0

  function DefaultName(index: int): string {
    "asset_" + (if index < 0 then "-" + Decimal(-index) else Decimal(index))
  }

  function RowIndex(c: Candidate): int {
    if c.NullCandidate? || c.sourceRowIndex.None? then 0 else c.sourceRowIndex.value
  }

  const TABLE_ROW := Origin("pending", "TABLE_EXTRACTION", "TABLE_EXTRACTION", false)

  function FieldOf(job: Job, c: Candidate): FieldData
    requires HAS_DATA(c)
  {
    FieldData(
      job.documentId, OrNull(job.extractionJobId), "row_data",
      if OrNull(c.rawAssetName).Some? then c.rawAssetName.value else DefaultName(RowIndex(c)),
      RawData(c).value.json,
      if c.normalizedRowData.Some? then Some(c.normalizedRowData.value.json) else None,
      if c.overallConfidence.Some? then c.overallConfidence.value else 0.8,
      RowIndex(c), OrNull(c.sourceSheetName), TABLE_ROW)
  }

  function FieldsOf(job: Job, c: Candidate): seq<FieldData> {
    if HAS_DATA(c) then [FieldOf(job, c)] else []
  }

  function Transformed(job: Job, candidates: seq<Candidate>): seq<FieldData> {
    if candidates == [] then [] else FieldsOf(job, candidates[0]) + Transformed(job, candidates[1..])
  }

  lemma {:induction false} TransformedAppend(job: Job, a: seq<Candidate>, b: seq<Candidate>)
    ensures Transformed(job, a + b) == Transformed(job, a) + Transformed(job, b)
  {
    hide FieldsOf;
    if a == [] {
      assert a + b == b;
    } else {
      assert (a + b)[0] == a[0] && (a + b)[1..] == a[1..] + b;
      TransformedAppend(job, a[1..], b);
      assert FieldsOf(job, a[0]) + (Transformed(job, a[1..]) + Transformed(job, b))
          == (FieldsOf(job, a[0]) + Transformed(job, a[1..])) + Transformed(job, b);
    }
  }

  lemma TransformedPush(job: Job, candidates: seq<Candidate>, c: Candidate)
    ensures Transformed(job, candidates + [c]) == Transformed(job, candidates) + FieldsOf(job, c)
  {
    hide FieldsOf;
    TransformedAppend(job, candidates, [c]);
    assert [c][1..] == [];
  }

  method TransformCandidatesToInsertData(job: Job, candidates: seq<Candidate>) returns (fieldsToInsert: seq<FieldData>)
    ensures fieldsToInsert == Transformed(job, candidates)
  {
    fieldsToInsert := [];
    for i := 0 to |candidates|
      invariant fieldsToInsert == Transformed(job, candidates[..i])
    {
      assert candidates[..i + 1] == candidates[..i] + [candidates[i]];
      TransformedPush(job, candidates[..i], candidates[i]);
      if HAS_DATA(candidates[i]) {
        fieldsToInsert := fieldsToInsert + [FieldOf(job, candidates[i])];
      }
    }
    assert candidates[..|candidates|] == candidates;
  }

  lemma RowDataIsAName()
    ensures !Blank("row_data")
  {
    TrimFixed("row_data");
  }

  /** Every transformed row carries a name, so the repository drops none of them. */
  lemma {:induction false} TransformedAreNamed(job: Job, candidates: seq<Candidate>)
    ensures Filter(HAS_NAME, Transformed(job, candidates)) == Transformed(job, candidates)
  {
    if candidates != [] {
      TransformedAreNamed(job, candidates[1..]);
      RowDataIsAName();
      var head := FieldsOf(job, candidates[0]);
      FilterAppend(HAS_NAME, head, Transformed(job, candidates[1..]));
      if head != [] {
        assert head[1..] == [];
      }
    }
  }

  datatype RowError = RowError(rowIndex: Option<int>, reason: Failure)

  datatype BatchResult = BatchResult(savedAssets: nat, savedFields: nat, errors: seq<RowError>)

  function IndexOf(c: Candidate): Option<int> {
    if c.NullCandidate? then None else c.sourceRowIndex
  }

  function Failures(candidates: seq<Candidate>, reason: Failure): seq<RowError> {
    seq(|candidates|, i requires 0 <= i < |candidates| => RowError(IndexOf(candidates[i]), reason))
  }

  function Outcome(job: Job, chunk: seq<Candidate>, fate: Fate): Result<nat, Failure> {
    InsertOutcome(Transformed(job, chunk), fate)
  }

  /** What one transaction over a chunk leaves in the table. */
  function Kept(job: Job, chunk: seq<Candidate>, fate: Fate): seq<FieldData> {
    if Outcome(job, chunk, fate).Ok? then Transformed(job, chunk) else []
  }

  /** What one transaction over a chunk reports: an error for each of its candidates, or nothing. */
  function Lost(job: Job, chunk: seq<Candidate>, fate: Fate): seq<RowError> {
    if Outcome(job, chunk, fate).Err? then Failures(chunk, Outcome(job, chunk, fate).error) else []
  }

  /** The rows the first `n` chunks leave in the table, given what happens to each. */
  function Stored(job: Job, chunks: seq<seq<Candidate>>, fates: nat -> Fate, n: nat): seq<FieldData>
    requires n <= |chunks|
  {
    if n == 0 then [] else Stored(job, chunks, fates, n - 1) + Kept(job, chunks[n - 1], fates(n - 1))
  }

  function Reported(job: Job, chunks: seq<seq<Candidate>>, fates: nat -> Fate, n: nat): seq<RowError>
    requires n <= |chunks|
  {
    if n == 0 then [] else Reported(job, chunks, fates, n - 1) + Lost(job, chunks[n - 1], fates(n - 1))
  }

  /** Reporting the failure of a chunk dereferences each candidate, and so throws on a null one. */
  predicate Escapes(job: Job, chunk: seq<Candidate>, fate: Fate) {
    Outcome(job, chunk, fate).Err? && exists i :: 0 <= i < |chunk| && chunk[i].NullCandidate?
  }

  datatype NullError = NullDereferenced

  lemma NothingToInsert(fate: Fate)
    ensures InsertOutcome([], fate) == Ok(0)
  {
  }

  lemma InsertsAll(data: seq<FieldData>, fate: Fate)
    requires Filter(HAS_NAME, data) == data && InsertOutcome(data, fate).Ok?
    ensures InsertOutcome(data, fate) == Ok(|data|)
  {
  }

  /** `persistBatchWithTransaction`, and the same code as `persistChunk`: failures are returned as
      one error per candidate, and all candidates are reported as saved assets. Only a failure with
      a null candidate in the batch is thrown; the table is then unchanged. */
  method PersistBatchWithTransaction(
    repository: ExtractedAssetFieldRepository, job: Job, candidates: seq<Candidate>, fate: Fate)
    returns (r: Result<BatchResult, NullError>)
    modifies repository
    ensures repository.table == old(repository.table) + Kept(job, candidates, fate)
    ensures r == if Escapes(job, candidates, fate) then Err(NullDereferenced)
      else Ok(BatchResult(|candidates|, |Kept(job, candidates, fate)|, Lost(job, candidates, fate)))
  {
    hide InsertOutcome, Transformed;
    var errors: seq<RowError>, savedFields: nat := [], 0;
    var fieldsToInsert := TransformCandidatesToInsertData(job, candidates);
    TransformedAreNamed(job, candidates);
    NothingToInsert(fate);
    if |fieldsToInsert| > 0 {
      var inserted := repository.BulkInsertWithTransaction(fieldsToInsert, fate);
      match inserted
      case Ok(n) =>
        InsertsAll(fieldsToInsert, fate);
        savedFields := n;
      case Err(reason) =>
        for i := 0 to |candidates|
          invariant errors == Failures(candidates, reason)[..i]
          invariant forall k :: 0 <= k < i ==> !candidates[k].NullCandidate?
        {
          if candidates[i].NullCandidate? { return Err(NullDereferenced); }
          errors := errors + [RowError(candidates[i].sourceRowIndex, reason)];
        }
        assert Failures(candidates, reason)[..|candidates|] == Failures(candidates, reason);
    }
    r := Ok(BatchResult(|candidates|, savedFields, errors));
  }

  lemma EscapeKeepsNothing(job: Job, chunk: seq<Candidate>, fate: Fate)
    ensures Escapes(job, chunk, fate) ==> Kept(job, chunk, fate) == []
  {
  }

  /** Chunks are independent: the table gains, in order, the rows of exactly the chunks whose
      transaction succeeded, the errors name the source rows of exactly the other chunks, in
      order, and `savedFields` is the number of rows the table gained. A chunk whose report throws
      ends the batch there, and the chunks before it stay saved. */
  method PersistBatch(
    repository: ExtractedAssetFieldRepository, job: Job, candidates: seq<Candidate>, batchSize: nat, fates: nat -> Fate)
    returns (r: Result<BatchResult, NullError>, ghost done: nat)
    requires batchSize > 0
    modifies repository
    ensures var chunks := Chunk(candidates, batchSize);
      && done <= |chunks|
      && repository.table == old(repository.table) + Stored(job, chunks, fates, done)
      && (forall i :: 0 <= i < done ==> !Escapes(job, chunks[i], fates(i)))
      && (r.Err? ==> done < |chunks| && Escapes(job, chunks[done], fates(done)))
      && (r.Ok? ==>
            && done == |chunks|
            && r.value == BatchResult(
                 |candidates|, |Stored(job, chunks, fates, done)|, Reported(job, chunks, fates, done)))
  {
    hide Kept, Lost, Chunk, Escapes;
    done := 0;
    var errors: seq<RowError>, savedFields: nat := [], 0;
    var chunks := ChunkArray(candidates, batchSize);
    for i := 0 to |chunks|
      invariant done == i
      invariant repository.table == old(repository.table) + Stored(job, chunks, fates, i)
      invariant savedFields == |Stored(job, chunks, fates, i)|
      invariant errors == Reported(job, chunks, fates, i)
      invariant forall k :: 0 <= k < i ==> !Escapes(job, chunks[k], fates(k))
    {
      EscapeKeepsNothing(job, chunks[i], fates(i));
      var result := PersistBatchWithTransaction(repository, job, chunks[i], fates(i));
      assert (old(repository.table) + Stored(job, chunks, fates, i)) + Kept(job, chunks[i], fates(i))
          == old(repository.table) + (Stored(job, chunks, fates, i) + Kept(job, chunks[i], fates(i)));
      if result.Err? { return Err(result.error), done; }
      savedFields := savedFields + result.value.savedFields;
      errors := errors + result.value.errors;
      done := i + 1;
    }
    r := Ok(BatchResult(|candidates|, savedFields, errors));
  }

  // ----- what the batch result tells the caller -----

  const SKIPPED: Candidate -> bool := (c: Candidate) => !HAS_DATA(c)

  lemma {:induction false} TransformedCount(job: Job, candidates: seq<Candidate>)
    ensures |Transformed(job, candidates)| + Count(SKIPPED, candidates) == |candidates|
  {
    if candidates != [] {
      TransformedCount(job, candidates[1..]);
    }
  }

  /** The candidates that leave no trace: without data, in a chunk that succeeded. */
  function Untraced(job: Job, chunks: seq<seq<Candidate>>, fates: nat -> Fate, n: nat): nat
    requires n <= |chunks|
  {
    if n == 0 then 0
    else Untraced(job, chunks, fates, n - 1)
         + (if Outcome(job, chunks[n - 1], fates(n - 1)).Ok? then Count(SKIPPED, chunks[n - 1]) else 0)
  }

  lemma {:induction false} StoredReportedOrUntraced(job: Job, chunks: seq<seq<Candidate>>, fates: nat -> Fate, n: nat)
    requires n <= |chunks|
    ensures |Stored(job, chunks, fates, n)| + |Reported(job, chunks, fates, n)| + Untraced(job, chunks, fates, n)
         == |Flatten(chunks[..n])|
  {
    hide Outcome, Transformed, Count;
    if n > 0 {
      StoredReportedOrUntraced(job, chunks, fates, n - 1);
      assert chunks[..n] == chunks[..n - 1] + [chunks[n - 1]];
      FlattenPush(chunks[..n - 1], chunks[n - 1]);
      TransformedCount(job, chunks[n - 1]);
    }
  }

  lemma {:induction false} NoneSkipped(candidates: seq<Candidate>)
    ensures Count(SKIPPED, candidates) == 0 <==> forall c :: c in candidates ==> HAS_DATA(c)
  {
    if candidates != [] {
      NoneSkipped(candidates[1..]);
      assert forall c :: c in candidates <==> c == candidates[0] || c in candidates[1..];
      assert SKIPPED(candidates[0]) <==> !HAS_DATA(candidates[0]);
    }
  }

  lemma {:induction false} NoneUntraced(job: Job, chunks: seq<seq<Candidate>>, fates: nat -> Fate, n: nat)
    requires n <= |chunks|
    ensures Untraced(job, chunks, fates, n) == 0 <==>
      forall i :: 0 <= i < n && Outcome(job, chunks[i], fates(i)).Ok? ==> forall c :: c in chunks[i] ==> HAS_DATA(c)
  {
    hide Outcome, HAS_DATA, SKIPPED, Count;
    if n > 0 {
      NoneUntraced(job, chunks, fates, n - 1);
      NoneSkipped(chunks[n - 1]);
    }
  }

  /** Whatever fails and however the batch is chunked, a candidate is never both stored and
      reported; all of them are accounted for exactly when no chunk that succeeded contains a
      candidate without data. */
  lemma EveryCandidateIsAccountedForIff(job: Job, candidates: seq<Candidate>, batchSize: nat, fates: nat -> Fate)
    requires batchSize > 0
    ensures var chunks := Chunk(candidates, batchSize);
      && |Stored(job, chunks, fates, |chunks|)| + |Reported(job, chunks, fates, |chunks|)| <= |candidates|
      && (|Stored(job, chunks, fates, |chunks|)| + |Reported(job, chunks, fates, |chunks|)| == |candidates| <==>
          forall i :: 0 <= i < |chunks| && Outcome(job, chunks[i], fates(i)).Ok? ==>
            forall c :: c in chunks[i] ==> HAS_DATA(c))
  {
    hide Outcome, HAS_DATA, Chunk, Stored, Reported, Untraced;
    var chunks := Chunk(candidates, batchSize);
    ChunkShape(candidates, batchSize);
    StoredReportedOrUntraced(job, chunks, fates, |chunks|);
    NoneUntraced(job, chunks, fates, |chunks|);
    assert chunks[..|chunks|] == chunks;
  }

  lemma {:induction false} NoneReported(job: Job, chunks: seq<seq<Candidate>>, fates: nat -> Fate, n: nat)
    requires n <= |chunks| && forall i :: 0 <= i < n ==> chunks[i] != []
    ensures Reported(job, chunks, fates, n) == [] <==> forall i :: 0 <= i < n ==> Outcome(job, chunks[i], fates(i)).Ok?
  {
    hide Outcome;
    if n > 0 {
      NoneReported(job, chunks, fates, n - 1);
    }
  }

  /** The batch result counts every candidate as a saved asset. That is the number of rows the table
      gained exactly when every chunk succeeded and every candidate has data. */
  lemma SavedAssetsIsRightIff(job: Job, candidates: seq<Candidate>, batchSize: nat, fates: nat -> Fate)
    requires batchSize > 0
    ensures var chunks := Chunk(candidates, batchSize);
      |Stored(job, chunks, fates, |chunks|)| == |candidates| <==>
        && (forall i :: 0 <= i < |chunks| ==> Outcome(job, chunks[i], fates(i)).Ok?)
        && forall c :: c in candidates ==> HAS_DATA(c)
  {
    hide Outcome, HAS_DATA, Chunk, Stored, Reported, Untraced, Flatten;
    var chunks := Chunk(candidates, batchSize);
    ChunkShape(candidates, batchSize);
    StoredReportedOrUntraced(job, chunks, fates, |chunks|);
    NoneUntraced(job, chunks, fates, |chunks|);
    NoneReported(job, chunks, fates, |chunks|);
    assert chunks[..|chunks|] == chunks;
    forall c ensures c in candidates <==> exists i :: 0 <= i < |chunks| && c in chunks[i] {
      FlattenMember(chunks, c);
    }
  }

  lemma OneTransformed(job: Job, c: Candidate)
    requires HAS_DATA(c)
    ensures |Transformed(job, [c])| == 1
  {
    assert [c][1..] == [];
  }

  lemma WithoutConnection(job: Job, c: Candidate, fate: Fate)
    requires HAS_DATA(c) && !fate.connects
    ensures Outcome(job, [c], fate) == Err(ConnectFailed)
  {
    hide Transformed, Filter, FirstFailure;
    OneTransformed(job, c);
    TransformedAreNamed(job, [c]);
  }

  /** A single candidate whose transaction cannot connect is reported as saved and stored nowhere. */
  lemma SavedAssetsCanBeWrong(job: Job)
    ensures exists c: Candidate, fate: Fate ::
      HAS_DATA(c) && Kept(job, [c], fate) == [] && !Escapes(job, [c], fate)
      && Lost(job, [c], fate) == [RowError(c.sourceRowIndex, ConnectFailed)]
  {
    hide Outcome, Transformed;
    var c := Candidate(Some("a"), Some(1), None, None, Some(RowRecord("{}", 1)), None);
    var fate := Fate(false, true, (slice: nat) => true, true);
    WithoutConnection(job, c, fate);
    assert HAS_DATA(c) && Lost(job, [c], fate) == [RowError(c.sourceRowIndex, ConnectFailed)];
  }

  lemma NothingTransformed(job: Job, none: seq<seq<Candidate>>)
    requires none == []
    ensures Transformed(job, Flatten(none)) == []
  {
  }

  /** Without failures the chunk size makes no difference: the table gains the transformed
      candidates in their order. */
  lemma {:induction false} StoredWithoutFailures(job: Job, chunks: seq<seq<Candidate>>, fates: nat -> Fate, n: nat)
    requires n <= |chunks| && forall i :: 0 <= i < n ==> Outcome(job, chunks[i], fates(i)).Ok?
    ensures Stored(job, chunks, fates, n) == Transformed(job, Flatten(chunks[..n])) && Reported(job, chunks, fates, n) == []
  {
    hide Outcome, Failures, Transformed, Flatten;
    if n == 0 {
      NothingTransformed(job, chunks[..0]);
    } else {
      StoredWithoutFailures(job, chunks, fates, n - 1);
      assert chunks[..n] == chunks[..n - 1] + [chunks[n - 1]];
      FlattenPush(chunks[..n - 1], chunks[n - 1]);
      TransformedAppend(job, Flatten(chunks[..n - 1]), chunks[n - 1]);
    }
  }

  lemma ChunkSizeIsInvisible(job: Job, candidates: seq<Candidate>, batchSize: nat, fates: nat -> Fate)
    requires batchSize > 0
    requires forall i :: 0 <= i < |Chunk(candidates, batchSize)| ==> Outcome(job, Chunk(candidates, batchSize)[i], fates(i)).Ok?
    ensures Stored(job, Chunk(candidates, batchSize), fates, |Chunk(candidates, batchSize)|) == Transformed(job, candidates)
  {
    var chunks := Chunk(candidates, batchSize);
    ChunkShape(candidates, batchSize);
    StoredWithoutFailures(job, chunks, fates, |chunks|);
    assert chunks[..|chunks|] == chunks;
  }
}
