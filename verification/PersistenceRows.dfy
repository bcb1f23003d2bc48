/** What the rows and errors of a persisted batch hold, and when a transaction succeeds. */
module PersistenceRows {
  import opened Options
  import opened Persistence
  import opened Sequences
  import opened Strings

  /** A candidate has data when it has a raw record with columns, or no raw record and a normalised one
      with columns. */
  lemma HasDataIff(c: Candidate)
    ensures HAS_DATA(c) <==>
      c.Candidate?
      && ((c.rawRowData.Some? && c.rawRowData.value.columns > 0)
          || (c.rawRowData.None? && c.normalizedRowData.Some? && c.normalizedRowData.value.columns > 0))
  {
  }

  /** Its row holds the raw record as the raw value, or the normalised one where there is none, and the
      normalised record, if any, as the normalised value; its own name, unless that is missing or
      empty, and then one made from its row index; its own confidence, or 0.8; and its row index, or
      zero. Empty texts are stored as null. */
  lemma StoredRowIs(job: Job, c: Candidate)
    requires HAS_DATA(c)
    ensures var row := FieldOf(job, c);
      && row.documentId == job.documentId && row.fieldName == "row_data"
      && (c.rawRowData.Some? ==> row.rawValue == c.rawRowData.value.json)
      && (c.rawRowData.None? ==> row.rawValue == c.normalizedRowData.value.json)
      && (row.normalizedValue.Some? <==> c.normalizedRowData.Some?)
      && (c.normalizedRowData.Some? ==> row.normalizedValue == Some(c.normalizedRowData.value.json))
      && (c.rawAssetName.Some? && c.rawAssetName.value != "" ==> row.rawAssetName == c.rawAssetName.value)
      && (c.rawAssetName in {None, Some("")} && row.sourceRowIndex >= 0 ==>
            row.rawAssetName == "asset_" + Decimal(row.sourceRowIndex))
      && (c.rawAssetName in {None, Some("")} && row.sourceRowIndex < 0 ==>
            row.rawAssetName == "asset_-" + Decimal(-row.sourceRowIndex))
      && (c.overallConfidence.Some? ==> row.confidence == c.overallConfidence.value)
      && (c.overallConfidence.None? ==> row.confidence == 0.8)
      && (c.sourceRowIndex.Some? ==> row.sourceRowIndex == c.sourceRowIndex.value)
      && (c.sourceRowIndex.None? ==> row.sourceRowIndex == 0)
      && row.extractionJobId == (if job.extractionJobId == Some("") then None else job.extractionJobId)
      && row.sourceSheetName == (if c.sourceSheetName == Some("") then None else c.sourceSheetName)
      && !row.origin.isInferred && row.origin.reviewStatus == "pending"
  {
    hide Decimal;
    if row :| row == FieldOf(job, c) && row.sourceRowIndex < 0 {
      assert "asset_" + ("-" + Decimal(-row.sourceRowIndex)) == "asset_-" + Decimal(-row.sourceRowIndex);
    }
  }

  /** The rows to insert are those of the candidates with data, in order. */
  lemma {:induction false} TransformedAre(job: Job, candidates: seq<Candidate>)
    ensures var kept := Filter(HAS_DATA, candidates);
      && |Transformed(job, candidates)| == |kept|
      && forall k :: 0 <= k < |kept| ==> HAS_DATA(kept[k]) && Transformed(job, candidates)[k] == FieldOf(job, kept[k])
  {
    hide FieldOf, HAS_DATA;
    if candidates != [] {
      TransformedAre(job, candidates[1..]);
    }
  }

  // ----- when a transaction succeeds -----

  lemma {:induction false} FirstFailureIs(fate: Fate, from: nat, slices: nat)
    requires from <= slices
    ensures var failed := FirstFailure(fate, from, slices);
      && (failed.None? <==> forall slice: nat :: from <= slice < slices ==> fate.saves(slice))
      && (failed.Some? ==>
            from <= failed.value < slices && !fate.saves(failed.value)
            && forall slice: nat :: from <= slice < failed.value ==> fate.saves(slice))
    decreases slices - from
  {
    if from < slices && fate.saves(from) {
      FirstFailureIs(fate, from + 1, slices);
    }
  }

  /** Slice `slice` of a hundred rows is saved at all. */
  predicate HasSlice(data: seq<FieldData>, slice: nat) { slice * 100 < |data| }

  lemma SlicesAre(data: seq<FieldData>, slice: nat)
    ensures slice < |Chunk(data, CHUNK_SIZE)| <==> HasSlice(data, slice)
  {
    hide Chunk;
    ChunkCount(data, CHUNK_SIZE);
  }

  /** An insertion without named rows touches nothing. Any other succeeds exactly when connecting,
      beginning, saving each slice of a hundred of them and committing do; and else the first of these
      steps that fails is reported. */
  lemma InsertOutcomeIs(data: seq<FieldData>, fate: Fate)
    ensures var named, r := Filter(HAS_NAME, data), InsertOutcome(data, fate);
      && (named == [] ==> r == Ok(0))
      && (named != [] ==>
            && (r.Ok? <==>
                  fate.connects && fate.begins && fate.commits
                  && forall slice: nat :: HasSlice(named, slice) ==> fate.saves(slice))
            && (r.Ok? ==> r.value == |named|)
            && (r.Err? ==>
                  match r.error
                  case ConnectFailed => !fate.connects
                  case BeginFailed => fate.connects && !fate.begins
                  case SaveFailed(slice) =>
                    fate.connects && fate.begins && HasSlice(named, slice) && !fate.saves(slice)
                    && forall before: nat :: before < slice ==> fate.saves(before)
                  case CommitFailed =>
                    fate.connects && fate.begins && !fate.commits
                    && forall slice: nat :: HasSlice(named, slice) ==> fate.saves(slice)))
  {
    hide Chunk, FirstFailure, HAS_NAME, Filter;
    var named := Filter(HAS_NAME, data);
    FirstFailureIs(fate, 0, |Chunk(named, CHUNK_SIZE)|);
    forall slice: nat ensures slice < |Chunk(named, CHUNK_SIZE)| <==> HasSlice(named, slice) {
      SlicesAre(named, slice);
    }
  }

  /** A failed transaction reports each of its candidates, in order, by its own row index, with what
      failed; a successful one reports nothing. */
  lemma ErrorsAre(job: Job, chunk: seq<Candidate>, fate: Fate)
    ensures var outcome, errors := InsertOutcome(Transformed(job, chunk), fate), Lost(job, chunk, fate);
      && (outcome.Ok? ==> errors == [])
      && (outcome.Err? ==>
            |errors| == |chunk|
            && forall k :: 0 <= k < |chunk| ==>
                 errors[k].reason == outcome.error
                 && errors[k].rowIndex == if chunk[k].Candidate? then chunk[k].sourceRowIndex else None)
  {
    hide InsertOutcome, Transformed;
  }
}
