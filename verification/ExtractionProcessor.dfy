/** The two stateful classes of the batching pipeline. Each method of the processor is one
    uninterrupted segment of the asynchronous code, and is proved to perform the action of the
    same name in module Pipeline, so everything proved there holds of these classes. */
module ExtractionProcessors {
  import opened Sequences
  import P = Pipeline
  import E = PipelineEnd

  class BatchHelper {
    var deterministicBatch: seq<P.Row>
    var ambiguousBatch: seq<P.Row>

    constructor ()
      ensures deterministicBatch == [] && ambiguousBatch == []
    {
      deterministicBatch, ambiguousBatch := [], [];
    }

    method ProcessRow(row: P.Row)
      modifies this
      ensures deterministicBatch == old(deterministicBatch) + (if row.isAmbiguous then [] else [row])
      ensures ambiguousBatch == old(ambiguousBatch) + (if row.isAmbiguous then [row] else [])
    {
      if row.isAmbiguous {
        ambiguousBatch := ambiguousBatch + [row];
      } else {
        deterministicBatch := deterministicBatch + [row];
      }
    }

    predicate HasDeterministicBatch()
      reads this
    {
      |deterministicBatch| >= P.DETERMINISTIC_BATCH_SIZE
    }

    predicate HasAmbiguousBatch()
      reads this
    {
      |ambiguousBatch| >= P.AMBIGUOUS_BATCH_SIZE
    }

    method FlushDeterministic() returns (batch: seq<P.Row>)
      modifies `deterministicBatch
      ensures batch == old(deterministicBatch) && deterministicBatch == []
    {
      batch := deterministicBatch;
      deterministicBatch := [];
    }

    method FlushAmbiguous() returns (batch: seq<P.Row>)
      modifies `ambiguousBatch
      ensures batch == old(ambiguousBatch) && ambiguousBatch == []
    {
      batch := ambiguousBatch;
      ambiguousBatch := [];
    }

    method FlushAll() returns (deterministic: seq<P.Row>, ambiguous: seq<P.Row>)
      modifies this
      ensures deterministic == old(deterministicBatch) && ambiguous == old(ambiguousBatch)
      ensures deterministicBatch == [] && ambiguousBatch == []
    {
      deterministic := FlushDeterministic();
      ambiguous := FlushAmbiguous();
    }
  }

  datatype Stats = Stats(total: nat, deterministic: nat, ambiguous: nat)

  class ExtractionProcessor {
    var batchHelper: BatchHelper?
    var processedCount: nat
    var totalDeterministic: nat
    var totalAmbiguous: nat
    var tasks: seq<P.Task>    // the activities the runtime holds suspended at an await
    ghost var history: P.State // only its history components are used

    ghost function Footprint(): set<object>
      reads this
    {
      if batchHelper == null then {this} else {this, batchHelper}
    }

    /** The protocol state this object is in. */
    ghost function Abs(): P.State
      reads this, Footprint()
    {
      history.(
        initialized := batchHelper != null,
        deterministic := if batchHelper == null then [] else batchHelper.deterministicBatch,
        ambiguous := if batchHelper == null then [] else batchHelper.ambiguousBatch,
        processedCount := processedCount,
        totalDeterministic := totalDeterministic,
        totalAmbiguous := totalAmbiguous,
        tasks := tasks)
    }

    /** Activities exist only once the first call has created the batch helper. */
    ghost predicate Valid()
      reads this
    {
      tasks != [] ==> batchHelper != null
    }

    constructor ()
      ensures Valid() && Abs() == P.INITIAL && fresh(Footprint())
    {
      batchHelper := null;
      processedCount, totalDeterministic, totalAmbiguous := 0, 0, 0;
      tasks := [];
      history := P.INITIAL;
    }

    method GetStats() returns (stats: Stats)
      ensures stats == Stats(Abs().processedCount, Abs().totalDeterministic, Abs().totalAmbiguous)
    {
      stats := Stats(processedCount, totalDeterministic, totalAmbiguous);
    }

    /** `processRow` up to its first await, or to its end if it does not wait. */
    method ProcessRow(row: P.Row)
      requires Valid()
      modifies Footprint()
      ensures Valid() && Abs() == P.Apply(old(Abs()), P.Call(row))
      ensures fresh(Footprint() - old(Footprint()))
    {
      history := history.(accepted := history.accepted + [row]);
      if batchHelper == null {
        batchHelper := new BatchHelper();
        tasks := tasks + [P.Initializing(row)];
      } else {
        CheckDeterministic(row);
      }
    }

    method CheckDeterministic(row: P.Row)
      requires batchHelper != null
      modifies Footprint()
      ensures Abs() == P.CheckDeterministic(old(Abs()), row)
      ensures batchHelper == old(batchHelper)
    {
      if batchHelper.HasDeterministicBatch() {
        var batch := batchHelper.FlushDeterministic();
        totalDeterministic := totalDeterministic + |batch|;
        history := history.(takenDeterministic := history.takenDeterministic + [batch]);
        tasks := tasks + [P.Persisting(row, batch)];
      } else {
        CheckAmbiguous(row);
      }
    }

    method CheckAmbiguous(row: P.Row)
      requires batchHelper != null
      modifies Footprint()
      ensures Abs() == P.CheckAmbiguous(old(Abs()), row)
      ensures batchHelper == old(batchHelper)
    {
      if batchHelper.HasAmbiguousBatch() {
        var batch := batchHelper.FlushAmbiguous();
        totalAmbiguous := totalAmbiguous + |batch|;
        history := history.(takenAmbiguous := history.takenAmbiguous + [batch]);
        tasks := tasks + [P.Enriching(row, batch)];
      } else {
        Push(row);
      }
    }

    method Push(row: P.Row)
      requires batchHelper != null
      modifies Footprint()
      ensures Abs() == P.Push(old(Abs()), row)
      ensures batchHelper == old(batchHelper)
    {
      batchHelper.ProcessRow(row);
      processedCount := processedCount + 1;
      history := history.(pushed := history.pushed + [row]);
    }

    /** `flush` up to its first await. */
    method Flush()
      requires Valid()
      modifies Footprint()
      ensures Valid() && Abs() == P.Apply(old(Abs()), P.Flush)
      ensures batchHelper == old(batchHelper)
    {
      if batchHelper == null { return; }
      var deterministic, ambiguous := batchHelper.FlushAll();
      if |ambiguous| > 0 {
        history := history.(takenAmbiguous := history.takenAmbiguous + [ambiguous]);
      }
      if |deterministic| > 0 {
        totalDeterministic := totalDeterministic + |deterministic|;
        history := history.(takenDeterministic := history.takenDeterministic + [deterministic]);
        tasks := tasks + [P.FlushPersisting(deterministic, ambiguous)];
      } else {
        FlushAmbiguous(ambiguous);
      }
    }

    method FlushAmbiguous(held: seq<P.Row>)
      modifies this
      ensures Abs() == P.FlushAmbiguous(old(Abs()), held)
      ensures batchHelper == old(batchHelper)
    {
      if |held| > 0 {
        totalAmbiguous := totalAmbiguous + |held|;
        tasks := tasks + [P.FlushEnriching(held)];
      } else {
        tasks := tasks + [P.FlushDraining];
      }
    }

    /** The promise that activity `i` awaits resolves (`ok`) or rejects. */
    method Resume(i: nat, ok: bool)
      requires Valid() && P.Enabled(Abs(), P.Resume(i, ok))
      modifies Footprint()
      ensures Valid() && Abs() == P.Apply(old(Abs()), P.Resume(i, ok))
      ensures batchHelper == old(batchHelper)
    {
      var task := tasks[i];
      tasks := RemoveAt(tasks, i);
      match task
      case Initializing(row) =>
        if ok {
          CheckDeterministic(row);
        } else {
          history := history.(rejected := history.rejected + [row]);
        }
      case Persisting(row, batch) =>
        if ok {
          history := history.(persisted := history.persisted + [batch]);
          CheckAmbiguous(row);
        } else {
          history := history.(failed := history.failed + batch, rejected := history.rejected + [row]);
        }
      case Enriching(row, batch) =>
        history := history.(enriched := history.enriched + [batch]);
        Push(row);
      case FlushPersisting(batch, held) =>
        if ok {
          history := history.(persisted := history.persisted + [batch]);
          FlushAmbiguous(held);
        } else {
          history := history.(failed := history.failed + batch, dropped := history.dropped + held);
        }
      case FlushEnriching(batch) =>
        history := history.(enriched := history.enriched + [batch]);
        tasks := tasks + [P.FlushDraining];
      case FlushDraining =>
    }
  }

  /** Let the suspended activity finish, with no promise rejecting. */
  method Settle(p: ExtractionProcessor, waits: nat)
    requires p.Valid()
    modifies p.Footprint()
    ensures p.Valid() && p.Abs() == E.Settle(old(p.Abs()), waits)
    ensures p.batchHelper == old(p.batchHelper)
  {
    hide P.Apply;
    if waits > 0 && p.tasks != [] {
      p.Resume(0, true);
      Settle(p, waits - 1);
    }
  }

  method AwaitRow(p: ExtractionProcessor, row: P.Row)
    requires p.Valid()
    modifies p.Footprint()
    ensures p.Valid() && p.Abs() == E.Await(old(p.Abs()), P.Call(row))
    ensures fresh(p.Footprint() - old(p.Footprint()))
  {
    p.ProcessRow(row);
    Settle(p, 3);
  }

  method AwaitFlush(p: ExtractionProcessor) returns (stats: Stats)
    requires p.Valid()
    modifies p.Footprint()
    ensures p.Abs() == E.Await(old(p.Abs()), P.Flush)
    ensures stats == Stats(p.Abs().processedCount, p.Abs().totalDeterministic, p.Abs().totalAmbiguous)
  {
    p.Flush();
    Settle(p, 3);
    stats := p.GetStats();
  }

  /** The spreadsheet caller: await every row, flush, and report the statistics. */
  method ExtractRows(rows: seq<P.Row>) returns (p: ExtractionProcessor, stats: Stats)
    ensures p.Abs() == E.Await(E.AwaitAll(P.INITIAL, rows), P.Flush)
    ensures stats == Stats(|rows|, |Filter(P.IS_DETERMINISTIC, rows)|, |Filter(P.IS_AMBIGUOUS, rows)|)
  {
    p := new ExtractionProcessor();
    for i := 0 to |rows|
      invariant fresh(p.Footprint()) && p.Valid()
      invariant p.Abs() == E.AwaitAll(P.INITIAL, rows[..i])
    {
      assert rows[..i + 1][..i] == rows[..i];
      AwaitRow(p, rows[i]);
    }
    assert rows[..|rows|] == rows;
    stats := AwaitFlush(p);
    E.SequentialDispatchIsChunking(rows);
  }
}
