/** The caller that awaits every row, as the spreadsheet reader does, and then the flush. */
module PipelineEnd {
  import opened Sequences
  import opened Pipeline

  /** Let the only suspended activity finish; a call or a flush waits at most three times. */
  function Settle(s: State, waits: nat): State
    decreases waits
  {
    if waits == 0 || s.tasks == [] then s else Settle(Apply(s, Resume(0, true)), waits - 1)
  }

  function Await(s: State, a: Action): State
    requires !a.Resume?
  {
    Settle(Apply(s, a), 3)
  }

  function AwaitAll(s: State, rows: seq<Row>): State {
    if rows == [] then s else Await(AwaitAll(s, rows[..|rows| - 1]), Call(rows[|rows| - 1]))
  }

  /** Full batches only, in order, and no more than one batch left in each buffer. */
  ghost predicate InStep(s: State, rows: seq<Row>) {
    && s.tasks == [] && s.accepted == s.pushed == rows
    && (s.initialized <==> rows != [])
    && |s.deterministic| <= DETERMINISTIC_BATCH_SIZE && |s.ambiguous| <= AMBIGUOUS_BATCH_SIZE
    && Flatten(s.persisted) + s.deterministic == Filter(IS_DETERMINISTIC, rows)
    && Flatten(s.enriched) + s.ambiguous == Filter(IS_AMBIGUOUS, rows)
    && (forall i :: 0 <= i < |s.persisted| ==> |s.persisted[i]| == DETERMINISTIC_BATCH_SIZE)
    && (forall i :: 0 <= i < |s.enriched| ==> |s.enriched[i]| == AMBIGUOUS_BATCH_SIZE)
    && s.processedCount == |rows|
    && s.totalDeterministic == |Flatten(s.persisted)| && s.totalAmbiguous == |Flatten(s.enriched)|
  }

  /** What an awaited call amounts to: cut each full buffer, dispatch it, then push. */
  function Dispatched(s: State): State {
    var t := if |s.deterministic| < DETERMINISTIC_BATCH_SIZE then s
             else TakeDeterministic(s).(persisted := s.persisted + [s.deterministic]);
    if |t.ambiguous| < AMBIGUOUS_BATCH_SIZE then t
    else TakeAmbiguous(t).(totalAmbiguous := t.totalAmbiguous + |t.ambiguous|,
                           enriched := t.enriched + [t.ambiguous])
  }

  lemma SettleOne(s: State, t: Task, waits: nat)
    requires s.tasks == [] && waits > 0
    ensures Settle(s.(tasks := [t]), waits) == Settle(Continue(s, t, true), waits - 1)
  {
    assert RemoveAt([t], 0) == [];
    assert s.(tasks := [t]).(tasks := []) == s;
  }

  lemma AwaitedCheckAmbiguous(s: State, row: Row, waits: nat)
    requires s.tasks == [] && waits > 0 && |s.deterministic| < DETERMINISTIC_BATCH_SIZE
    ensures Settle(CheckAmbiguous(s, row), waits) == Push(Dispatched(s), row)
  {
    if |s.ambiguous| >= AMBIGUOUS_BATCH_SIZE {
      var t := TakeAmbiguous(s).(totalAmbiguous := s.totalAmbiguous + |s.ambiguous|);
      SettleOne(t, Enriching(row, s.ambiguous), waits);
    }
  }

  lemma AwaitedCheckDeterministic(s: State, row: Row, waits: nat)
    requires s.tasks == [] && waits > 1
    ensures Settle(CheckDeterministic(s, row), waits) == Push(Dispatched(s), row)
  {
    if |s.deterministic| >= DETERMINISTIC_BATCH_SIZE {
      var t := TakeDeterministic(s);
      SettleOne(t, Persisting(row, s.deterministic), waits);
      AwaitedCheckAmbiguous(t.(persisted := t.persisted + [s.deterministic]), row, waits - 1);
    } else {
      AwaitedCheckAmbiguous(s, row, waits);
    }
  }

  lemma AwaitCall(s: State, row: Row)
    requires s.tasks == []
    ensures var t := s.(accepted := s.accepted + [row], initialized := true);
      Await(s, Call(row)) == Push(Dispatched(t), row)
  {
    var t := s.(accepted := s.accepted + [row], initialized := true);
    if s.initialized {
      AwaitedCheckDeterministic(t, row, 3);
    } else {
      SettleOne(t, Initializing(row), 3);
      AwaitedCheckDeterministic(t, row, 2);
    }
  }

  lemma DispatchMakesRoom(s: State, rows: seq<Row>)
    requires InStep(s, rows)
    ensures InStep(Dispatched(s), rows)
    ensures |Dispatched(s).deterministic| < DETERMINISTIC_BATCH_SIZE
    ensures |Dispatched(s).ambiguous| < AMBIGUOUS_BATCH_SIZE
  {
    FlattenPush(s.persisted, s.deterministic);
    FlattenPush(s.enriched, s.ambiguous);
  }

  lemma PushInStep(s: State, row: Row, rows: seq<Row>)
    requires InStep(s, rows)
    requires |s.deterministic| < DETERMINISTIC_BATCH_SIZE && |s.ambiguous| < AMBIGUOUS_BATCH_SIZE
    ensures InStep(Push(s.(accepted := s.accepted + [row], initialized := true), row), rows + [row])
  {
    FilterPush(IS_DETERMINISTIC, rows, row);
    FilterPush(IS_AMBIGUOUS, rows, row);
  }

  lemma DispatchIgnoresHistory(s: State, rows: seq<Row>)
    ensures Dispatched(s.(accepted := rows, initialized := true))
         == Dispatched(s).(accepted := rows, initialized := true)
  {
  }

  lemma InStepIsSettled(s: State, rows: seq<Row>)
    requires InStep(s, rows)
    ensures s.tasks == [] && s.accepted == rows
  {
  }

  lemma AwaitCallInStep(s: State, row: Row, rows: seq<Row>)
    requires InStep(s, rows)
    ensures InStep(Await(s, Call(row)), rows + [row])
  {
    hide Await, Dispatched, InStep;
    InStepIsSettled(s, rows);
    AwaitCall(s, row);
    DispatchIgnoresHistory(s, s.accepted + [row]);
    DispatchMakesRoom(s, rows);
    PushInStep(Dispatched(s), row, rows);
    InStepIsSettled(Dispatched(s), rows);
  }

  lemma InitialInStep()
    ensures InStep(INITIAL, [])
  {
  }

  lemma {:induction false} AwaitAllInStep(rows: seq<Row>)
    ensures InStep(AwaitAll(INITIAL, rows), rows)
  {
    hide InStep, Await;
    if rows == [] {
      InitialInStep();
    } else {
      var front, last := rows[..|rows| - 1], rows[|rows| - 1];
      AwaitAllInStep(front);
      AwaitCallInStep(AwaitAll(INITIAL, front), last, front);
      assert front + [last] == rows;
    }
  }

  lemma AwaitedFlushAmbiguous(s: State, held: seq<Row>, waits: nat)
    requires s.tasks == [] && waits > 1
    ensures Settle(FlushAmbiguous(s, held), waits)
         == s.(totalAmbiguous := s.totalAmbiguous + |held|,
               enriched := s.enriched + (if held == [] then [] else [held]))
  {
    if held == [] {
      SettleOne(s, FlushDraining, waits);
    } else {
      var t := s.(totalAmbiguous := s.totalAmbiguous + |held|);
      SettleOne(t, FlushEnriching(held), waits);
      SettleOne(t.(enriched := t.enriched + [held]), FlushDraining, waits - 1);
    }
  }

  lemma AwaitFlush(s: State)
    requires s.tasks == [] && s.initialized
    ensures var t := Await(s, Flush);
      && t.tasks == []
      && t.processedCount == s.processedCount
      && t.totalDeterministic == s.totalDeterministic + |s.deterministic|
      && t.totalAmbiguous == s.totalAmbiguous + |s.ambiguous|
      && t.persisted == s.persisted + (if s.deterministic == [] then [] else [s.deterministic])
      && t.enriched == s.enriched + (if s.ambiguous == [] then [] else [s.ambiguous])
  {
    var t := if s.ambiguous == [] then s else TakeAmbiguous(s);
    if s.deterministic == [] {
      AwaitedFlushAmbiguous(t, s.ambiguous, 3);
    } else {
      var u := TakeDeterministic(t);
      SettleOne(u, FlushPersisting(s.deterministic, s.ambiguous), 3);
      AwaitedFlushAmbiguous(u.(persisted := u.persisted + [s.deterministic]), s.ambiguous, 2);
    }
  }

  /** A caller that awaits each row and then flushes dispatches each class of rows, in source
      order, cut into batches of exactly 5000 and 50 with only the last batch shorter: hence
      ceil(D / 5000) enqueues and ceil(A / 50) enrichments, and the statistics are exact. */
  lemma SequentialDispatchIsChunking(rows: seq<Row>)
    ensures var end := Await(AwaitAll(INITIAL, rows), Flush);
      var d, a := Filter(IS_DETERMINISTIC, rows), Filter(IS_AMBIGUOUS, rows);
      && end.tasks == []
      && end.persisted == Chunk(d, 5000) && |end.persisted| == (|d| + 4999) / 5000
      && end.enriched == Chunk(a, 50) && |end.enriched| == (|a| + 49) / 50
      && end.processedCount == |rows| && end.totalDeterministic == |d| && end.totalAmbiguous == |a|
  {
    var s := AwaitAll(INITIAL, rows);
    AwaitAllInStep(rows);
    ChunkOfFull(s.persisted, s.deterministic, 5000);
    ChunkOfFull(s.enriched, s.ambiguous, 50);
    ChunkCount(Filter(IS_DETERMINISTIC, rows), 5000);
    ChunkCount(Filter(IS_AMBIGUOUS, rows), 50);
    if s.initialized {
      AwaitFlush(s);
    } else {
      assert rows == [] && Apply(s, Flush) == s;
      assert |Flatten(s.persisted) + s.deterministic| == 0;
    }
  }
}
