/** The batching pipeline as a protocol. `processRow` and `flush` are asynchronous: code runs
    without interruption up to its next `await`, and any number of calls may be suspended at
    once. A state holds the fields of the processor, its two buffers, and the suspended
    activities; an action is one uninterrupted segment, chosen by an arbitrary scheduler, and
    an awaited promise may reject. The remaining components of a state are history. */
module Pipeline {
  import opened Sequences

  const DETERMINISTIC_BATCH_SIZE: nat := 5000
  const AMBIGUOUS_BATCH_SIZE: nat := 50

  /** A row together with the verdict of the ambiguity classifier on it. */
  datatype Row = Row(index: int, isAmbiguous: bool)

  /** A suspended activity: where it waits, and the rows it alone still refers to. */
  datatype Task =
    | Initializing(row: Row)                           // processRow, in initialize()
    | Persisting(row: Row, batch: seq<Row>)            // processRow, in enqueue(batch)
    | Enriching(row: Row, batch: seq<Row>)             // processRow, in enrichBatch(batch)
    | FlushPersisting(batch: seq<Row>, held: seq<Row>) // flush, in enqueue(batch)
    | FlushEnriching(batch: seq<Row>)                  // flush, in enrichBatch(batch)
    | FlushDraining                                    // flush, in drain()

  datatype State = State(
    initialized: bool,
    deterministic: seq<Row>,
    ambiguous: seq<Row>,
    processedCount: nat,
    totalDeterministic: nat,
    totalAmbiguous: nat,
    tasks: seq<Task>,
    accepted: seq<Row>,                // rows handed to processRow
    pushed: seq<Row>,                  // rows that reached a buffer, in that order
    takenDeterministic: seq<seq<Row>>, // batches cut from a buffer, in that order
    takenAmbiguous: seq<seq<Row>>,
    persisted: seq<seq<Row>>,          // batches whose enqueue resolved
    enriched: seq<seq<Row>>,           // batches whose enrichment returned
    rejected: seq<Row>,                // rows whose processRow rejected
    failed: seq<Row>,                  // rows of batches whose enqueue rejected
    dropped: seq<Row>)                 // ambiguous rows a rejected flush was holding

  const INITIAL := State(false, [], [], 0, 0, 0, [], [], [], [], [], [], [], [], [], [])

  datatype Action = Call(row: Row) | Flush | Resume(task: nat, ok: bool)

  /** `enrichBatch` catches every exception, so its promise never rejects. */
  predicate Enabled(s: State, a: Action) {
    a.Resume? ==>
      a.task < |s.tasks| && (a.ok || !(s.tasks[a.task].Enriching? || s.tasks[a.task].FlushEnriching?))
  }

  // ----- the segments of processRow -----

  function TakeDeterministic(s: State): State {
    s.(deterministic := [],
       totalDeterministic := s.totalDeterministic + |s.deterministic|,
       takenDeterministic := s.takenDeterministic + [s.deterministic])
  }

  /** Taking the ambiguous buffer does not count it: `flush` counts it after an await. */
  function TakeAmbiguous(s: State): State {
    s.(ambiguous := [], takenAmbiguous := s.takenAmbiguous + [s.ambiguous])
  }

  function Push(s: State, row: Row): State {
    var t := s.(processedCount := s.processedCount + 1, pushed := s.pushed + [row]);
    if row.isAmbiguous then t.(ambiguous := s.ambiguous + [row])
    else t.(deterministic := s.deterministic + [row])
  }

  function CheckAmbiguous(s: State, row: Row): State {
    if |s.ambiguous| >= AMBIGUOUS_BATCH_SIZE then
      TakeAmbiguous(s).(totalAmbiguous := s.totalAmbiguous + |s.ambiguous|,
                        tasks := s.tasks + [Enriching(row, s.ambiguous)])
    else Push(s, row)
  }

  function CheckDeterministic(s: State, row: Row): State {
    if |s.deterministic| >= DETERMINISTIC_BATCH_SIZE then
      TakeDeterministic(s).(tasks := s.tasks + [Persisting(row, s.deterministic)])
    else CheckAmbiguous(s, row)
  }

  function StartCall(s: State, row: Row): State {
    if !s.initialized then s.(initialized := true, tasks := s.tasks + [Initializing(row)])
    else CheckDeterministic(s, row)
  }

  // ----- the segments of flush -----

  function FlushAmbiguous(s: State, held: seq<Row>): State {
    if held == [] then s.(tasks := s.tasks + [FlushDraining])
    else s.(totalAmbiguous := s.totalAmbiguous + |held|, tasks := s.tasks + [FlushEnriching(held)])
  }

  function StartFlush(s: State): State {
    if !s.initialized then s
    else
      var t := if s.ambiguous == [] then s else TakeAmbiguous(s);
      if s.deterministic == [] then FlushAmbiguous(t, s.ambiguous)
      else TakeDeterministic(t).(tasks := s.tasks + [FlushPersisting(s.deterministic, s.ambiguous)])
  }

  /** What a resumed activity does next; it is no longer among the tasks of `s`. */
  function Continue(s: State, t: Task, ok: bool): State {
    match t
    case Initializing(row) =>
      if ok then CheckDeterministic(s, row) else s.(rejected := s.rejected + [row])
    case Persisting(row, batch) =>
      if ok then CheckAmbiguous(s.(persisted := s.persisted + [batch]), row)
      else s.(failed := s.failed + batch, rejected := s.rejected + [row])
    case Enriching(row, batch) => Push(s.(enriched := s.enriched + [batch]), row)
    case FlushPersisting(batch, held) =>
      if ok then FlushAmbiguous(s.(persisted := s.persisted + [batch]), held)
      else s.(failed := s.failed + batch, dropped := s.dropped + held)
    case FlushEnriching(batch) =>
      s.(enriched := s.enriched + [batch], tasks := s.tasks + [FlushDraining])
    case FlushDraining => s
  }

  function Apply(s: State, a: Action): State
    requires Enabled(s, a)
  {
    match a
    case Call(row) => StartCall(s.(accepted := s.accepted + [row]), row)
    case Flush => StartFlush(s)
    case Resume(i, ok) => Continue(s.(tasks := RemoveAt(s.tasks, i)), s.tasks[i], ok)
  }

  // ----- runs -----

  predicate Legal(s: State, run: seq<Action>)
    decreases |run|
  {
    run == [] || (Enabled(s, run[0]) && Legal(Apply(s, run[0]), run[1..]))
  }

  function Run(s: State, run: seq<Action>): State
    requires Legal(s, run)
    decreases |run|
  {
    if run == [] then s else Run(Apply(s, run[0]), run[1..])
  }

  lemma {:induction false} RunAppend(s: State, a: seq<Action>, b: seq<Action>)
    requires Legal(s, a) && Legal(Run(s, a), b)
    ensures Legal(s, a + b) && Run(s, a + b) == Run(Run(s, a), b)
    decreases |a|
  {
    if a == [] {
      assert a + b == b;
    } else {
      RunAppend(Apply(s, a[0]), a[1..], b);
      assert (a + b)[0] == a[0] && (a + b)[1..] == a[1..] + b;
    }
  }

  // ----- every accepted row is in exactly one place -----

  function Occurrences(rows: seq<Row>, r: Row): nat { multiset(rows)[r] }

  function RowsOf(t: Task): seq<Row> {
    match t
    case Initializing(row) => [row]
    case Persisting(row, batch) => [row] + batch
    case Enriching(row, batch) => [row] + batch
    case FlushPersisting(batch, held) => batch + held
    case FlushEnriching(batch) => batch
    case FlushDraining => []
  }

  function Suspended(tasks: seq<Task>, r: Row): nat {
    if tasks == [] then 0 else Occurrences(RowsOf(tasks[0]), r) + Suspended(tasks[1..], r)
  }

  lemma {:induction false} SuspendedAppend(a: seq<Task>, b: seq<Task>, r: Row)
    ensures Suspended(a + b, r) == Suspended(a, r) + Suspended(b, r)
  {
    if a == [] {
      assert a + b == b;
    } else {
      SuspendedAppend(a[1..], b, r);
      assert (a + b)[0] == a[0] && (a + b)[1..] == a[1..] + b;
    }
  }

  lemma SuspendedPush(a: seq<Task>, t: Task, r: Row)
    ensures Suspended(a + [t], r) == Suspended(a, r) + Occurrences(RowsOf(t), r)
  {
    SuspendedAppend(a, [t], r);
    assert [t][1..] == [];
  }

  lemma SuspendedRemove(tasks: seq<Task>, i: nat, r: Row)
    requires i < |tasks|
    ensures Suspended(tasks, r) == Suspended(RemoveAt(tasks, i), r) + Occurrences(RowsOf(tasks[i]), r)
  {
    var before, after := tasks[..i], tasks[i + 1..];
    assert tasks == before + tasks[i..] && tasks[i..][1..] == after;
    SuspendedAppend(before, tasks[i..], r);
    SuspendedAppend(before, after, r);
  }

  /** How often row `r` occurs in all the places a row can be, taken together. */
  function Located(s: State, r: Row): nat {
    Occurrences(s.deterministic, r) + Occurrences(s.ambiguous, r) + Suspended(s.tasks, r)
    + Occurrences(Flatten(s.persisted), r) + Occurrences(Flatten(s.enriched), r)
    + Occurrences(s.rejected, r) + Occurrences(s.failed, r) + Occurrences(s.dropped, r)
  }

  lemma PushLocates(s: State, row: Row, r: Row)
    ensures Located(Push(s, row), r) == Located(s, r) + Occurrences([row], r)
  {
  }

  lemma CheckAmbiguousLocates(s: State, row: Row, r: Row)
    ensures Located(CheckAmbiguous(s, row), r) == Located(s, r) + Occurrences([row], r)
  {
    if |s.ambiguous| >= AMBIGUOUS_BATCH_SIZE {
      SuspendedPush(s.tasks, Enriching(row, s.ambiguous), r);
    } else {
      PushLocates(s, row, r);
    }
  }

  lemma CheckDeterministicLocates(s: State, row: Row, r: Row)
    ensures Located(CheckDeterministic(s, row), r) == Located(s, r) + Occurrences([row], r)
  {
    if |s.deterministic| >= DETERMINISTIC_BATCH_SIZE {
      SuspendedPush(s.tasks, Persisting(row, s.deterministic), r);
    } else {
      CheckAmbiguousLocates(s, row, r);
    }
  }

  lemma FlushAmbiguousLocates(s: State, held: seq<Row>, r: Row)
    ensures Located(FlushAmbiguous(s, held), r) == Located(s, r) + Occurrences(held, r)
  {
    if held == [] {
      SuspendedPush(s.tasks, FlushDraining, r);
    } else {
      SuspendedPush(s.tasks, FlushEnriching(held), r);
    }
  }

  lemma StartFlushLocates(s: State, r: Row)
    ensures Located(StartFlush(s), r) == Located(s, r)
  {
    var t := if s.ambiguous == [] then s else TakeAmbiguous(s);
    assert Located(t, r) + Occurrences(s.ambiguous, r) == Located(s, r);
    if s.deterministic == [] {
      FlushAmbiguousLocates(t, s.ambiguous, r);
    } else {
      SuspendedPush(s.tasks, FlushPersisting(s.deterministic, s.ambiguous), r);
    }
  }

  lemma PersistedLocates(s: State, batch: seq<Row>, r: Row)
    ensures Located(s.(persisted := s.persisted + [batch]), r) == Located(s, r) + Occurrences(batch, r)
  {
    FlattenPush(s.persisted, batch);
  }

  lemma EnrichedLocates(s: State, batch: seq<Row>, r: Row)
    ensures Located(s.(enriched := s.enriched + [batch]), r) == Located(s, r) + Occurrences(batch, r)
  {
    FlattenPush(s.enriched, batch);
  }

  lemma ContinueLocates(s: State, t: Task, ok: bool, r: Row)
    ensures Located(Continue(s, t, ok), r) == Located(s, r) + Occurrences(RowsOf(t), r)
  {
    match t
    case Initializing(row) =>
      CheckDeterministicLocates(s, row, r);
    case Persisting(row, batch) =>
      PersistedLocates(s, batch, r);
      CheckAmbiguousLocates(s.(persisted := s.persisted + [batch]), row, r);
    case Enriching(row, batch) =>
      EnrichedLocates(s, batch, r);
      PushLocates(s.(enriched := s.enriched + [batch]), row, r);
    case FlushPersisting(batch, held) =>
      PersistedLocates(s, batch, r);
      FlushAmbiguousLocates(s.(persisted := s.persisted + [batch]), held, r);
    case FlushEnriching(batch) =>
      EnrichedLocates(s, batch, r);
      SuspendedPush(s.tasks, FlushDraining, r);
    case FlushDraining =>
  }

  lemma ContinueAccepts(s: State, t: Task, ok: bool)
    ensures Continue(s, t, ok).accepted == s.accepted
  {
  }

  lemma CallLocates(s: State, row: Row, r: Row)
    requires Located(s, r) == Occurrences(s.accepted, r)
    ensures Located(Apply(s, Call(row)), r) == Occurrences(Apply(s, Call(row)).accepted, r)
  {
    var t := s.(accepted := s.accepted + [row]);
    assert Located(t, r) + Occurrences([row], r) == Occurrences(t.accepted, r);
    if s.initialized {
      CheckDeterministicLocates(t, row, r);
      ContinueAccepts(t, Initializing(row), true);
    } else {
      SuspendedPush(s.tasks, Initializing(row), r);
    }
  }

  lemma ResumeLocates(s: State, i: nat, ok: bool, r: Row)
    requires Enabled(s, Resume(i, ok)) && Located(s, r) == Occurrences(s.accepted, r)
    ensures Located(Apply(s, Resume(i, ok)), r) == Occurrences(Apply(s, Resume(i, ok)).accepted, r)
  {
    var t := s.(tasks := RemoveAt(s.tasks, i));
    assert Located(t, r) + Occurrences(RowsOf(s.tasks[i]), r) == Located(s, r) by {
      SuspendedRemove(s.tasks, i, r);
    }
    ContinueLocates(t, s.tasks[i], ok, r);
    ContinueAccepts(t, s.tasks[i], ok);
  }

  /** No action loses or duplicates a row: it adds exactly the row it accepts. */
  lemma ApplyLocates(s: State, a: Action, r: Row)
    requires Enabled(s, a) && Located(s, r) == Occurrences(s.accepted, r)
    ensures Located(Apply(s, a), r) == Occurrences(Apply(s, a).accepted, r)
  {
    match a
    case Call(row) =>
      CallLocates(s, row, r);
    case Flush =>
      StartFlushLocates(s, r);
    case Resume(i, ok) =>
      ResumeLocates(s, i, ok, r);
  }

  // ----- order and counters -----

  const IS_DETERMINISTIC: Row -> bool := (r: Row) => !r.isAmbiguous
  const IS_AMBIGUOUS: Row -> bool := (r: Row) => r.isAmbiguous

  /** Ambiguous rows a suspended flush took from the buffer and has not counted yet. */
  function Uncounted(tasks: seq<Task>): nat {
    if tasks == [] then 0
    else (if tasks[0].FlushPersisting? then |tasks[0].held| else 0) + Uncounted(tasks[1..])
  }

  lemma {:induction false} UncountedAppend(a: seq<Task>, b: seq<Task>)
    ensures Uncounted(a + b) == Uncounted(a) + Uncounted(b)
  {
    if a == [] {
      assert a + b == b;
    } else {
      UncountedAppend(a[1..], b);
      assert (a + b)[0] == a[0] && (a + b)[1..] == a[1..] + b;
    }
  }

  lemma UncountedPush(a: seq<Task>, t: Task)
    ensures Uncounted(a + [t]) == Uncounted(a) + (if t.FlushPersisting? then |t.held| else 0)
  {
    UncountedAppend(a, [t]);
    assert [t][1..] == [];
  }

  lemma UncountedRemove(tasks: seq<Task>, i: nat)
    requires i < |tasks|
    ensures Uncounted(tasks) ==
            Uncounted(RemoveAt(tasks, i)) + (if tasks[i].FlushPersisting? then |tasks[i].held| else 0)
  {
    var before, after := tasks[..i], tasks[i + 1..];
    assert tasks == before + tasks[i..] && tasks[i..][1..] == after;
    UncountedAppend(before, tasks[i..]);
    UncountedAppend(before, after);
  }

  /** The batches cut so far, then the buffer, are the rows of that class in arrival order. */
  ghost predicate InOrder(s: State) {
    && Flatten(s.takenDeterministic) + s.deterministic == Filter(IS_DETERMINISTIC, s.pushed)
    && Flatten(s.takenAmbiguous) + s.ambiguous == Filter(IS_AMBIGUOUS, s.pushed)
  }

  /** `extra` stands for ambiguous rows in the hands of the activity now running. */
  ghost predicate CountedBut(s: State, extra: nat) {
    && s.processedCount == |s.pushed|
    && s.totalDeterministic == |Flatten(s.takenDeterministic)|
    && s.processedCount == s.totalDeterministic + s.totalAmbiguous + |s.deterministic| + |s.ambiguous|
                           + Uncounted(s.tasks) + |s.dropped| + extra
  }

  ghost predicate Counted(s: State) { CountedBut(s, 0) }

  lemma PushKeeps(s: State, row: Row)
    requires InOrder(s) && Counted(s)
    ensures InOrder(Push(s, row)) && Counted(Push(s, row))
  {
    FilterPush(IS_DETERMINISTIC, s.pushed, row);
    FilterPush(IS_AMBIGUOUS, s.pushed, row);
  }

  lemma CheckAmbiguousKeeps(s: State, row: Row)
    requires InOrder(s) && Counted(s)
    ensures InOrder(CheckAmbiguous(s, row)) && Counted(CheckAmbiguous(s, row))
  {
    FlattenPush(s.takenAmbiguous, s.ambiguous);
    UncountedPush(s.tasks, Enriching(row, s.ambiguous));
    PushKeeps(s, row);
  }

  lemma CheckDeterministicKeeps(s: State, row: Row)
    requires InOrder(s) && Counted(s)
    ensures InOrder(CheckDeterministic(s, row)) && Counted(CheckDeterministic(s, row))
  {
    FlattenPush(s.takenDeterministic, s.deterministic);
    UncountedPush(s.tasks, Persisting(row, s.deterministic));
    CheckAmbiguousKeeps(s, row);
  }

  lemma FlushAmbiguousKeeps(s: State, held: seq<Row>)
    requires InOrder(s) && CountedBut(s, |held|)
    ensures InOrder(FlushAmbiguous(s, held)) && Counted(FlushAmbiguous(s, held))
  {
    UncountedPush(s.tasks, FlushDraining);
    UncountedPush(s.tasks, FlushEnriching(held));
  }

  lemma StartFlushKeeps(s: State)
    requires InOrder(s) && Counted(s)
    ensures InOrder(StartFlush(s)) && Counted(StartFlush(s))
  {
    FlattenPush(s.takenAmbiguous, s.ambiguous);
    FlattenPush(s.takenDeterministic, s.deterministic);
    UncountedPush(s.tasks, FlushPersisting(s.deterministic, s.ambiguous));
    FlushAmbiguousKeeps(if s.ambiguous == [] then s else TakeAmbiguous(s), s.ambiguous);
  }

  lemma ContinueKeeps(s: State, t: Task, ok: bool)
    requires InOrder(s) && CountedBut(s, if t.FlushPersisting? then |t.held| else 0)
    ensures InOrder(Continue(s, t, ok)) && Counted(Continue(s, t, ok))
  {
    match t
    case Initializing(row) => CheckDeterministicKeeps(s, row);
    case Persisting(row, batch) => CheckAmbiguousKeeps(s.(persisted := s.persisted + [batch]), row);
    case Enriching(row, batch) => PushKeeps(s.(enriched := s.enriched + [batch]), row);
    case FlushPersisting(batch, held) => FlushAmbiguousKeeps(s.(persisted := s.persisted + [batch]), held);
    case FlushEnriching(batch) => UncountedPush(s.tasks, FlushDraining);
    case FlushDraining =>
  }

  lemma ApplyKeeps(s: State, a: Action)
    requires Enabled(s, a) && InOrder(s) && Counted(s)
    ensures InOrder(Apply(s, a)) && Counted(Apply(s, a))
  {
    match a
    case Call(row) =>
      UncountedPush(s.tasks, Initializing(row));
      CheckDeterministicKeeps(s.(accepted := s.accepted + [row]), row);
    case Flush => StartFlushKeeps(s);
    case Resume(i, ok) =>
      UncountedRemove(s.tasks, i);
      ContinueKeeps(s.(tasks := RemoveAt(s.tasks, i)), s.tasks[i], ok);
  }

  // ----- main results, over every run -----

  ghost predicate Sound(s: State) {
    (forall r :: Located(s, r) == Occurrences(s.accepted, r)) && InOrder(s) && Counted(s)
  }

  lemma {:induction false} SoundFrom(s: State, run: seq<Action>)
    requires Legal(s, run) && Sound(s)
    ensures Sound(Run(s, run))
    decreases |run|
  {
    if run != [] {
      forall r ensures Located(Apply(s, run[0]), r) == Occurrences(Apply(s, run[0]).accepted, r) {
        ApplyLocates(s, run[0], r);
      }
      ApplyKeeps(s, run[0]);
      SoundFrom(Apply(s, run[0]), run[1..]);
    }
  }

  /** At every point of every interleaving: each accepted row is in exactly one place, batches
      are cut in arrival order, and the counters account for every row that reached a buffer. */
  lemma EveryRunIsSound(run: seq<Action>)
    requires Legal(INITIAL, run)
    ensures var s := Run(INITIAL, run);
      && (forall r :: Located(s, r) == Occurrences(s.accepted, r))
      && InOrder(s)
      && s.processedCount == s.totalDeterministic + s.totalAmbiguous + |s.deterministic|
                             + |s.ambiguous| + Uncounted(s.tasks) + |s.dropped|
  {
    SoundFrom(INITIAL, run);
  }
}
