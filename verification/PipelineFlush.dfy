/** What the final flush leaves behind, when other calls may still be suspended. */
module PipelineFlush {
  import opened Sequences
  import opened Pipeline
  import opened PipelineBounds

  predicate OnlyResumes(run: seq<Action>) {
    forall i :: 0 <= i < |run| ==> run[i].Resume?
  }

  /** Only promises resolve or reject, and none that a call of `processRow` awaits rejects. */
  predicate CallsResolve(s: State, run: seq<Action>)
    requires Legal(s, run)
    decreases |run|
  {
    run == [] ||
    (run[0].Resume? && (run[0].ok || !IS_CALL(s.tasks[run[0].task])) && CallsResolve(Apply(s, run[0]), run[1..]))
  }

  /** Rows that will be in a buffer, or are on their way to one. */
  ghost predicate Outstanding(s: State) {
    Count(IS_CALL, s.tasks) > 0 || s.deterministic != [] || s.ambiguous != []
  }

  lemma CheckAmbiguousStays(s: State, row: Row)
    ensures Outstanding(CheckAmbiguous(s, row)) && CheckAmbiguous(s, row).rejected == s.rejected
  {
    CountPush(IS_CALL, s.tasks, Enriching(row, s.ambiguous));
  }

  lemma CheckDeterministicStays(s: State, row: Row)
    ensures Outstanding(CheckDeterministic(s, row)) && CheckDeterministic(s, row).rejected == s.rejected
  {
    hide CheckAmbiguous;
    CountPush(IS_CALL, s.tasks, Persisting(row, s.deterministic));
    CheckAmbiguousStays(s, row);
  }

  lemma FlushAmbiguousStays(s: State, held: seq<Row>)
    ensures Outstanding(FlushAmbiguous(s, held)) <==> Outstanding(s)
    ensures FlushAmbiguous(s, held).rejected == s.rejected
  {
    CountPush(IS_CALL, s.tasks, FlushDraining);
    CountPush(IS_CALL, s.tasks, FlushEnriching(held));
  }

  /** A call that does not reject ends by pushing its row, so resuming changes neither whether rows
      are outstanding nor which are rejected. */
  lemma ResumeKeepsOutstanding(s: State, i: nat, ok: bool)
    requires Enabled(s, Resume(i, ok)) && (ok || !IS_CALL(s.tasks[i]))
    ensures Outstanding(Apply(s, Resume(i, ok))) <==> Outstanding(s)
    ensures Apply(s, Resume(i, ok)).rejected == s.rejected
  {
    hide CheckAmbiguous, CheckDeterministic, FlushAmbiguous;
    var t := s.(tasks := RemoveAt(s.tasks, i));
    CountRemove(IS_CALL, s.tasks, i);
    match s.tasks[i]
    case Initializing(row) => CheckDeterministicStays(t, row);
    case Persisting(row, batch) => CheckAmbiguousStays(t.(persisted := t.persisted + [batch]), row);
    case Enriching(row, batch) =>
    case FlushPersisting(batch, held) => FlushAmbiguousStays(t.(persisted := t.persisted + [batch]), held);
    case FlushEnriching(batch) => CountPush(IS_CALL, t.tasks, FlushDraining);
    case FlushDraining =>
  }

  lemma {:induction false} ResolvingKeepsOutstanding(s: State, run: seq<Action>)
    requires Legal(s, run) && CallsResolve(s, run)
    ensures Outstanding(Run(s, run)) <==> Outstanding(s)
    ensures Run(s, run).rejected == s.rejected
    decreases |run|
  {
    hide Outstanding;
    if run != [] {
      ResumeKeepsOutstanding(s, run[0].task, run[0].ok);
      ResolvingKeepsOutstanding(Apply(s, run[0]), run[1..]);
    }
  }

  lemma RejectionIsRecorded(s: State, a: Action)
    requires Enabled(s, a)
    ensures |Apply(s, a).rejected| ==
      |s.rejected| + (if a.Resume? && !a.ok && IS_CALL(s.tasks[a.task]) then 1 else 0)
  {
  }

  lemma {:induction false} RejectedGrows(s: State, run: seq<Action>)
    requires Legal(s, run)
    ensures |s.rejected| <= |Run(s, run).rejected|
    ensures OnlyResumes(run) && |Run(s, run).rejected| == |s.rejected| ==> CallsResolve(s, run)
    decreases |run|
  {
    hide Apply;
    if run != [] {
      RejectionIsRecorded(s, run[0]);
      RejectedGrows(Apply(s, run[0]), run[1..]);
      assert OnlyResumes(run) ==> run[0].Resume? && forall i :: 0 <= i < |run[1..]| ==> run[1..][i] == run[i + 1];
    }
  }

  lemma NoCallAppears(s: State, i: nat, ok: bool)
    requires Enabled(s, Resume(i, ok)) && Count(IS_CALL, s.tasks) == 0
    ensures !IS_CALL(s.tasks[i]) && Count(IS_CALL, Apply(s, Resume(i, ok)).tasks) == 0
  {
    CountRemove(IS_CALL, s.tasks, i);
    var t := s.(tasks := RemoveAt(s.tasks, i));
    match s.tasks[i]
    case FlushPersisting(batch, held) =>
      CountPush(IS_CALL, t.tasks, FlushEnriching(held));
      CountPush(IS_CALL, t.tasks, FlushDraining);
    case FlushEnriching(batch) => CountPush(IS_CALL, t.tasks, FlushDraining);
    case _ =>
  }

  /** Without a suspended call whatever resolves or rejects belongs to a flush. */
  lemma {:induction false} QuietRunsResolve(s: State, run: seq<Action>)
    requires Legal(s, run) && OnlyResumes(run) && Count(IS_CALL, s.tasks) == 0
    ensures CallsResolve(s, run)
    decreases |run|
  {
    hide Apply;
    if run != [] {
      assert run[0].Resume?;
      NoCallAppears(s, run[0].task, run[0].ok);
      assert forall i :: 0 <= i < |run[1..]| ==> run[1..][i] == run[i + 1];
      QuietRunsResolve(Apply(s, run[0]), run[1..]);
    }
  }

  /** Before the first call nothing is buffered or suspended. */
  lemma {:induction false} NothingBeforeInitialize(s: State, run: seq<Action>)
    requires Legal(s, run)
    requires !s.initialized ==> s.tasks == [] && s.deterministic == [] && s.ambiguous == []
    ensures var t := Run(s, run);
      !t.initialized ==> t.tasks == [] && t.deterministic == [] && t.ambiguous == []
    decreases |run|
  {
    if run != [] {
      NothingBeforeInitialize(Apply(s, run[0]), run[1..]);
    }
  }

  lemma FlushEmptiesBuffers(s: State)
    requires !s.initialized ==> s.tasks == [] && s.deterministic == [] && s.ambiguous == []
    ensures Outstanding(Apply(s, Flush)) <==> Count(IS_CALL, s.tasks) > 0
    ensures Apply(s, Flush).dropped == s.dropped && Apply(s, Flush).rejected == s.rejected
  {
    CountPush(IS_CALL, s.tasks, FlushPersisting(s.deterministic, s.ambiguous));
    CountPush(IS_CALL, s.tasks, FlushEnriching(s.ambiguous));
    CountPush(IS_CALL, s.tasks, FlushDraining);
  }

  // ----- no accepted row is forgotten by the count of processed ones -----

  /** `extra` calls are running and therefore not among the tasks. */
  ghost predicate TrackedBut(s: State, extra: nat) {
    |s.accepted| == s.processedCount + Count(IS_CALL, s.tasks) + |s.rejected| + extra
  }

  lemma CheckAmbiguousTracks(s: State, row: Row)
    requires TrackedBut(s, 1)
    ensures TrackedBut(CheckAmbiguous(s, row), 0)
  {
    CountPush(IS_CALL, s.tasks, Enriching(row, s.ambiguous));
  }

  lemma CheckDeterministicTracks(s: State, row: Row)
    requires TrackedBut(s, 1)
    ensures TrackedBut(CheckDeterministic(s, row), 0)
  {
    CountPush(IS_CALL, s.tasks, Persisting(row, s.deterministic));
    CheckAmbiguousTracks(s, row);
  }

  lemma FlushAmbiguousTracks(s: State, held: seq<Row>)
    requires TrackedBut(s, 0)
    ensures TrackedBut(FlushAmbiguous(s, held), 0)
  {
    CountPush(IS_CALL, s.tasks, FlushDraining);
    CountPush(IS_CALL, s.tasks, FlushEnriching(held));
  }

  lemma ContinueTracks(s: State, t: Task, ok: bool)
    requires TrackedBut(s, if IS_CALL(t) then 1 else 0)
    ensures TrackedBut(Continue(s, t, ok), 0)
  {
    match t
    case Initializing(row) => CheckDeterministicTracks(s, row);
    case Persisting(row, batch) => CheckAmbiguousTracks(s.(persisted := s.persisted + [batch]), row);
    case Enriching(row, batch) =>
    case FlushPersisting(batch, held) => FlushAmbiguousTracks(s.(persisted := s.persisted + [batch]), held);
    case FlushEnriching(batch) => CountPush(IS_CALL, s.tasks, FlushDraining);
    case FlushDraining =>
  }

  lemma ApplyTracks(s: State, a: Action)
    requires Enabled(s, a) && TrackedBut(s, 0)
    ensures TrackedBut(Apply(s, a), 0)
  {
    match a
    case Call(row) =>
      CountPush(IS_CALL, s.tasks, Initializing(row));
      CheckDeterministicTracks(s.(accepted := s.accepted + [row]), row);
    case Flush =>
      CountPush(IS_CALL, s.tasks, FlushPersisting(s.deterministic, s.ambiguous));
      FlushAmbiguousTracks(if s.ambiguous == [] then s else TakeAmbiguous(s), s.ambiguous);
    case Resume(i, ok) =>
      CountRemove(IS_CALL, s.tasks, i);
      ContinueTracks(s.(tasks := RemoveAt(s.tasks, i)), s.tasks[i], ok);
  }

  /** Over every run: an accepted row is processed, or its call is suspended, or it rejected. */
  lemma {:induction false} EveryCallIsTracked(s: State, run: seq<Action>)
    requires Legal(s, run) && TrackedBut(s, 0)
    ensures TrackedBut(Run(s, run), 0)
    decreases |run|
  {
    if run != [] {
      ApplyTracks(s, run[0]);
      EveryCallIsTracked(Apply(s, run[0]), run[1..]);
    }
  }

  // ----- the final flush -----

  lemma InitialIsSound()
    ensures Sound(INITIAL)
  {
  }

  lemma SoundApply(s: State, a: Action)
    requires Enabled(s, a) && Sound(s)
    ensures Sound(Apply(s, a))
  {
    hide Apply, Located, InOrder, Counted;
    forall r ensures Located(Apply(s, a), r) == Occurrences(Apply(s, a).accepted, r) {
      ApplyLocates(s, a, r);
    }
    ApplyKeeps(s, a);
  }

  lemma FlushStartsNoCall(s: State)
    ensures Count(IS_CALL, Apply(s, Flush).tasks) == Count(IS_CALL, s.tasks)
  {
    CountPush(IS_CALL, s.tasks, FlushPersisting(s.deterministic, s.ambiguous));
    CountPush(IS_CALL, s.tasks, FlushEnriching(s.ambiguous));
    CountPush(IS_CALL, s.tasks, FlushDraining);
  }

  lemma InitialIsTracked()
    ensures TrackedBut(INITIAL, 0)
  {
  }

  /** What the final flush leaves: sound and tracked counters, and, unless a call rejected since,
      rows outstanding exactly if a call was suspended when it began. */
  lemma EndOfFlush(before: seq<Action>, after: seq<Action>)
    requires Legal(INITIAL, before)
    requires Legal(Apply(Run(INITIAL, before), Flush), after) && OnlyResumes(after)
    ensures var s := Run(INITIAL, before); var end := Run(Apply(s, Flush), after);
      && Sound(end) && TrackedBut(end, 0)
      && (Count(IS_CALL, s.tasks) == 0 ==> !Outstanding(end) && end.rejected == s.rejected)
      && (end.rejected == s.rejected ==> (Outstanding(end) <==> Count(IS_CALL, s.tasks) > 0))
  {
    hide Sound, Outstanding, TrackedBut, Apply, CallsResolve;
    var s := Run(INITIAL, before);
    var flushing := Apply(s, Flush);
    NothingBeforeInitialize(INITIAL, before);
    FlushEmptiesBuffers(s);
    RejectedGrows(flushing, after);
    if Count(IS_CALL, s.tasks) == 0 {
      FlushStartsNoCall(s);
      QuietRunsResolve(flushing, after);
    }
    if CallsResolve(flushing, after) {
      ResolvingKeepsOutstanding(flushing, after);
    }
    InitialIsSound();
    SoundFrom(INITIAL, before);
    SoundApply(s, Flush);
    SoundFrom(flushing, after);
    InitialIsTracked();
    EveryCallIsTracked(INITIAL, before);
    ApplyTracks(s, Flush);
    EveryCallIsTracked(flushing, after);
  }

  /** The statistics account for every accepted row: it was processed or rejected, and the
      processed rows were counted as taken, or dropped by a rejected flush. */
  ghost predicate Balanced(s: State) {
    && s.processedCount + |s.rejected| == |s.accepted|
    && s.processedCount == s.totalDeterministic + s.totalAmbiguous + |s.dropped|
  }

  lemma OutstandingIff(s: State)
    requires TrackedBut(s, 0) && Counted(s) && Uncounted(s.tasks) == 0
    ensures Outstanding(s) <==> !Balanced(s)
  {
  }

  lemma RejectedIsKept(before: seq<Action>, after: seq<Action>)
    requires Legal(INITIAL, before)
    requires Legal(Apply(Run(INITIAL, before), Flush), after)
    ensures var s := Run(INITIAL, before); |s.rejected| <= |Run(Apply(s, Flush), after).rejected|
  {
    hide Run;
    RejectedGrows(Apply(Run(INITIAL, before), Flush), after);
    RejectionIsRecorded(Run(INITIAL, before), Flush);
  }

  /** Start `flush` at any point, start no further call, and let promises resolve or reject until no
      flush holds uncounted rows, as is the case when the flush itself has settled. If no call of
      `processRow` was suspended when it started, the statistics read at that moment are balanced,
      whatever rejected; and unless a call rejected since, they are balanced only then. */
  lemma FlushBalancesIff(before: seq<Action>, after: seq<Action>)
    requires Legal(INITIAL, before)
    requires Legal(Apply(Run(INITIAL, before), Flush), after) && OnlyResumes(after)
    requires Uncounted(Run(Apply(Run(INITIAL, before), Flush), after).tasks) == 0
    ensures var s := Run(INITIAL, before); var end := Run(Apply(s, Flush), after);
      && (Count(IS_CALL, s.tasks) == 0 ==> Balanced(end))
      && (end.rejected == s.rejected ==> (Balanced(end) <==> Count(IS_CALL, s.tasks) == 0))
    ensures var s := Run(INITIAL, before); var end := Run(Apply(s, Flush), after);
      end.rejected == [] && end.dropped == [] ==>
        (end.processedCount == |end.accepted|
         && end.processedCount == end.totalDeterministic + end.totalAmbiguous
         <==> Count(IS_CALL, s.tasks) == 0)
  {
    hide Outstanding, Apply, Run, TrackedBut, Uncounted, Located, InOrder;
    var end := Run(Apply(Run(INITIAL, before), Flush), after);
    EndOfFlush(before, after);
    RejectedIsKept(before, after);
    OutstandingIff(end);
  }

  /** When everything has finished: without a call suspended at the start of the flush the buffers
      are empty, whatever rejected; and unless a call rejected since, they are empty only then. */
  lemma RowsAreStrandedIff(before: seq<Action>, after: seq<Action>)
    requires Legal(INITIAL, before)
    requires Legal(Apply(Run(INITIAL, before), Flush), after) && OnlyResumes(after)
    requires Run(Apply(Run(INITIAL, before), Flush), after).tasks == []
    ensures var s := Run(INITIAL, before); var end := Run(Apply(s, Flush), after);
      && (Count(IS_CALL, s.tasks) == 0 ==> end.deterministic == [] && end.ambiguous == [])
      && (end.rejected == s.rejected ==>
            (end.deterministic == [] && end.ambiguous == [] <==> Count(IS_CALL, s.tasks) == 0))
  {
    hide Apply, Run, Sound, TrackedBut;
    EndOfFlush(before, after);
  }

  /** With no call suspended at the flush every accepted row ends in exactly one place, whatever
      rejected; and if nothing did, that place is one dispatched batch. */
  lemma QuietFlushDispatchesAll(before: seq<Action>, after: seq<Action>, r: Row)
    requires Legal(INITIAL, before) && Count(IS_CALL, Run(INITIAL, before).tasks) == 0
    requires Legal(Apply(Run(INITIAL, before), Flush), after) && OnlyResumes(after)
    requires Run(Apply(Run(INITIAL, before), Flush), after).tasks == []
    ensures var end := Run(Apply(Run(INITIAL, before), Flush), after);
      && Occurrences(end.accepted, r)
         == Occurrences(Flatten(end.persisted), r) + Occurrences(Flatten(end.enriched), r)
            + Occurrences(end.rejected, r) + Occurrences(end.failed, r) + Occurrences(end.dropped, r)
      && (end.rejected == [] && end.failed == [] && end.dropped == [] ==>
            Occurrences(end.accepted, r)
            == Occurrences(Flatten(end.persisted), r) + Occurrences(Flatten(end.enriched), r))
  {
    hide Apply, Run, TrackedBut, InOrder, Counted;
    EndOfFlush(before, after);
  }

  // ----- rows dropped by a rejected flush -----

  /** The ambiguous rows an action drops: those held by a flush whose enqueue rejects. */
  function HeldLost(s: State, a: Action): seq<Row>
    requires Enabled(s, a)
  {
    if a.Resume? && !a.ok && s.tasks[a.task].FlushPersisting? then s.tasks[a.task].held else []
  }

  function AllHeldLost(s: State, run: seq<Action>): seq<Row>
    requires Legal(s, run)
    decreases |run|
  {
    if run == [] then [] else HeldLost(s, run[0]) + AllHeldLost(Apply(s, run[0]), run[1..])
  }

  lemma ApplyDrops(s: State, a: Action)
    requires Enabled(s, a)
    ensures Apply(s, a).dropped == s.dropped + HeldLost(s, a)
  {
  }

  lemma {:induction false} DroppedFrom(s: State, run: seq<Action>)
    requires Legal(s, run)
    ensures Run(s, run).dropped == s.dropped + AllHeldLost(s, run)
    decreases |run|
  {
    hide Apply, HeldLost;
    if run != [] {
      ApplyDrops(s, run[0]);
      DroppedFrom(Apply(s, run[0]), run[1..]);
      assert (s.dropped + HeldLost(s, run[0])) + AllHeldLost(Apply(s, run[0]), run[1..])
          == s.dropped + (HeldLost(s, run[0]) + AllHeldLost(Apply(s, run[0]), run[1..]));
    }
  }

  /** The enqueue of some flush that is holding ambiguous rows rejects. */
  predicate FlushFailsHolding(s: State, run: seq<Action>)
    requires Legal(s, run)
    decreases |run|
  {
    run != [] && (HeldLost(s, run[0]) != [] || FlushFailsHolding(Apply(s, run[0]), run[1..]))
  }

  lemma {:induction false} NothingLostIff(s: State, run: seq<Action>)
    requires Legal(s, run)
    ensures AllHeldLost(s, run) == [] <==> !FlushFailsHolding(s, run)
    decreases |run|
  {
    hide Apply, HeldLost;
    if run != [] {
      NothingLostIff(Apply(s, run[0]), run[1..]);
    }
  }

  /** Over every run: the dropped rows are exactly those held by flushes whose enqueue rejected, in
      that order, and there are none exactly when no enqueue of a flush holding rows rejects. */
  lemma RowsAreDroppedIff(run: seq<Action>)
    requires Legal(INITIAL, run)
    ensures Run(INITIAL, run).dropped == AllHeldLost(INITIAL, run)
    ensures Run(INITIAL, run).dropped == [] <==> !FlushFailsHolding(INITIAL, run)
  {
    hide AllHeldLost, FlushFailsHolding, Run;
    DroppedFrom(INITIAL, run);
    NothingLostIff(INITIAL, run);
    assert INITIAL.dropped == [];
  }

  lemma OneStep(s: State, a: Action, rest: seq<Action>, run: seq<Action>)
    requires Enabled(s, a) && Legal(Apply(s, a), rest)
    requires run == [a] + rest
    ensures Legal(s, run) && Run(s, run) == Run(Apply(s, a), rest)
  {
    assert run[0] == a && run[1..] == rest;
  }

  /** One row of each class, and the enqueue of the flush rejects: the deterministic row fails, and
      the ambiguous one, already processed, is neither enriched nor counted. */
  lemma RejectedFlushDropsARow(ambiguous: Row, deterministic: Row)
    requires ambiguous.isAmbiguous && !deterministic.isAmbiguous
    ensures var run := [Call(ambiguous), Resume(0, true), Call(deterministic), Flush, Resume(0, false)];
      && Legal(INITIAL, run)
      && var end := Run(INITIAL, run);
      && end.tasks == [] && end.dropped == [ambiguous] && end.failed == [deterministic]
      && end.processedCount == 2 && end.totalDeterministic == 1 && end.totalAmbiguous == 0
  {
    var a := Apply(INITIAL, Call(ambiguous));
    var b := Apply(a, Resume(0, true));
    var c := Apply(b, Call(deterministic));
    var d := Apply(c, Flush);
    assert a.tasks == [Initializing(ambiguous)];
    assert b.tasks == [] && b.ambiguous == [ambiguous] && b.deterministic == [];
    assert c.ambiguous == [ambiguous] && c.deterministic == [deterministic] && c.tasks == [];
    assert d.tasks == [FlushPersisting([deterministic], [ambiguous])];
    var e := Apply(d, Resume(0, false));
    assert Legal(e, []) && Run(e, []) == e;
    OneStep(d, Resume(0, false), [], [Resume(0, false)]);
    OneStep(c, Flush, [Resume(0, false)], [Flush, Resume(0, false)]);
    OneStep(b, Call(deterministic), [Flush, Resume(0, false)], [Call(deterministic), Flush, Resume(0, false)]);
    OneStep(a, Resume(0, true), [Call(deterministic), Flush, Resume(0, false)],
      [Resume(0, true), Call(deterministic), Flush, Resume(0, false)]);
    OneStep(INITIAL, Call(ambiguous), [Resume(0, true), Call(deterministic), Flush, Resume(0, false)],
      [Call(ambiguous), Resume(0, true), Call(deterministic), Flush, Resume(0, false)]);
  }

  // ----- a call that waits for the model while the flush goes by -----

  /** Ambiguous rows number `from` to `from + n - 1`, and the calls that bring them. */
  function Doubtful(from: nat, n: nat): seq<Row> {
    seq(n, i requires 0 <= i => Row(from + i, true))
  }

  function Calls(from: nat, n: nat): seq<Action> {
    seq(n, i requires 0 <= i => Call(Row(from + i, true)))
  }

  lemma CallPushes(s: State, row: Row)
    requires s.initialized && row.isAmbiguous && s.deterministic == [] && |s.ambiguous| < AMBIGUOUS_BATCH_SIZE
    ensures Apply(s, Call(row)) == s.(
      ambiguous := s.ambiguous + [row], accepted := s.accepted + [row], pushed := s.pushed + [row],
      processedCount := s.processedCount + 1)
  {
  }

  lemma {:induction false} CallsFill(s: State, from: nat, n: nat)
    requires s.initialized && s.deterministic == [] && |s.ambiguous| + n <= AMBIGUOUS_BATCH_SIZE
    ensures Legal(s, Calls(from, n))
    ensures var rows := Doubtful(from, n);
      Run(s, Calls(from, n)) == s.(
        ambiguous := s.ambiguous + rows, accepted := s.accepted + rows, pushed := s.pushed + rows,
        processedCount := s.processedCount + n)
    decreases n
  {
    hide Apply;
    var rows := Doubtful(from, n);
    if n == 0 {
      assert s.ambiguous + rows == s.ambiguous && s.accepted + rows == s.accepted && s.pushed + rows == s.pushed;
    } else {
      var row := Row(from, true);
      var t := Apply(s, Call(row));
      CallPushes(s, row);
      CallsFill(t, from + 1, n - 1);
      assert rows == [row] + Doubtful(from + 1, n - 1);
      assert Calls(from, n) == [Call(row)] + Calls(from + 1, n - 1);
      OneStep(s, Call(row), Calls(from + 1, n - 1), Calls(from, n));
      assert t.ambiguous + Doubtful(from + 1, n - 1) == s.ambiguous + rows;
      assert t.accepted + Doubtful(from + 1, n - 1) == s.accepted + rows;
      assert t.pushed + Doubtful(from + 1, n - 1) == s.pushed + rows;
    }
  }

  /** Fifty ambiguous rows fill the buffer; the call of the fifty-first sends them to the model and
      waits there; the flush finds nothing to do and settles first. */
  function Overtaking(): seq<Action> {
    [Call(Row(0, true)), Resume(0, true)] + Calls(1, 49) + [Call(Row(50, true)), Flush, Resume(1, true)]
  }

  lemma FirstCallPushes()
    ensures var run := [Call(Row(0, true)), Resume(0, true)];
      && Legal(INITIAL, run)
      && Run(INITIAL, run) == INITIAL.(
           initialized := true, ambiguous := Doubtful(0, 1), accepted := Doubtful(0, 1), pushed := Doubtful(0, 1),
           processedCount := 1)
  {
    var first := Row(0, true);
    var a := Apply(INITIAL, Call(first));
    var b := Apply(a, Resume(0, true));
    assert a.tasks == [Initializing(first)] && b.tasks == [] && [first] == Doubtful(0, 1);
    assert Legal(b, []) && Run(b, []) == b;
    OneStep(a, Resume(0, true), [], [Resume(0, true)]);
    OneStep(INITIAL, Call(first), [Resume(0, true)], [Call(first), Resume(0, true)]);
  }

  lemma LastCallWaits(full: State)
    requires full.initialized && full.tasks == [] && full.deterministic == []
    requires full.ambiguous == full.accepted == full.pushed == Doubtful(0, 50)
    requires full.processedCount == 50 && full.totalDeterministic == full.totalAmbiguous == 0
    requires full.persisted == full.enriched == []
    ensures var run := [Call(Row(50, true)), Flush, Resume(1, true)];
      && Legal(full, run)
      && var s := Run(full, run);
      && s.tasks == [Enriching(Row(50, true), Doubtful(0, 50))]
      && s.accepted == Doubtful(0, 51) && s.pushed == Doubtful(0, 50)
      && s.processedCount == 50 && s.totalDeterministic == 0 && s.totalAmbiguous == 50
      && s.deterministic == s.ambiguous == [] && s.persisted == s.enriched == []
  {
    var row := Row(50, true);
    var a := Apply(full, Call(row));
    var b := Apply(a, Flush);
    assert b.tasks == [Enriching(row, Doubtful(0, 50)), FlushDraining];
    var c := Apply(b, Resume(1, true));
    assert c.tasks == [Enriching(row, Doubtful(0, 50))];
    assert Doubtful(0, 50) + [row] == Doubtful(0, 51);
    assert Legal(c, []) && Run(c, []) == c;
    OneStep(b, Resume(1, true), [], [Resume(1, true)]);
    OneStep(a, Flush, [Resume(1, true)], [Flush, Resume(1, true)]);
    OneStep(full, Call(row), [Flush, Resume(1, true)], [Call(row), Flush, Resume(1, true)]);
  }

  lemma OvertakingRuns()
    ensures Legal(INITIAL, Overtaking())
    ensures var s := Run(INITIAL, Overtaking());
      && s.tasks == [Enriching(Row(50, true), Doubtful(0, 50))]
      && s.accepted == Doubtful(0, 51) && s.pushed == Doubtful(0, 50)
      && s.processedCount == 50 && s.totalDeterministic == 0 && s.totalAmbiguous == 50
      && s.deterministic == s.ambiguous == [] && s.persisted == s.enriched == []
  {
    hide Run, Apply, Legal;
    var start, last := [Call(Row(0, true)), Resume(0, true)], [Call(Row(50, true)), Flush, Resume(1, true)];
    FirstCallPushes();
    var pushed := Run(INITIAL, start);
    CallsFill(pushed, 1, 49);
    RunAppend(INITIAL, start, Calls(1, 49));
    assert Doubtful(0, 1) + Doubtful(1, 49) == Doubtful(0, 50);
    LastCallWaits(Run(INITIAL, start + Calls(1, 49)));
    RunAppend(INITIAL, start + Calls(1, 49), last);
  }

  /** The stream reader does not await its calls, so its report can omit a row and not show it: when
      the flush has settled the statistics read 50 = 0 + 50, while 51 rows were accepted. */
  lemma ReportCanOmitARow()
    ensures Legal(INITIAL, Overtaking())
    ensures var s := Run(INITIAL, Overtaking());
      && |s.accepted| == 51 && Count(IS_CALL, s.tasks) == 1 && Uncounted(s.tasks) == 0
      && s.processedCount == 50 == s.totalDeterministic + s.totalAmbiguous
  {
    hide Run, Legal, Overtaking;
    OvertakingRuns();
    var waiting := Enriching(Row(50, true), Doubtful(0, 50));
    assert [waiting][1..] == [];
  }

  /** The model then answers, and the row goes into the buffer for good: counted as processed,
      never dispatched. */
  lemma OvertakenRowIsStranded()
    ensures Legal(INITIAL, Overtaking() + [Resume(0, true)])
    ensures var end := Run(INITIAL, Overtaking() + [Resume(0, true)]);
      && end.tasks == [] && |end.accepted| == end.processedCount == 51
      && end.totalDeterministic + end.totalAmbiguous == 50
      && end.ambiguous == [Row(50, true)] && end.persisted == [] && end.enriched == [Doubtful(0, 50)]
  {
    hide Overtaking;
    OvertakingRuns();
    var s := Run(INITIAL, Overtaking());
    var t := Apply(s, Resume(0, true));
    assert t.tasks == [];
    assert Legal(t, []) && Run(t, []) == t;
    OneStep(s, Resume(0, true), [], [Resume(0, true)]);
    RunAppend(INITIAL, Overtaking(), [Resume(0, true)]);
  }

  // ----- a flush resolves only after draining -----

  const IS_FLUSH: Task -> bool := (t: Task) => t.FlushPersisting? || t.FlushEnriching? || t.FlushDraining?

  /** What the steps of a run do to the flushes under way. */
  datatype Flushes = Flushes(started: nat, drained: nat, rejected: nat)

  function FlushStep(s: State, a: Action): Flushes
    requires Enabled(s, a)
  {
    match a
    case Call(_) => Flushes(0, 0, 0)
    case Flush => Flushes(if s.initialized then 1 else 0, 0, 0)
    case Resume(i, ok) =>
      if !IS_FLUSH(s.tasks[i]) then Flushes(0, 0, 0)
      else if !ok then Flushes(0, 0, 1)
      else Flushes(0, if s.tasks[i].FlushDraining? then 1 else 0, 0)
  }

  function FlushesIn(s: State, run: seq<Action>): Flushes
    requires Legal(s, run)
    decreases |run|
  {
    if run == [] then Flushes(0, 0, 0)
    else
      var first, rest := FlushStep(s, run[0]), FlushesIn(Apply(s, run[0]), run[1..]);
      Flushes(first.started + rest.started, first.drained + rest.drained, first.rejected + rest.rejected)
  }

  lemma CallsAreNoFlush(s: State, row: Row)
    ensures Count(IS_FLUSH, CheckDeterministic(s, row).tasks) == Count(IS_FLUSH, s.tasks)
    ensures Count(IS_FLUSH, CheckAmbiguous(s, row).tasks) == Count(IS_FLUSH, s.tasks)
  {
    CountPush(IS_FLUSH, s.tasks, Persisting(row, s.deterministic));
    CountPush(IS_FLUSH, s.tasks, Enriching(row, s.ambiguous));
  }

  lemma FlushGoesOn(s: State, held: seq<Row>)
    ensures Count(IS_FLUSH, FlushAmbiguous(s, held).tasks) == Count(IS_FLUSH, s.tasks) + 1
  {
    CountPush(IS_FLUSH, s.tasks, FlushDraining);
    CountPush(IS_FLUSH, s.tasks, FlushEnriching(held));
  }

  lemma ResumeKeepsFlushes(s: State, i: nat, ok: bool)
    requires Enabled(s, Resume(i, ok))
    ensures var step := FlushStep(s, Resume(i, ok));
      Count(IS_FLUSH, s.tasks) == Count(IS_FLUSH, Apply(s, Resume(i, ok)).tasks) + step.drained + step.rejected
  {
    hide CheckAmbiguous, CheckDeterministic, FlushAmbiguous;
    var t := s.(tasks := RemoveAt(s.tasks, i));
    CountRemove(IS_FLUSH, s.tasks, i);
    match s.tasks[i]
    case Initializing(row) => CallsAreNoFlush(t, row);
    case Persisting(row, batch) => CallsAreNoFlush(t.(persisted := t.persisted + [batch]), row);
    case Enriching(row, batch) =>
    case FlushPersisting(batch, held) => FlushGoesOn(t.(persisted := t.persisted + [batch]), held);
    case FlushEnriching(batch) => CountPush(IS_FLUSH, t.tasks, FlushDraining);
    case FlushDraining =>
  }

  lemma StepKeepsFlushes(s: State, a: Action)
    requires Enabled(s, a)
    ensures var step := FlushStep(s, a);
      Count(IS_FLUSH, s.tasks) + step.started == Count(IS_FLUSH, Apply(s, a).tasks) + step.drained + step.rejected
  {
    match a
    case Call(row) =>
      CallsAreNoFlush(s.(accepted := s.accepted + [row]), row);
      CountPush(IS_FLUSH, s.tasks, Initializing(row));
    case Flush =>
      FlushGoesOn(s, s.ambiguous);
      CountPush(IS_FLUSH, s.tasks, FlushPersisting(s.deterministic, s.ambiguous));
      CountPush(IS_FLUSH, s.tasks, FlushEnriching(s.ambiguous));
      CountPush(IS_FLUSH, s.tasks, FlushDraining);
    case Resume(i, ok) => ResumeKeepsFlushes(s, i, ok);
  }

  lemma {:induction false} FlushesFrom(s: State, run: seq<Action>)
    requires Legal(s, run)
    ensures var f := FlushesIn(s, run);
      Count(IS_FLUSH, s.tasks) + f.started == Count(IS_FLUSH, Run(s, run).tasks) + f.drained + f.rejected
    decreases |run|
  {
    hide Apply, FlushStep;
    if run != [] {
      StepKeepsFlushes(s, run[0]);
      FlushesFrom(Apply(s, run[0]), run[1..]);
    }
  }

  /** Over every run: each flush that found a queue is still under way, or has drained it, or has
      rejected; there is no other way for one to end. */
  lemma EveryFlushDrains(run: seq<Action>)
    requires Legal(INITIAL, run)
    ensures var f := FlushesIn(INITIAL, run);
      f.started == Count(IS_FLUSH, Run(INITIAL, run).tasks) + f.drained + f.rejected
  {
    hide Run, FlushesIn;
    FlushesFrom(INITIAL, run);
    assert INITIAL.tasks == [];
  }
}
