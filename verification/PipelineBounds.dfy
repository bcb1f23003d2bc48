/** How far the buffers overshoot their thresholds when at most `k` calls of `processRow`
    overlap: a call resumed after its own flush pushes without looking at the buffer again. */
module PipelineBounds {
  import opened Sequences
  import opened Pipeline

  const IS_CALL: Task -> bool := (t: Task) => t.Initializing? || t.Persisting? || t.Enriching?
  const PAST_DETERMINISTIC_CHECK: Task -> bool := (t: Task) => t.Persisting? || t.Enriching?
  const PAST_AMBIGUOUS_CHECK: Task -> bool := (t: Task) => t.Enriching?

  /** No call starts while `k` others are suspended. */
  predicate Overlap(k: nat, s: State, run: seq<Action>)
    requires Legal(s, run)
    decreases |run|
  {
    run == [] ||
    ((run[0].Call? ==> Count(IS_CALL, s.tasks) < k) && Overlap(k, Apply(s, run[0]), run[1..]))
  }

  predicate BatchBounded(k: nat, t: Task) {
    && (t.Persisting? ==> DETERMINISTIC_BATCH_SIZE <= |t.batch| <= DETERMINISTIC_BATCH_SIZE + k - 1)
    && (t.Enriching? ==> AMBIGUOUS_BATCH_SIZE <= |t.batch| <= AMBIGUOUS_BATCH_SIZE + k - 1)
  }

  ghost predicate Bounded(k: nat, s: State) {
    && Count(IS_CALL, s.tasks) <= k
    && |s.deterministic| + Count(PAST_DETERMINISTIC_CHECK, s.tasks) <= DETERMINISTIC_BATCH_SIZE + k - 1
    && |s.ambiguous| + Count(PAST_AMBIGUOUS_CHECK, s.tasks) <= AMBIGUOUS_BATCH_SIZE + k - 1
    && forall i :: 0 <= i < |s.tasks| ==> BatchBounded(k, s.tasks[i])
  }

  lemma {:induction false} CountsNest(tasks: seq<Task>)
    ensures Count(PAST_AMBIGUOUS_CHECK, tasks) <= Count(PAST_DETERMINISTIC_CHECK, tasks) <= Count(IS_CALL, tasks)
  {
    if tasks != [] {
      CountsNest(tasks[1..]);
    }
  }

  lemma CountsPush(tasks: seq<Task>, t: Task)
    ensures Count(IS_CALL, tasks + [t]) == Count(IS_CALL, tasks) + (if IS_CALL(t) then 1 else 0)
    ensures Count(PAST_DETERMINISTIC_CHECK, tasks + [t])
         == Count(PAST_DETERMINISTIC_CHECK, tasks) + (if PAST_DETERMINISTIC_CHECK(t) then 1 else 0)
    ensures Count(PAST_AMBIGUOUS_CHECK, tasks + [t])
         == Count(PAST_AMBIGUOUS_CHECK, tasks) + (if PAST_AMBIGUOUS_CHECK(t) then 1 else 0)
  {
    CountPush(IS_CALL, tasks, t);
    CountPush(PAST_DETERMINISTIC_CHECK, tasks, t);
    CountPush(PAST_AMBIGUOUS_CHECK, tasks, t);
  }

  /** A running call is not among the tasks, so fewer than `k` are suspended; once past the
      check of the deterministic buffer it still has one push to that buffer to come. */
  lemma CheckAmbiguousBounded(k: nat, s: State, row: Row)
    requires Bounded(k, s) && Count(IS_CALL, s.tasks) < k
    requires |s.deterministic| + Count(PAST_DETERMINISTIC_CHECK, s.tasks) < DETERMINISTIC_BATCH_SIZE + k - 1
    ensures Bounded(k, CheckAmbiguous(s, row))
  {
    CountsNest(s.tasks);
    CountsPush(s.tasks, Enriching(row, s.ambiguous));
  }

  lemma CheckDeterministicBounded(k: nat, s: State, row: Row)
    requires Bounded(k, s) && Count(IS_CALL, s.tasks) < k
    ensures Bounded(k, CheckDeterministic(s, row))
  {
    CountsNest(s.tasks);
    if |s.deterministic| >= DETERMINISTIC_BATCH_SIZE {
      CountsPush(s.tasks, Persisting(row, s.deterministic));
    } else {
      CheckAmbiguousBounded(k, s, row);
    }
  }

  lemma FlushAmbiguousBounded(k: nat, s: State, held: seq<Row>)
    requires Bounded(k, s)
    ensures Bounded(k, FlushAmbiguous(s, held))
  {
    CountsPush(s.tasks, FlushDraining);
    CountsPush(s.tasks, FlushEnriching(held));
  }

  /** Taking a task out makes room for what its continuation does. */
  lemma RemoveBounded(k: nat, s: State, i: nat)
    requires i < |s.tasks| && Bounded(k, s)
    ensures var t := s.(tasks := RemoveAt(s.tasks, i));
      && Bounded(k, t)
      && (IS_CALL(s.tasks[i]) ==> Count(IS_CALL, t.tasks) < k)
      && (PAST_DETERMINISTIC_CHECK(s.tasks[i]) ==>
            |t.deterministic| + Count(PAST_DETERMINISTIC_CHECK, t.tasks) < DETERMINISTIC_BATCH_SIZE + k - 1)
      && (PAST_AMBIGUOUS_CHECK(s.tasks[i]) ==>
            |t.ambiguous| + Count(PAST_AMBIGUOUS_CHECK, t.tasks) < AMBIGUOUS_BATCH_SIZE + k - 1)
  {
    hide Count, BatchBounded;
    CountRemove(IS_CALL, s.tasks, i);
    CountRemove(PAST_DETERMINISTIC_CHECK, s.tasks, i);
    CountRemove(PAST_AMBIGUOUS_CHECK, s.tasks, i);
  }

  lemma ResumeBounded(k: nat, s: State, i: nat, ok: bool)
    requires Enabled(s, Resume(i, ok)) && Bounded(k, s)
    ensures Bounded(k, Apply(s, Resume(i, ok)))
  {
    var t := s.(tasks := RemoveAt(s.tasks, i));
    RemoveBounded(k, s, i);
    hide Count, BatchBounded;
    match s.tasks[i]
    case Initializing(row) => CheckDeterministicBounded(k, t, row);
    case Persisting(row, batch) => CheckAmbiguousBounded(k, t.(persisted := t.persisted + [batch]), row);
    case Enriching(row, batch) =>
    case FlushPersisting(batch, held) => FlushAmbiguousBounded(k, t.(persisted := t.persisted + [batch]), held);
    case FlushEnriching(batch) => CountsPush(t.tasks, FlushDraining);
    case FlushDraining =>
  }

  lemma ApplyBounded(k: nat, s: State, a: Action)
    requires Enabled(s, a) && Bounded(k, s)
    requires a.Call? ==> Count(IS_CALL, s.tasks) < k
    ensures Bounded(k, Apply(s, a))
  {
    match a
    case Call(row) =>
      CountsPush(s.tasks, Initializing(row));
      CheckDeterministicBounded(k, s.(accepted := s.accepted + [row]), row);
    case Flush =>
      CountsPush(s.tasks, FlushPersisting(s.deterministic, s.ambiguous));
      FlushAmbiguousBounded(k, if s.ambiguous == [] then s else TakeAmbiguous(s), s.ambiguous);
    case Resume(i, ok) =>
      ResumeBounded(k, s, i, ok);
  }

  lemma {:induction false} BoundedFrom(k: nat, s: State, run: seq<Action>)
    requires Legal(s, run) && Overlap(k, s, run) && Bounded(k, s)
    ensures Bounded(k, Run(s, run))
    decreases |run|
  {
    if run != [] {
      ApplyBounded(k, s, run[0]);
      BoundedFrom(k, Apply(s, run[0]), run[1..]);
    }
  }

  /** With at most `k` overlapping calls, and flushes at any time, no buffer exceeds its
      threshold by more than `k - 1`, and neither does a batch cut at the threshold. */
  lemma BuffersAreBounded(k: nat, run: seq<Action>)
    requires k >= 1 && Legal(INITIAL, run) && Overlap(k, INITIAL, run)
    ensures var s := Run(INITIAL, run);
      && |s.deterministic| <= 5000 + k - 1
      && |s.ambiguous| <= 50 + k - 1
      && (forall t :: t in s.tasks && t.Persisting? ==> 5000 <= |t.batch| <= 5000 + k - 1)
      && (forall t :: t in s.tasks && t.Enriching? ==> 50 <= |t.batch| <= 50 + k - 1)
  {
    BoundedFrom(k, INITIAL, run);
  }

  // ----- the bound is attained -----

  ghost predicate Reaches(k: nat, s: State, t: State) {
    exists run :: Legal(s, run) && Overlap(k, s, run) && Run(s, run) == t
  }

  lemma ReachesStep(k: nat, s: State, a: Action)
    requires Enabled(s, a) && (a.Call? ==> Count(IS_CALL, s.tasks) < k)
    ensures Reaches(k, s, Apply(s, a))
  {
    var run := [a];
    var t := Apply(s, a);
    assert run[0] == a && run[1..] == [];
    assert Legal(t, []) && Overlap(k, t, []) && Run(t, []) == t;
    assert Legal(s, run) && Overlap(k, s, run) && Run(s, run) == t;
  }

  lemma {:induction false} OverlapAppend(k: nat, s: State, a: seq<Action>, b: seq<Action>)
    requires Legal(s, a) && Overlap(k, s, a) && Legal(Run(s, a), b) && Overlap(k, Run(s, a), b)
    requires Legal(s, a + b)
    ensures Overlap(k, s, a + b)
    decreases |a|
  {
    if a == [] {
      assert a + b == b;
    } else {
      assert (a + b)[0] == a[0] && (a + b)[1..] == a[1..] + b;
      OverlapAppend(k, Apply(s, a[0]), a[1..], b);
    }
  }

  lemma ReachesTrans(k: nat, s: State, t: State, u: State)
    requires Reaches(k, s, t) && Reaches(k, t, u)
    ensures Reaches(k, s, u)
  {
    var a :| Legal(s, a) && Overlap(k, s, a) && Run(s, a) == t;
    var b :| Legal(t, b) && Overlap(k, t, b) && Run(t, b) == u;
    RunAppend(s, a, b);
    OverlapAppend(k, s, a, b);
  }

  /** The buffer a row of the class of `row` goes to, the other one, and its threshold. */
  function BufferOf(s: State, row: Row): seq<Row> { if row.isAmbiguous then s.ambiguous else s.deterministic }

  function OtherOf(s: State, row: Row): seq<Row> { if row.isAmbiguous then s.deterministic else s.ambiguous }

  function Threshold(row: Row): nat {
    if row.isAmbiguous then AMBIGUOUS_BATCH_SIZE else DETERMINISTIC_BATCH_SIZE
  }

  /** A call of `row` suspended after cutting a batch of its own class. */
  predicate Waiting(t: Task, row: Row) {
    if row.isAmbiguous then t.Enriching? && t.row == row else t.Persisting? && t.row == row
  }

  ghost predicate AllWaiting(tasks: seq<Task>, row: Row) {
    forall i :: 0 <= i < |tasks| ==> Waiting(tasks[i], row)
  }

  lemma {:induction false} AllCount(tasks: seq<Task>, row: Row)
    requires AllWaiting(tasks, row)
    ensures Count(IS_CALL, tasks) == |tasks|
  {
    if tasks != [] {
      assert Waiting(tasks[0], row);
      AllCount(tasks[1..], row);
    }
  }

  /** Room for `n` more rows: `n` calls that never suspend fill the buffer. */
  lemma {:induction false} Fill(k: nat, s: State, row: Row, n: nat) returns (t: State)
    requires s.initialized && OtherOf(s, row) == [] && |BufferOf(s, row)| + n <= Threshold(row)
    requires Count(IS_CALL, s.tasks) < k
    ensures Reaches(k, s, t) && t.initialized && OtherOf(t, row) == []
    ensures t.tasks == s.tasks && |BufferOf(t, row)| == |BufferOf(s, row)| + n
    decreases n
  {
    if n == 0 {
      t := s;
      assert Legal(s, []) && Overlap(k, s, []) && Run(s, []) == t;
    } else {
      var u := Apply(s, Call(row));
      ReachesStep(k, s, Call(row));
      t := Fill(k, u, row, n - 1);
      ReachesTrans(k, s, u, t);
    }
  }

  /** A call that finds its buffer full is suspended and leaves the buffer empty. */
  lemma FullBufferSuspends(k: nat, s: State, row: Row)
    requires s.initialized && OtherOf(s, row) == [] && |BufferOf(s, row)| >= Threshold(row)
    requires Count(IS_CALL, s.tasks) < k
    ensures var t := Apply(s, Call(row));
      && Reaches(k, s, t) && t.initialized && OtherOf(t, row) == [] && BufferOf(t, row) == []
      && |t.tasks| == |s.tasks| + 1 && t.tasks[..|s.tasks|] == s.tasks
      && Waiting(t.tasks[|s.tasks|], row) && t.tasks[|s.tasks|].batch == BufferOf(s, row)
  {
    ReachesStep(k, s, Call(row));
  }

  /** Each full buffer suspends one more call. */
  lemma {:induction false} Stack(k: nat, s: State, row: Row, j: nat) returns (t: State)
    requires s.initialized && OtherOf(s, row) == [] && |BufferOf(s, row)| <= Threshold(row)
    requires AllWaiting(s.tasks, row) && |s.tasks| + j < k
    ensures Reaches(k, s, t) && t.initialized && OtherOf(t, row) == []
    ensures AllWaiting(t.tasks, row) && |t.tasks| == |s.tasks| + j && |BufferOf(t, row)| == Threshold(row)
    decreases j
  {
    AllCount(s.tasks, row);
    t := Fill(k, s, row, Threshold(row) - |BufferOf(s, row)|);
    if j > 0 {
      var u := Apply(t, Call(row));
      FullBufferSuspends(k, t, row);
      ReachesTrans(k, s, t, u);
      assert forall i :: 0 <= i < |t.tasks| ==> u.tasks[i] == u.tasks[..|t.tasks|][i];
      t := Stack(k, u, row, j - 1);
      ReachesTrans(k, s, u, t);
    }
  }

  /** Resuming the suspended calls pushes one row each, without a further check. */
  lemma {:induction false} Unstack(k: nat, s: State, row: Row) returns (t: State)
    requires s.initialized && OtherOf(s, row) == [] && AllWaiting(s.tasks, row)
    ensures Reaches(k, s, t) && t.initialized && OtherOf(t, row) == [] && t.tasks == []
    ensures |BufferOf(t, row)| == |BufferOf(s, row)| + |s.tasks|
    decreases |s.tasks|
  {
    if s.tasks == [] {
      t := s;
      assert Legal(s, []) && Overlap(k, s, []) && Run(s, []) == t;
    } else {
      var u := Apply(s, Resume(0, true));
      assert Waiting(s.tasks[0], row);
      assert u.tasks == s.tasks[1..];
      ReachesStep(k, s, Resume(0, true));
      t := Unstack(k, u, row);
      ReachesTrans(k, s, u, t);
    }
  }

  /** The state with the fullest buffer, and the state after the call that cuts it. */
  lemma FullestBuffer(k: nat, row: Row) returns (full: State, cut: State)
    requires k >= 1
    ensures Reaches(k, INITIAL, full) && |BufferOf(full, row)| == Threshold(row) + k - 1
    ensures Reaches(k, INITIAL, cut) && |cut.tasks| == 1
    ensures Waiting(cut.tasks[0], row) && |cut.tasks[0].batch| == Threshold(row) + k - 1
  {
    var a := Apply(INITIAL, Call(row));
    ReachesStep(k, INITIAL, Call(row));
    assert a.tasks == [Initializing(row)];
    var b := Apply(a, Resume(0, true));
    ReachesStep(k, a, Resume(0, true));
    ReachesTrans(k, INITIAL, a, b);
    assert b.tasks == [] && |BufferOf(b, row)| == 1;
    var c := Stack(k, b, row, k - 1);
    ReachesTrans(k, INITIAL, b, c);
    full := Unstack(k, c, row);
    ReachesTrans(k, INITIAL, c, full);
    cut := Apply(full, Call(row));
    FullBufferSuspends(k, full, row);
    ReachesTrans(k, INITIAL, full, cut);
  }

  /** For every `k` runs with at most `k` overlapping calls do reach all four bounds: on either
      buffer, and on the batches cut from it at a threshold. */
  lemma BoundIsAttained(k: nat)
    requires k >= 1
    ensures exists s :: Reaches(k, INITIAL, s) && |s.deterministic| == 5000 + k - 1
    ensures exists s :: Reaches(k, INITIAL, s) && |s.ambiguous| == 50 + k - 1
    ensures exists s :: Reaches(k, INITIAL, s) && |s.tasks| == 1
                        && s.tasks[0].Persisting? && |s.tasks[0].batch| == 5000 + k - 1
    ensures exists s :: Reaches(k, INITIAL, s) && |s.tasks| == 1
                        && s.tasks[0].Enriching? && |s.tasks[0].batch| == 50 + k - 1
  {
    hide Reaches;
    var d, p := FullestBuffer(k, Row(0, false));
    var a, e := FullestBuffer(k, Row(0, true));
  }
}
