/** The counters of the batch persistence queue, under any order of the events that touch them:
    `queue.add` resolving inside `enqueue`, the worker finishing a job, and the worker's
    `failed` event. Delivery and retry belong to the queue library and are not modelled. */
module PersistenceQueue {
  import opened Options

  datatype Event = Added | Completed | Failed(hasJob: bool)

  datatype Counters = Counters(pending: nat, queued: nat, completed: nat, failed: nat)

  const ZERO := Counters(0, 0, 0, 0)

  function Decrement(n: nat): nat { if n == 0 then 0 else n - 1 }

  function Step(c: Counters, e: Event): Counters {
    match e
    case Added => c.(pending := c.pending + 1, queued := c.queued + 1)
    case Completed => c.(pending := Decrement(c.pending), completed := c.completed + 1)
    case Failed(hasJob) =>
      if hasJob then c.(pending := Decrement(c.pending), failed := c.failed + 1) else c
  }

  function RunEvents(c: Counters, es: seq<Event>): Counters {
    if es == [] then c else Step(RunEvents(c, es[..|es| - 1]), es[|es| - 1])
  }

  lemma {:induction false} RunEventsAppend(c: Counters, a: seq<Event>, b: seq<Event>)
    ensures RunEvents(c, a + b) == RunEvents(RunEvents(c, a), b)
  {
    if b == [] {
      assert a + b == a;
    } else {
      RunEventsAppend(c, a, b[..|b| - 1]);
      assert (a + b)[..|a + b| - 1] == a + b[..|b| - 1];
    }
  }

  function Weight(e: Event): int {
    match e
    case Added => 1
    case Completed => -1
    case Failed(hasJob) => if hasJob then -1 else 0
  }

  /** Jobs added minus jobs completed or failed. */
  function Net(es: seq<Event>): int {
    if es == [] then 0 else Net(es[..|es| - 1]) + Weight(es[|es| - 1])
  }

  /** Decrements that found the counter at zero and were clamped. */
  function Clamped(es: seq<Event>): nat {
    if es == [] then 0
    else
      Clamped(es[..|es| - 1])
      + (if Weight(es[|es| - 1]) < 0 && RunEvents(ZERO, es[..|es| - 1]).pending == 0 then 1 else 0)
  }

  lemma {:induction false} NetAppend(a: seq<Event>, b: seq<Event>)
    ensures Net(a + b) == Net(a) + Net(b)
  {
    if b == [] {
      assert a + b == a;
    } else {
      NetAppend(a, b[..|b| - 1]);
      assert (a + b)[..|a + b| - 1] == a + b[..|b| - 1];
    }
  }

  /** Under every order of events the counter is off by exactly the clamped decrements. */
  lemma {:induction false} PendingLaw(es: seq<Event>)
    ensures var c := RunEvents(ZERO, es);
      && c.pending == c.queued - c.completed - c.failed + Clamped(es)
      && Net(es) == c.queued - c.completed - c.failed
  {
    if es != [] {
      PendingLaw(es[..|es| - 1]);
    }
  }

  /** The clamped decrements are the deepest point the net count reaches below zero. */
  lemma {:induction false} ClampedIsDepth(es: seq<Event>)
    ensures forall j :: 0 <= j <= |es| ==> -Net(es[..j]) <= Clamped(es)
    ensures exists j :: 0 <= j <= |es| && -Net(es[..j]) == Clamped(es)
  {
    if es == [] {
      assert -Net(es[..0]) == Clamped(es);
    } else {
      var front := es[..|es| - 1];
      ClampedIsDepth(front);
      PendingLaw(front);
      var k :| 0 <= k <= |front| && -Net(front[..k]) == Clamped(front);
      assert es[..|es|] == es;
      forall j | 0 <= j <= |es| ensures -Net(es[..j]) <= Clamped(es) {
        if j < |es| {
          assert es[..j] == front[..j];
        }
      }
      assert front[..k] == es[..k];
      if Clamped(es) > Clamped(front) {
        assert -Net(es[..|es|]) == Clamped(es);
      } else {
        assert -Net(es[..k]) == Clamped(es);
      }
    }
  }

  /** In closed form: the counter is the greatest net count over the suffixes of the history. */
  lemma PendingIsGreatestSuffix(es: seq<Event>)
    ensures forall j :: 0 <= j <= |es| ==> Net(es[j..]) <= RunEvents(ZERO, es).pending
    ensures exists j :: 0 <= j <= |es| && Net(es[j..]) == RunEvents(ZERO, es).pending
  {
    hide Net, RunEvents, Clamped;
    ClampedIsDepth(es);
    PendingLaw(es);
    forall j | 0 <= j <= |es| ensures Net(es[j..]) == Net(es) - Net(es[..j]) {
      assert es == es[..j] + es[j..];
      NetAppend(es[..j], es[j..]);
    }
    var k :| 0 <= k <= |es| && -Net(es[..k]) == Clamped(es);
    assert Net(es[k..]) == RunEvents(ZERO, es).pending;
  }

  /** Once every added job has completed or failed, the counter is back at zero exactly when
      no completion was ever handled before its addition was counted. */
  lemma SettledIffNeverNegative(es: seq<Event>)
    requires Net(es) == 0
    ensures RunEvents(ZERO, es).pending == 0 <==> forall j :: 0 <= j <= |es| ==> Net(es[..j]) >= 0
  {
    ClampedIsDepth(es);
    PendingLaw(es);
  }

  /** The counter is incremented only after `queue.add` resolves; a worker that is faster leaves
      the counter at one for good. */
  lemma FastWorkerLeavesCounterAtOne()
    ensures var c := RunEvents(ZERO, [Completed, Added]); c.completed == c.queued == 1 && c.pending == 1
  {
    var es := [Completed, Added];
    assert es[..1] == [Completed] && [Completed][..0] == [];
    assert RunEvents(ZERO, [Completed]) == Step(ZERO, Completed);
  }

  // ----- the class -----

  datatype EnqueueError = NotInitialized | AddRejected

  /** One turn of a wait loop: how long the sleep took and what happened meanwhile. */
  datatype Tick = Tick(slept: nat, events: seq<Event>)

  /** What happened during the first `n` turns. */
  function Happened(env: nat -> Tick, n: nat): seq<Event> {
    if n == 0 then [] else Happened(env, n - 1) + env(n - 1).events
  }

  function Slept(env: nat -> Tick, n: nat): nat {
    if n == 0 then 0 else Slept(env, n - 1) + env(n - 1).slept
  }

  function PendingAfter(c: Counters, env: nat -> Tick, n: nat): nat {
    RunEvents(c, Happened(env, n)).pending
  }

  const DRAIN_WAIT_MS: nat := 60000
  const COMPLETION_WAIT_MS: nat := 30000

  ghost predicate GoesOn(c: Counters, env: nat -> Tick, enough: nat -> bool, limit: nat, n: nat) {
    !enough(PendingAfter(c, env, n)) && Slept(env, n) <= limit
  }

  lemma OneMoreTurn(c: Counters, env: nat -> Tick, n: nat)
    ensures Happened(env, n + 1) == Happened(env, n) + env(n).events
    ensures Slept(env, n + 1) == Slept(env, n) + env(n).slept
    ensures RunEvents(c, Happened(env, n + 1)) == RunEvents(RunEvents(c, Happened(env, n)), env(n).events)
  {
    RunEventsAppend(c, Happened(env, n), env(n).events);
  }

  lemma NoTurnYet(c: Counters, env: nat -> Tick)
    ensures Slept(env, 0) == 0 && RunEvents(c, Happened(env, 0)) == c
  {
  }

  /** The wait for the counter to satisfy `enough` takes exactly `rounds` turns: it goes on while
      the counter does not and the time is not up, and it times out when the time is up after a
      turn, whatever the counter says then. */
  ghost predicate Waits(
    c: Counters, env: nat -> Tick, enough: nat -> bool, limit: nat, rounds: nat, timedOut: bool)
  {
    && (forall n: nat :: n < rounds ==> GoesOn(c, env, enough, limit, n))
    && (timedOut <==> Slept(env, rounds) > limit)
    && (!timedOut ==> enough(PendingAfter(c, env, rounds)))
  }

  /** The environment alone decides how long a wait takes and how it ends. */
  lemma WaitIsDetermined(
    c: Counters, env: nat -> Tick, enough: nat -> bool, limit: nat, m: nat, a: bool, n: nat, b: bool)
    requires Waits(c, env, enough, limit, m, a) && Waits(c, env, enough, limit, n, b)
    ensures m == n && a == b
  {
    var onAtM, onAtN := GoesOn(c, env, enough, limit, m), GoesOn(c, env, enough, limit, n);
  }

  lemma {:induction false} SleptAtLeast(env: nat -> Tick, n: nat, step: nat)
    requires forall i :: env(i).slept >= step
    ensures Slept(env, n) >= step * n
  {
    if n > 0 {
      SleptAtLeast(env, n - 1, step);
      assert step * n == step * (n - 1) + step;
    }
  }

  lemma {:induction false} QuietMeansNothingHappened(env: nat -> Tick, n: nat)
    requires forall i :: env(i).events == []
    ensures Happened(env, n) == []
  {
    if n > 0 {
      QuietMeansNothingHappened(env, n - 1);
    }
  }

  /** If nothing happens during a wait, it times out exactly when the counter was not good enough
      at its start; otherwise it does not wait at all. */
  lemma QuietWaitTimesOutIff(
    c: Counters, env: nat -> Tick, enough: nat -> bool, limit: nat, rounds: nat, timedOut: bool)
    requires Waits(c, env, enough, limit, rounds, timedOut) && forall i :: env(i).events == []
    ensures timedOut <==> !enough(c.pending)
    ensures enough(c.pending) ==> rounds == 0
  {
    QuietMeansNothingHappened(env, 0);
    QuietMeansNothingHappened(env, rounds);
    assert PendingAfter(c, env, 0) == c.pending && PendingAfter(c, env, rounds) == c.pending;
    var firstTurn := GoesOn(c, env, enough, limit, 0);
    assert Slept(env, 0) == 0;
  }

  /** Backpressure waits for less than four fifths of the limit, a drain for zero. */
  function BelowHighWater(maxQueueSize: nat): nat -> bool {
    (pending: nat) => 5 * pending < 4 * maxQueueSize
  }

  const IS_ZERO: nat -> bool := (pending: nat) => pending == 0

  lemma AddedLast(c: Counters, es: seq<Event>)
    ensures RunEvents(c, es + [Added]) == Step(RunEvents(c, es), Added)
  {
    assert (es + [Added])[..|es|] == es;
  }

  class BatchPersistenceQueue {
    const maxQueueSize: nat
    var initialized: bool
    var pendingCount: nat
    var queued: nat
    var completed: nat
    var failed: nat

    constructor (maxQueueSize: nat)
      ensures !initialized && Values() == ZERO && this.maxQueueSize == maxQueueSize
    {
      this.maxQueueSize := maxQueueSize;
      initialized := false;
      pendingCount, queued, completed, failed := 0, 0, 0, 0;
    }

    function Values(): Counters
      reads this
    {
      Counters(pendingCount, queued, completed, failed)
    }

    method Initialize()
      modifies `initialized
      ensures initialized
    {
      initialized := true;
    }

    method OnCompleted()
      modifies `completed, `pendingCount
      ensures Values() == Step(old(Values()), Completed)
    {
      completed := completed + 1;
      pendingCount := if pendingCount - 1 < 0 then 0 else pendingCount - 1;
    }

    method OnFailed(hasJob: bool)
      modifies `failed, `pendingCount
      ensures Values() == Step(old(Values()), Failed(hasJob))
    {
      if hasJob {
        failed := failed + 1;
        pendingCount := if pendingCount - 1 < 0 then 0 else pendingCount - 1;
      }
    }

    method OnAdded()
      modifies `queued, `pendingCount
      ensures Values() == Step(old(Values()), Added)
    {
      pendingCount := pendingCount + 1;
      queued := queued + 1;
    }

    /** Other handlers run while this activity is suspended. */
    method Elapse(events: seq<Event>)
      modifies `pendingCount, `queued, `completed, `failed
      ensures Values() == RunEvents(old(Values()), events)
    {
      for i := 0 to |events|
        invariant Values() == RunEvents(old(Values()), events[..i])
      {
        assert events[..i + 1][..i] == events[..i];
        match events[i]
        case Added => OnAdded();
        case Completed => OnCompleted();
        case Failed(hasJob) => OnFailed(hasJob);
      }
      assert events[..|events|] == events;
    }

    /** Backpressure: wait until the counter is below four fifths of the limit, or a minute. */
    method WaitForDrain(env: nat -> Tick) returns (timedOut: bool, rounds: nat)
      requires forall i :: env(i).slept >= 500
      modifies `pendingCount, `queued, `completed, `failed
      ensures Waits(old(Values()), env, BelowHighWater(maxQueueSize), DRAIN_WAIT_MS, rounds, timedOut)
      ensures Values() == RunEvents(old(Values()), Happened(env, rounds))
      ensures rounds <= 121
    {
      hide Happened, Slept, RunEvents;
      timedOut, rounds := false, 0;
      NoTurnYet(old(Values()), env);
      var elapsed := 0;
      while 5 * pendingCount >= 4 * maxQueueSize
        invariant Values() == RunEvents(old(Values()), Happened(env, rounds))
        invariant elapsed == Slept(env, rounds) && 500 * rounds <= elapsed <= DRAIN_WAIT_MS
        invariant forall n: nat :: n < rounds ==> GoesOn(old(Values()), env, BelowHighWater(maxQueueSize), DRAIN_WAIT_MS, n)
        decreases DRAIN_WAIT_MS - elapsed
      {
        assert GoesOn(old(Values()), env, BelowHighWater(maxQueueSize), DRAIN_WAIT_MS, rounds);
        OneMoreTurn(old(Values()), env, rounds);
        Elapse(env(rounds).events);
        elapsed := elapsed + env(rounds).slept;
        rounds := rounds + 1;
        if elapsed > DRAIN_WAIT_MS {
          timedOut := true;
          break;
        }
      }
    }

    /** The end of `drain`: wait for the counter to reach zero, or half a minute; then reset. */
    method WaitForCompletion(env: nat -> Tick) returns (timedOut: bool, rounds: nat)
      requires forall i :: env(i).slept >= 100
      modifies `pendingCount, `queued, `completed, `failed
      ensures Waits(old(Values()), env, IS_ZERO, COMPLETION_WAIT_MS, rounds, timedOut)
      ensures Values() == RunEvents(old(Values()), Happened(env, rounds)).(pending := 0)
      ensures rounds <= 301
    {
      hide Happened, Slept, RunEvents;
      timedOut, rounds := false, 0;
      NoTurnYet(old(Values()), env);
      var elapsed := 0;
      while pendingCount > 0
        invariant Values() == RunEvents(old(Values()), Happened(env, rounds))
        invariant elapsed == Slept(env, rounds) && 100 * rounds <= elapsed <= COMPLETION_WAIT_MS
        invariant forall n: nat :: n < rounds ==> GoesOn(old(Values()), env, IS_ZERO, COMPLETION_WAIT_MS, n)
        decreases COMPLETION_WAIT_MS - elapsed
      {
        assert GoesOn(old(Values()), env, IS_ZERO, COMPLETION_WAIT_MS, rounds);
        OneMoreTurn(old(Values()), env, rounds);
        Elapse(env(rounds).events);
        elapsed := elapsed + env(rounds).slept;
        rounds := rounds + 1;
        if elapsed > COMPLETION_WAIT_MS {
          timedOut := true;
          break;
        }
      }
      pendingCount := 0;
    }

    /** `enqueue`: the events of `during` happen while `queue.add` is awaited, possibly the
        completion of the very job being added. A full queue first waits; then, even after a
        timeout, the job is added, and counted once `queue.add` has resolved. */
    method Enqueue(candidates: nat, env: nat -> Tick, during: seq<Event>, addResolves: bool)
      returns (r: Result<(), EnqueueError>, waited: nat, timedOut: bool)
      requires forall i :: env(i).slept >= 500
      modifies `pendingCount, `queued, `completed, `failed
      ensures !initialized ==> r == Err(NotInitialized)
      ensures initialized && candidates == 0 ==> r == Ok(())
      ensures !initialized || candidates == 0 ==> waited == 0 && Values() == old(Values())
      ensures initialized && candidates > 0 ==>
        && r == (if addResolves then Ok(()) else Err(AddRejected))
        && Values() == RunEvents(old(Values()),
             Happened(env, waited) + during + (if addResolves then [Added] else []))
        && (old(pendingCount) < maxQueueSize ==> waited == 0)
        && (old(pendingCount) >= maxQueueSize ==>
              Waits(old(Values()), env, BelowHighWater(maxQueueSize), DRAIN_WAIT_MS, waited, timedOut))
    {
      waited, timedOut := 0, false;
      NoTurnYet(old(Values()), env);
      if !initialized { return Err(NotInitialized), 0, false; }
      if candidates == 0 { return Ok(()), 0, false; }
      if pendingCount >= maxQueueSize {
        timedOut, waited := WaitForDrain(env);
      }
      Elapse(during);
      RunEventsAppend(old(Values()), Happened(env, waited), during);
      if !addResolves {
        assert Happened(env, waited) + during + [] == Happened(env, waited) + during;
        return Err(AddRejected), waited, timedOut;
      }
      OnAdded();
      AddedLast(old(Values()), Happened(env, waited) + during);
      return Ok(()), waited, timedOut;
    }
  }

  /** The drain of a queue with this history ends like the wait for zero from its counters, and
      one that does not time out has seen every queued job complete or fail. */
  method DrainAfter(q: BatchPersistenceQueue, ghost history: seq<Event>, env: nat -> Tick)
    returns (timedOut: bool, rounds: nat)
    requires q.Values() == RunEvents(ZERO, history)
    requires forall i :: env(i).slept >= 100
    modifies q
    ensures Waits(RunEvents(ZERO, history), env, IS_ZERO, COMPLETION_WAIT_MS, rounds, timedOut)
    ensures !timedOut ==> q.completed + q.failed >= q.queued
    ensures q.Values() == RunEvents(ZERO, history + Happened(env, rounds)).(pending := 0)
  {
    timedOut, rounds := q.WaitForCompletion(env);
    RunEventsAppend(ZERO, history, Happened(env, rounds));
    PendingLaw(history + Happened(env, rounds));
  }

  /** Every added job has ended and nothing more happens: the final drain nevertheless waits for
      its timeout exactly when some end was handled before its addition was counted. */
  lemma SettledDrainTimesOutIff(history: seq<Event>, env: nat -> Tick, rounds: nat, timedOut: bool)
    requires Net(history) == 0 && forall i :: env(i).events == []
    requires Waits(RunEvents(ZERO, history), env, IS_ZERO, COMPLETION_WAIT_MS, rounds, timedOut)
    ensures timedOut <==> exists j :: 0 <= j <= |history| && Net(history[..j]) < 0
    ensures timedOut ==> Slept(env, rounds) > 30000
  {
    QuietWaitTimesOutIff(RunEvents(ZERO, history), env, IS_ZERO, COMPLETION_WAIT_MS, rounds, timedOut);
    SettledIffNeverNegative(history);
  }
}
