/**
 * Before a monitor runs an action it waits ten minutes for all others. When does every punctual monitor get through?
 * It counts how long after the first node the last one can finish, and the answer is exact.
 */
module MonitorBarrier {
  import opened Wrappers
  import opened WatchDog
  import opened RollingUpgrade
  import opened TimelyUpgrade

  /**
   * The latest start of node `j`, counted from the moment at which node 0 is done: node 1 enters at the end of the
   * window or has just gone to sleep, and every node behind it starts 29 seconds after its predecessor.
   */
  function StartAfter(pace: Pace, j: nat): real
    requires j > 0
  {
    (if pace.window < LATEST_POLL then LATEST_POLL else pace.window) + Rounds(j - 1, pace.rollTime + LATEST_POLL)
  }

  /** How long after the first node the last one is done, at the latest. */
  function Tail(c: Cluster, pace: Pace): real
    requires c.size >= 2
  {
    StartAfter(pace, c.size - 1) + pace.rollTime
  }

  /** Either nobody waits, or there is nobody to wait for, or all are done when the last scan that counts begins. */
  predicate BarrierFits(c: Cluster, pace: Pace)
  {
    Gates(c.kind) == [] || c.size <= 1 || Tail(c, pace) < BARRIER_TIMEOUT
  }

  lemma StartAfterGrows(pace: Pace, j: nat)
    requires Sane(pace) && j > 0
    ensures StartAfter(pace, 1) >= LATEST_POLL && StartAfter(pace, 1) >= pace.window
    ensures StartAfter(pace, j + 1) == StartAfter(pace, j) + pace.rollTime + LATEST_POLL
  {
    OneRoundMore(j - 1, pace.rollTime + LATEST_POLL);
    hide Rounds;
  }

  lemma {:induction false} StartsAfterGrow(pace: Pace, i: nat, j: nat)
    requires Sane(pace) && 0 < i <= j
    ensures pace.window <= StartAfter(pace, i) <= StartAfter(pace, j) && LATEST_POLL <= StartAfter(pace, i)
    ensures i < j ==> StartAfter(pace, i) + pace.rollTime + LATEST_POLL <= StartAfter(pace, j)
    decreases j
  {
    if i == j {
      if j > 1 {
        StartsAfterGrow(pace, i - 1, j - 1);
        StartAfterGrows(pace, j - 1);
      } else {
        StartAfterGrows(pace, 1);
      }
    } else {
      StartsAfterGrow(pace, i, j - 1);
      StartAfterGrows(pace, j - 1);
    }
    hide StartAfter;
  }

  lemma {:induction false} StartsWithin(pace: Pace, i: nat)
    requires Sane(pace)
    ensures LatestStart(pace, i) <= pace.window + Rounds(i, pace.rollTime + LATEST_POLL)
  {
    OneRoundMore(if i > 0 then i - 1 else 0, pace.rollTime + LATEST_POLL);
    hide Rounds;
    if i > 0 {
      StartsWithin(pace, i - 1);
      LatestStartsGrow(pace, 0, i - 1);
      LatestPollBounds(pace, LatestStart(pace, i - 1) + pace.rollTime);
      hide LatestPoll, OnGrid;
    }
  }

  /** Where the barrier fits, the waits for predecessors fit as well. */
  lemma FitsIsSafe(c: Cluster, pace: Pace)
    requires Sane(pace) && BarrierFits(c, pace) && Gates(c.kind) != []
    ensures SafePace(c, pace)
  {
    if c.size >= 2 {
      StartsWithin(pace, c.size - 2);
      StartsAfterGrow(pace, 1, c.size - 1);
      assert pace.window + Rounds(c.size - 2, pace.rollTime + LATEST_POLL) <= StartAfter(pace, c.size - 1);
      hide Rounds, LatestStart;
    }
  }

  // ----- What a timely run keeps when the barrier fits -----

  function Thirties(n: nat): real
  {
    n as real * 30.0
  }

  ghost predicate OnThirties(since: real, next: real)
  {
    exists n: nat :: n <= 20 && next == since + Thirties(n)
  }

  /** The key of node 0, and the latest start of node `j`. */
  predicate InTime(pace: Pace, j: nat, t: real, store: Store)
  {
    j > 0 ==> 0 in store.doneAt && t <= store.doneAt[0] + StartAfter(pace, j)
  }

  ghost predicate NodeInTime(pace: Pace, j: nat, p: Phase, store: Store)
  {
    match p
    case AwaitStart(_, nextPoll) => j > 0 && (j - 1 in store.doneAt ==> InTime(pace, j, nextPoll, store))
    case AwaitDone(_, nextPoll) => j > 0 && (j - 1 in store.doneAt ==> InTime(pace, j, nextPoll, store))
    case Ready(at) => InTime(pace, j, at, store)
    case Barrier(_, since, _, nextRead) =>
      0 in store.doneAt && store.doneAt[0] <= since && OnThirties(since, nextRead)
    case Failed => false
    case _ => true
  }

  ghost predicate BInv(c: Cluster, pace: Pace, s: State)
  {
    && |s.phases| == c.size
    && (0 in s.store.doneAt ==> 0.0 <= s.store.doneAt[0] <= s.now)
    && forall j :: 0 <= j < c.size ==>
         NodeInTime(pace, j, s.phases[j], s.store) &&
         (j in s.store.startAt ==> InTime(pace, j, s.store.startAt[j], s.store))
  }

  /** Everything that is known of a state of a punctual run. */
  ghost predicate Punctual(c: Cluster, pace: Pace, s: State)
  {
    TInv(c, pace, s) && KeepsPace(pace, s) && BInv(c, pace, s) && Sane(pace) && SafePace(c, pace)
  }

  /** Once node 0 is done, a node that is not is still within its time. */
  lemma {:induction false} NotDoneInTime(c: Cluster, pace: Pace, s: State, j: nat)
    requires Punctual(c, pace, s) && j < c.size && j !in s.store.doneAt && 0 in s.store.doneAt
    ensures j > 0 && s.now <= s.store.doneAt[0] + StartAfter(pace, j) + pace.rollTime
    ensures j !in s.store.startAt ==> s.now <= s.store.doneAt[0] + StartAfter(pace, j)
  {
    hide OnGrid, WholePart, FromGrid, LatestStart, StartAfter;
    var p := s.phases[j];
    assert OnTime(pace, j, p, s.now, s.store) && NodeTimes(pace, j, p, s.now, s.store);
    assert NodeInTime(pace, j, p, s.store);
    StartsAfterGrow(pace, 1, j);
    if j !in s.store.startAt && (p.AwaitStart? || p.AwaitDone?) && j - 1 !in s.store.doneAt {
      NotDoneInTime(c, pace, s, j - 1);
      StartsAfterGrow(pace, j - 1, j);
    }
  }

  lemma DoneAfterFirst(c: Cluster, pace: Pace, s: State, j: nat)
    requires Punctual(c, pace, s) && j < c.size && (j in s.store.startAt || j in s.store.doneAt)
    ensures j > 0 || j in s.store.doneAt ==> 0 in s.store.doneAt
  {
    assert KeyTimes(pace, j, s.now, s.store);
  }

  /** A scan that misses a key is followed by another one in time. */
  lemma ScanInTime(c: Cluster, pace: Pace, s: State, i: nat, op: Op)
    requires Punctual(c, pace, s) && i < c.size && s.phases[i].Barrier? && op == ReadBarrier
    requires c.size >= 2 ==> Tail(c, pace) < BARRIER_TIMEOUT
    requires Perform(c, i, s.phases[i], s.now, s.store, s.history, op).Some?
    ensures NodeInTime(pace, i, Perform(c, i, s.phases[i], s.now, s.store, s.history, op).value.phase, s.store)
  {
    var p := s.phases[i];
    assert OnTime(pace, i, p, s.now, s.store) && NodeInTime(pace, i, p, s.store);
    var n: nat :| n <= 20 && p.nextRead == p.since + Thirties(n);
    if p.index < c.size && p.index !in s.store.doneAt {
      NotDoneInTime(c, pace, s, p.index);
      StartsAfterGrow(pace, p.index, c.size - 1);
      hide StartAfter;
      assert s.now + 30.0 == p.since + Thirties(n + 1);
    }
  }

  lemma WaiterInTime(c: Cluster, pace: Pace, s: State, i: nat, op: Op)
    requires Punctual(c, pace, s) && i < c.size && (op.PollStart? || op.PollDone?)
    requires Perform(c, i, s.phases[i], s.now, s.store, s.history, op).Some?
    ensures var o := Perform(c, i, s.phases[i], s.now, s.store, s.history, op).value;
      o.store == s.store && NodeInTime(pace, i, o.phase, s.store)
  {
    var p := s.phases[i];
    assert OnTime(pace, i, p, s.now, s.store) && NodeInTime(pace, i, p, s.store);
    assert KeyTimes(pace, i - 1, s.now, s.store);
    PollsSucceed(c, pace, s, i);
    hide TInv, BInv, KeepsPace, StartAfter, LatestStart, InTime;
  }

  lemma ActorInTime(c: Cluster, pace: Pace, s: State, i: nat, op: Op)
    requires Punctual(c, pace, s) && i < c.size && op != Crash
    requires c.size >= 2 ==> Tail(c, pace) < BARRIER_TIMEOUT
    requires Perform(c, i, s.phases[i], s.now, s.store, s.history, op).Some?
    ensures var o := Perform(c, i, s.phases[i], s.now, s.store, s.history, op).value;
      && NodeInTime(pace, i, o.phase, o.store)
      && (i in o.store.startAt ==> InTime(pace, i, o.store.startAt[i], o.store))
      && (0 in o.store.doneAt ==> 0.0 <= o.store.doneAt[0] <= s.now)
  {
    var p := s.phases[i];
    assert OnTime(pace, i, p, s.now, s.store) && NodeTimes(pace, i, p, s.now, s.store);
    assert NodeInTime(pace, i, p, s.store) && s.now >= 0.0;
    assert i in s.store.startAt ==> InTime(pace, i, s.store.startAt[i], s.store);
    if op.PollStart? || op.PollDone? {
      WaiterInTime(c, pace, s, i, op);
      hide Perform, StartAfter;
    } else if op.ReadBarrier? {
      ScanInTime(c, pace, s, i, op);
      hide StartAfter;
    } else {
      StartsAfterGrow(pace, 1, if i > 0 then i else 1);
      assert s.now == s.now + Thirties(0);
      if i > 0 && i - 1 in s.store.doneAt {
        DoneAfterFirst(c, pace, s, i - 1);
      }
      if i in s.store.startAt || i in s.store.doneAt {
        DoneAfterFirst(c, pace, s, i);
      }
      hide OnGrid, WholePart, FromGrid, LatestStart, StartAfter, TInv, BInv, KeepsPace;
    }
  }

  lemma PredecessorInTime(c: Cluster, pace: Pace, s: State, j: nat, since: real, next: real, store: Store)
    requires Punctual(c, pace, s) && 0 < j < c.size
    requires s.phases[j - 1].Rolling? && PollTimes(pace, j, since, next, s.now, s.store)
    requires store.doneAt == s.store.doneAt[j - 1 := s.now]
    ensures InTime(pace, j, next, store)
  {
    hide OnGrid, WholePart, LatestStart, StartAfter;
    var q := s.phases[j - 1];
    assert OnTime(pace, j - 1, q, s.now, s.store) && NodeTimes(pace, j - 1, q, s.now, s.store);
    assert next <= s.now + LATEST_POLL;
    StartsAfterGrow(pace, 1, j);
    if j > 1 {
      StartsAfterGrow(pace, j - 1, j);
    }
  }

  lemma OthersInTime(c: Cluster, pace: Pace, s: State, i: nat, j: nat, store: Store)
    requires Punctual(c, pace, s) && i < c.size && j < c.size && j != i
    requires store.startAt == s.store.startAt || (s.phases[i].Ready? && store.startAt == s.store.startAt[i := s.now])
    requires store.doneAt == s.store.doneAt || (s.phases[i].Rolling? && store.doneAt == s.store.doneAt[i := s.now])
    ensures NodeInTime(pace, j, s.phases[j], store)
    ensures j in store.startAt ==> InTime(pace, j, store.startAt[j], store)
  {
    hide OnGrid, WholePart, FromGrid, LatestStart, StartAfter;
    var p := s.phases[j];
    assert NodeTimes(pace, j, p, s.now, s.store) && NodeInTime(pace, j, p, s.store);
    assert NodeTimes(pace, i, s.phases[i], s.now, s.store);
    if p.AwaitStart? || p.AwaitDone? {
      if i == j - 1 && s.phases[i].Rolling? && store.doneAt != s.store.doneAt {
        PredecessorInTime(c, pace, s, j, p.since, p.nextPoll, store);
      }
      assert KeyTimes(pace, j - 1, s.now, s.store);
    }
  }

  lemma StepKeepsInTime(c: Cluster, pace: Pace, s: State, s': State)
    requires Punctual(c, pace, s) && CrashFree(c, s, s')
    requires c.size >= 2 ==> Tail(c, pace) < BARRIER_TIMEOUT
    ensures BInv(c, pace, s')
  {
    hide Perform, OnGrid, WholePart, StartAfter;
    var step :| NextStep(c, s, s', step) && (step.Do? ==> step.op != Crash);
    if step.Do? {
      var i, op := step.i, step.op;
      ActorInTime(c, pace, s, i, op);
      OneKeyChanges(c, i, s.phases[i], s.now, s.store, s.history, op);
      forall j | 0 <= j < c.size
        ensures NodeInTime(pace, j, s'.phases[j], s'.store)
        ensures j in s'.store.startAt ==> InTime(pace, j, s'.store.startAt[j], s'.store)
      {
        if j != i {
          OthersInTime(c, pace, s, i, j, s'.store);
        }
      }
    }
  }

  /** The invariant holds along every punctual run, so no monitor ever fails. */
  lemma {:induction false} RunStaysInTime(c: Cluster, pace: Pace, run: seq<State>, k: nat)
    requires TimelyRun(c, pace, run) && Sane(pace) && SafePace(c, pace) && k < |run|
    requires c.size >= 2 ==> Tail(c, pace) < BARRIER_TIMEOUT
    ensures BInv(c, pace, run[k])
  {
    hide StartAfter;
    if k > 0 {
      RunStaysInTime(c, pace, run, k - 1);
      TimelyRunKeepsTimes(c, pace, run, k - 1);
      StepKeepsInTime(c, pace, run[k - 1], run[k]);
    }
  }

  /** A kind of node without actions never waits at a barrier. */
  lemma {:induction false} NoBarrier(c: Cluster, pace: Pace, run: seq<State>, k: nat)
    requires TimelyRun(c, pace, run) && Gates(c.kind) == [] && k < |run|
    ensures forall i :: 0 <= i < |run[k].phases| ==>
      !run[k].phases[i].Barrier? && !run[k].phases[i].Passed? && run[k].phases[i] != Failed
  {
    if k > 0 {
      NoBarrier(c, pace, run, k - 1);
      assert CrashFree(c, run[k - 1], run[k]);
    }
  }

  ghost predicate NeverFails(c: Cluster, pace: Pace)
  {
    forall run: seq<State>, k, i :: TimelyRun(c, pace, run) && 0 <= k < |run| && 0 <= i < |run[k].phases| ==>
      run[k].phases[i] != Failed
  }

  lemma BarrierNeverFails(c: Cluster, pace: Pace)
    requires Sane(pace) && BarrierFits(c, pace)
    ensures NeverFails(c, pace)
  {
    forall run: seq<State>, k, i | TimelyRun(c, pace, run) && 0 <= k < |run| && 0 <= i < |run[k].phases|
      ensures run[k].phases[i] != Failed
    {
      if Gates(c.kind) == [] {
        NoBarrier(c, pace, run, k);
      } else {
        FitsIsSafe(c, pace);
        RunStaysInTime(c, pace, run, k);
        assert NodeInTime(pace, i, run[k].phases[i], run[k].store);
      }
    }
  }
}
