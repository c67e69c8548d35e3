/**
 * The other half of the barrier result: when the last node can finish ten minutes after the first one, or later, some
 * punctual run has a monitor that fails. In it node 0 is done at once, and all others are as late as they can be.
 */
module FailingBarrier {
  import opened Wrappers
  import opened WatchDog
  import opened RollingUpgrade
  import opened TimelyUpgrade
  import opened LateStarts
  import opened Stages
  import opened UnsafePace
  import opened TimeGoesOn
  import opened MonitorBarrier

  // ----- Plans -----

  const ASLEEP := Plan(0.0, 700.0)

  /** The last vain poll of node `i`, when node `i - 1` finishes. */
  function EndOfRoll(pace: Pace, i: nat): real
    requires i > 1
  {
    StartAfter(pace, i - 1) + pace.rollTime
  }

  function PlanOf(pace: Pace, i: nat): Plan
  {
    if i == 0 then Plan(0.0, 0.0)
    else if i == 1 then
      if pace.window < LATEST_POLL then Plan(0.0, 0.0) else Plan(pace.window, pace.window)
    else if EndOfRoll(pace, i) < BARRIER_TIMEOUT then Plan(EntryFor(EndOfRoll(pace, i)), EndOfRoll(pace, i))
    else ASLEEP
  }

  function Plans(c: Cluster, pace: Pace): (plans: seq<Plan>)
    ensures |plans| == c.size
  {
    seq(c.size, i requires 0 <= i => PlanOf(pace, i))
  }

  lemma {:induction false} StartAfterIsWhole(pace: Pace, j: nat, rollTime: nat) returns (n: nat)
    requires pace.window == 0.0 && pace.rollTime == rollTime as real && j > 0
    ensures StartAfter(pace, j) == n as real
  {
    if j == 1 {
      n := 29;
      OneRoundMore(0, pace.rollTime + LATEST_POLL);
    } else {
      n := StartAfterIsWhole(pace, j - 1, rollTime);
      StartAfterGrows(pace, j - 1);
      n := n + rollTime + 29;
    }
    hide Rounds;
  }

  lemma EndOfRollIsOnGrid(pace: Pace, i: nat)
    requires Sane(pace) && FullGrid(pace) && i > 1
    ensures OnGrid(pace, EndOfRoll(pace, i)) && EndOfRoll(pace, i) >= LATEST_POLL
  {
    StartsAfterGrow(pace, 1, i - 1);
    var x := EndOfRoll(pace, i);
    WholePartBounds(x);
    if pace.window < 1.0 {
      var window := WholeSeconds(pace.window);
      var rollTime := WholeSeconds(pace.rollTime);
      var n := StartAfterIsWhole(pace, i - 1, rollTime);
      WholePartIs(x, n + rollTime);
    }
    hide WholePart, StartAfter;
  }

  lemma PlanFacts(pace: Pace, i: nat)
    requires Sane(pace) && FullGrid(pace)
    ensures var plan := PlanOf(pace, i);
      && 0.0 <= plan.entry <= pace.window && Reaches(plan.entry, plan.target)
      && plan.entry <= plan.target <= plan.entry + 1805.0
    ensures i > 1 ==>
      PlanOf(pace, i).target == if EndOfRoll(pace, i) < BARRIER_TIMEOUT then EndOfRoll(pace, i) else 700.0
  {
    assert pace.window == pace.window + Seconds(0) && 0.0 == 0.0 + Seconds(0);
    assert 700.0 == 0.0 + Seconds(700);
    if i > 1 {
      EndOfRollIsOnGrid(pace, i);
      EntryReaches(pace, EndOfRoll(pace, i));
    }
    hide OnGrid, EndOfRoll;
  }

  /** Until node `k` starts, all behind it can wait. */
  lemma TargetsBehind(pace: Pace, k: nat, i: nat, t: real)
    requires Sane(pace) && FullGrid(pace) && 0 < k < i
    requires t <= EndOfRoll(pace, k + 1) && t <= 700.0
    ensures t <= PlanOf(pace, i).target <= PlanOf(pace, i).entry + 1805.0
  {
    PlanFacts(pace, i);
    StartsAfterGrow(pace, k, i - 1);
    hide StartAfter, Reaches, PlanOf;
  }

  // ----- Node 0 is done at once -----

  /** Node 0 rolls at time 0, and nobody else has entered. */
  lemma FirstRolls(c: Cluster, pace: Pace) returns (run: seq<State>)
    requires Sane(pace) && FullGrid(pace) && c.size >= 2
    ensures Timely(c, pace, run) && Last(run).now == 0.0 && Stage(c, pace, Plans(c, pace), Last(run), 0, 0.0, true)
    ensures forall i :: 0 < i < c.size ==> Last(run).phases[i].Idle?
    ensures Last(run).store.doneAt == map[] && Last(run).store.startAt == map[0 := 0.0]
  {
    var plans := Plans(c, pace);
    forall i | 0 <= i < c.size
      ensures 0.0 <= plans[i].entry <= pace.window && Reaches(plans[i].entry, plans[i].target)
      ensures plans[i].entry <= plans[i].target <= plans[i].entry + 1805.0
    {
      PlanFacts(pace, i);
    }
    assert plans[0].entry == 0.0;
    hide PlanOf, Plans, Reaches;
    BeginningIsQuiet(c, pace, plans, 0.0);
    run := Begin(c, pace, Beginning(c));
    var s := Last(run);
    run := StartFirst(c, pace, run);
    hide TimelyRun;
    FirstStage(c, pace, plans, s, Last(run));
  }

  /** A narrow window: node 1 polls just before node 0 is done, and sleeps for 29 seconds. */
  lemma NarrowBegins(c: Cluster, pace: Pace) returns (run: seq<State>)
    requires Sane(pace) && FullGrid(pace) && c.size >= 2 && Gates(c.kind) != [] && pace.window < LATEST_POLL
    ensures Timely(c, pace, run) && RollBegins(c, pace, Plans(c, pace), Last(run), 1)
    ensures Last(run).now == LATEST_POLL && |Last(run).phases| == c.size && WaitingSince(Last(run).phases[0], 0.0)
  {
    var plans := Plans(c, pace);
    run := FirstRolls(c, pace);
    forall i | 1 < i < c.size
      ensures LATEST_POLL <= plans[i].target <= plans[i].entry + 1805.0
    {
      PlanFacts(pace, i);
      EndOfRollIsOnGrid(pace, i);
    }
    assert plans[1] == Plan(0.0, 0.0);
    hide PlanOf, Plans, Reaches, TimelyRun, Stage, RollBegins, Gates, StartAfter;
    var plans';
    run, plans' := RollOut(c, pace, plans, run, 0, 0.0, 0.0, 29);
    run := RollOn(c, pace, plans', run, 0, 0.0);
    PlansAhead(c, pace, plans', plans, Last(run), 1);
    assert RollBegins(c, pace, plans, Last(run), 1);
  }

  /** A wide window: node 0 is done before node 1 enters. */
  lemma WideBegins(c: Cluster, pace: Pace, t: real) returns (run: seq<State>)
    requires Sane(pace) && FullGrid(pace) && c.size >= 2 && Gates(c.kind) != []
    requires LATEST_POLL <= pace.window && 0.0 <= t <= pace.window && t <= 600.0
    ensures Timely(c, pace, run) && Last(run).now == t && Quiet(c, pace, Plans(c, pace), Last(run), t)
    ensures WaitingSince(Last(run).phases[0], 0.0)
    ensures Last(run).store.startAt == map[0 := 0.0] && Last(run).store.doneAt == map[0 := 0.0]
    ensures Last(run).phases[1].Idle? || Last(run).phases[1].AwaitStart? || Last(run).phases[1].AwaitDone?
    ensures forall i :: 1 < i < c.size ==> Last(run).phases[i].Idle? || Last(run).phases[i].AwaitStart?
  {
    var plans := Plans(c, pace);
    run := FirstRolls(c, pace);
    var s := Last(run);
    var q := NextGate(Gates(c.kind), 0.0);
    run := Perform1(c, pace, run, 0, WriteDone, Outcome(q, s.store.(doneAt := s.store.doneAt[0 := 0.0]), s.history));
    run := ScanInVain(c, pace, run, 0);
    var s' := Last(run);
    assert s'.phases == s.phases[0 := s'.phases[0]];
    forall i | 0 <= i < c.size
      ensures NodeQuiet(c, pace, plans[i], i, s', t) && OnPlan(i, s'.phases[i], plans[i])
    {
      PlanFacts(pace, i);
      if i > 1 {
        EndOfRollIsOnGrid(pace, i);
        StartsAfterGrow(pace, 1, i - 1);
      }
    }
    hide PlanOf, Plans, Reaches, TimelyRun, StartAfter;
    run := Advance(c, pace, plans, run, t);
    forall i | 0 <= i < c.size
      ensures Kept(s'.phases[i], Last(run).phases[i], i - 1 in s'.store.startAt)
    {
    }
  }

  lemma WideStage(c: Cluster, pace: Pace, plans: seq<Plan>, s: State, s': State, since: real)
    requires Quiet(c, pace, plans, s, s.now) && c.size >= 2 && WaitingSince(s.phases[0], 0.0)
    requires s.store.startAt == map[0 := 0.0] && s.store.doneAt == map[0 := 0.0] && s.now == plans[1].target
    requires forall i :: 1 < i < c.size ==> s.phases[i].Idle? || s.phases[i].AwaitStart?
    requires forall i :: 0 < i < c.size ==> plans[i].entry <= pace.window
    requires OnlyPhase(s, 1, AwaitDone(since, s.now), s') && 0.0 <= since && WholeGap(since, s.now)
    ensures Stage(c, pace, plans, s', 0, 0.0, false)
  {
    assert s.now == s.now + Seconds(0);
    assert Reaches(s.now, s.now);
    hide WholeGap, Reaches;
    forall i | 0 <= i < c.size
      ensures i > 1 ==> Unstarted(pace, plans[i], i, s')
      ensures i == 0 ==> IsDone(c, i, s')
      ensures i > 0 ==> OnPlan(i, s'.phases[i], plans[i])
    {
      assert NodeQuiet(c, pace, plans[i], i, s, s.now) && OnPlan(i, s.phases[i], plans[i]);
    }
  }

  /** Node 1 enters at the end of the window and rolls at once. */
  lemma WideStarts(c: Cluster, pace: Pace) returns (run: seq<State>)
    requires Sane(pace) && FullGrid(pace) && c.size >= 2 && Gates(c.kind) != []
    requires LATEST_POLL <= pace.window <= 600.0
    ensures Timely(c, pace, run) && RollBegins(c, pace, Plans(c, pace), Last(run), 1)
    ensures Last(run).now == pace.window && |Last(run).phases| == c.size && WaitingSince(Last(run).phases[0], 0.0)
  {
    var plans := Plans(c, pace);
    run := WideBegins(c, pace, pace.window);
    var s := Last(run);
    assert NodeQuiet(c, pace, plans[1], 1, s, s.now) && OnPlan(1, s.phases[1], plans[1]);
    assert plans[1] == Plan(pace.window, pace.window);
    forall i | 0 < i < c.size
      ensures plans[i].entry <= pace.window
      ensures i > 1 ==> plans[1].target <= plans[i].target <= plans[i].entry + 1805.0
    {
      PlanFacts(pace, i);
      if i > 1 {
        StartsAfterGrow(pace, 1, i - 1);
      }
    }
    hide PlanOf, Plans, Reaches, TimelyRun, Quiet, StartAfter;
    var since;
    run, since := ComeToTarget(c, pace, plans[1], run, 0);
    WideStage(c, pace, plans, s, Last(run), since);
    hide Stage, RollBegins;
    run := RollOn(c, pace, plans, run, 0, 0.0);
  }

  /** Node `k` starts as late as it can after node 0, which waits at its barrier. */
  lemma {:induction false} LateRoll(c: Cluster, pace: Pace, k: nat) returns (run: seq<State>)
    requires Sane(pace) && FullGrid(pace) && 0 < k < c.size && Gates(c.kind) != [] && StartAfter(pace, k) <= 600.0
    ensures Timely(c, pace, run) && RollBegins(c, pace, Plans(c, pace), Last(run), k)
    ensures Last(run).now == StartAfter(pace, k)
    ensures |Last(run).phases| == c.size && WaitingSince(Last(run).phases[0], 0.0)
  {
    if k == 1 {
      OneRoundMore(0, pace.rollTime + LATEST_POLL);
      hide Rounds, RollBegins, TimelyRun;
      if pace.window < LATEST_POLL {
        run := NarrowBegins(c, pace);
      } else {
        run := WideStarts(c, pace);
      }
    } else {
      StartAfterGrows(pace, k - 1);
      hide RollBegins, TimelyRun, StartAfter;
      run := LateRoll(c, pace, k - 1);
      run := NextLateRoll(c, pace, run, k - 1);
    }
  }

  lemma NextLateRoll(c: Cluster, pace: Pace, run: seq<State>, k: nat) returns (run': seq<State>)
    requires Sane(pace) && FullGrid(pace) && 0 < k && k + 1 < c.size && Timely(c, pace, run)
    requires RollBegins(c, pace, Plans(c, pace), Last(run), k) && Last(run).now == StartAfter(pace, k)
    requires StartAfter(pace, k) + pace.rollTime + LATEST_POLL <= 600.0
    requires |Last(run).phases| == c.size && WaitingSince(Last(run).phases[0], 0.0)
    ensures Timely(c, pace, run') && RollBegins(c, pace, Plans(c, pace), Last(run'), k + 1)
    ensures Last(run').now == StartAfter(pace, k) + pace.rollTime + LATEST_POLL
    ensures |Last(run').phases| == c.size && WaitingSince(Last(run').phases[0], 0.0)
  {
    hide RollBegins, Stage, TimelyRun, StartAfter;
    var start := StartAfter(pace, k);
    PlansBehind(c, pace, k);
    hide *;
    RollIsStage(c, pace, Plans(c, pace), Last(run), k);
    var plans';
    run', plans' := RollOut(c, pace, Plans(c, pace), run, k, start, start + pace.rollTime, 29);
    run' := RollOn(c, pace, plans', run', k, start);
    PlansAhead(c, pace, plans', Plans(c, pace), Last(run'), k + 1);
    RollSize(c, pace, plans', Last(run'), k + 1);
  }

  /** Node `k + 1` aims at the end of the roll of node `k`, and all behind it at later times. */
  lemma PlansBehind(c: Cluster, pace: Pace, k: nat)
    requires Sane(pace) && FullGrid(pace) && 0 < k && k + 1 < c.size
    requires StartAfter(pace, k) + pace.rollTime + LATEST_POLL <= 600.0
    ensures var plans := Plans(c, pace);
      && |plans| == c.size && StartAfter(pace, k) >= 0.0 && ValidSleep(29)
      && plans[k + 1].target == StartAfter(pace, k) + pace.rollTime <= plans[k + 1].entry + 1805.0
      && forall i :: k + 1 < i < c.size ==>
           StartAfter(pace, k) + pace.rollTime + LATEST_POLL <= plans[i].target <= plans[i].entry + 1805.0
  {
    var plans, done := Plans(c, pace), EndOfRoll(pace, k + 1);
    PlanFacts(pace, k + 1);
    StartsAfterGrow(pace, 1, k);
    forall i | k + 1 < i < c.size
      ensures done + LATEST_POLL <= plans[i].target <= plans[i].entry + 1805.0
    {
      StartAfterGrows(pace, k);
      TargetsBehind(pace, k + 1, i, done + LATEST_POLL);
    }
  }

  lemma RollSize(c: Cluster, pace: Pace, plans: seq<Plan>, s: State, k: nat)
    requires RollBegins(c, pace, plans, s, k)
    ensures |s.phases| == c.size
  {
  }

  // ----- Ten minutes after node 0 -----

  /** The last node that starts within 600 seconds. */
  lemma {:induction false} LastEarly(pace: Pace, n: nat) returns (m: nat)
    requires Sane(pace) && n > 0 && StartAfter(pace, 1) <= 600.0
    ensures 0 < m <= n && StartAfter(pace, m) <= 600.0 && (m < n ==> StartAfter(pace, m + 1) > 600.0)
  {
    m := n;
    if StartAfter(pace, n) > 600.0 {
      m := LastEarly(pace, n - 1);
    }
  }

  /** What is needed at 600 seconds: somebody is not done, and the barrier of node 0 has waited ever since time 0. */
  ghost predicate AtLimit(c: Cluster, pace: Pace, run: seq<State>)
  {
    && Timely(c, pace, run) && Last(run).now == 600.0 && |Last(run).phases| == c.size > 0
    && c.size - 1 !in Last(run).store.doneAt && WaitingSince(Last(run).phases[0], 0.0)
    && (Last(run).phases[0].Barrier? ==> 600.0 <= Last(run).phases[0].nextRead && Last(run).phases[0].index < c.size)
  }

  /** Node `m` still rolls at 600 seconds. */
  lemma RollsAtLimit(c: Cluster, pace: Pace, m: nat) returns (run: seq<State>)
    requires Sane(pace) && FullGrid(pace) && 0 < m < c.size && Gates(c.kind) != []
    requires StartAfter(pace, m) <= 600.0 <= StartAfter(pace, m) + pace.rollTime
    ensures AtLimit(c, pace, run)
  {
    var plans := Plans(c, pace);
    run := LateRoll(c, pace, m);
    forall i | m < i < c.size
      ensures 600.0 <= plans[i].target <= plans[i].entry + 1805.0
    {
      TargetsBehind(pace, m, i, 600.0);
    }
    hide StartAfter, PlanOf, Plans, TimelyRun, RollBegins, Quiet;
    RollIsQuiet(c, pace, plans, Last(run), m, 600.0);
    run := AdvanceToLimit(c, pace, plans, run);
  }

  lemma AdvanceToLimit(c: Cluster, pace: Pace, plans: seq<Plan>, run: seq<State>) returns (run': seq<State>)
    requires Timely(c, pace, run) && Quiet(c, pace, plans, Last(run), 600.0)
    requires |Last(run).phases| == c.size > 0 && WaitingSince(Last(run).phases[0], 0.0)
    ensures AtLimit(c, pace, run')
  {
    hide TimelyRun;
    run' := Advance(c, pace, plans, run, 600.0);
    assert NodeQuiet(c, pace, plans[0], 0, Last(run'), 600.0);
    assert Kept(Last(run).phases[0], Last(run').phases[0], -1 in Last(run).store.startAt);
  }

  /** Node `m` is done before 600 seconds, but node `m + 1` sleeps on. */
  lemma SleepsAtLimit(c: Cluster, pace: Pace, m: nat) returns (run: seq<State>)
    requires Sane(pace) && FullGrid(pace) && 0 < m && m + 1 < c.size && Gates(c.kind) != []
    requires StartAfter(pace, m) + pace.rollTime < 600.0 < StartAfter(pace, m) + pace.rollTime + LATEST_POLL
    ensures AtLimit(c, pace, run)
  {
    var plans, start, done := Plans(c, pace), StartAfter(pace, m), EndOfRoll(pace, m + 1);
    run := LateRoll(c, pace, m);
    PlanFacts(pace, m + 1);
    forall i | m + 1 < i < c.size
      ensures 600.0 <= plans[i].target <= plans[i].entry + 1805.0
    {
      StartAfterGrows(pace, m);
      TargetsBehind(pace, m + 1, i, 600.0);
    }
    assert plans[m + 1].target == done;
    hide StartAfter, PlanOf, Plans, Reaches, TimelyRun, Quiet, AtLimit;
    RollIsStage(c, pace, plans, Last(run), m);
    hide RollBegins, Stage;
    var plans';
    run, plans' := RollOut(c, pace, plans, run, m, start, done, 29);
    StageSize(c, pace, plans', Last(run), m, start, false);
    StageIsQuiet(c, pace, plans', Last(run), m, start, false, 600.0);
    run := AdvanceToLimit(c, pace, plans', run);
  }

  lemma ReachesLimit(c: Cluster, pace: Pace) returns (run: seq<State>)
    requires Sane(pace) && FullGrid(pace) && !BarrierFits(c, pace)
    ensures AtLimit(c, pace, run)
  {
    OneRoundMore(0, pace.rollTime + LATEST_POLL);
    assert StartAfter(pace, 1) == if pace.window < LATEST_POLL then LATEST_POLL else pace.window;
    hide StartAfter, AtLimit, Rounds;
    if StartAfter(pace, 1) > 600.0 {
      run := WideBegins(c, pace, 600.0);
      assert |Last(run).phases| == c.size;
      run := AdvanceToLimit(c, pace, Plans(c, pace), run);
    } else {
      var m := LastEarly(pace, c.size - 1);
      StartAfterGrows(pace, m);
      if StartAfter(pace, m) + pace.rollTime >= 600.0 {
        run := RollsAtLimit(c, pace, m);
      } else {
        run := SleepsAtLimit(c, pace, m);
      }
    }
  }

  // ----- The failure -----

  /** The scan at 600 seconds is in vain, and the next one comes too late. */
  lemma BarrierFails(c: Cluster, pace: Pace) returns (run: seq<State>)
    requires Sane(pace) && FullGrid(pace) && !BarrierFits(c, pace)
    ensures Timely(c, pace, run) && |Last(run).phases| > 0 && Last(run).phases[0] == Failed
  {
    run := ReachesLimit(c, pace);
    hide TimelyRun, BarrierFits;
    var p := Last(run).phases[0];
    if p != Failed {
      if p.nextRead == 600.0 {
        run := ScanInVain(c, pace, run, 0);
        p := Last(run).phases[0];
      }
      assert Doomed(p);
      if p != Failed {
        run := GoesOn(c, pace, run, p.nextRead + 1.0);
        LateScanFails(c, pace, run, p);
      }
    }
  }

  lemma LateScanFails(c: Cluster, pace: Pace, run: seq<State>, p: Phase)
    requires Timely(c, pace, run) && |Last(run).phases| > 0 && p.Barrier? && p.nextRead < Last(run).now
    requires Last(run).phases[0] in {p, Failed}
    ensures Last(run).phases[0] == Failed
  {
    assert KeepsPace(pace, Last(run));
    assert OnTime(pace, 0, Last(run).phases[0], Last(run).now, Last(run).store);
  }

  /** The main result: punctual monitors never fail if and only if the barrier fits. */
  lemma BarrierExactly(c: Cluster, pace: Pace)
    requires Sane(pace) && FullGrid(pace)
    ensures NeverFails(c, pace) <==> BarrierFits(c, pace)
  {
    if BarrierFits(c, pace) {
      BarrierNeverFails(c, pace);
    } else {
      var run := BarrierFails(c, pace);
      assert TimelyRun(c, pace, run) && run[|run| - 1].phases[0] == Failed;
    }
  }
}
