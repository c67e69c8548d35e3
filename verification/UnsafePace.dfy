/**
 * The exact answer to the question when the upgrade rolls one node at a time: a pace that is not safe has a timely
 * run in which two nodes roll at once, whatever its window, its roll time and the number of nodes.
 */
module UnsafePace {
  import opened Wrappers
  import opened WatchDog
  import opened RollingUpgrade
  import opened TimelyUpgrade
  import opened LateStarts
  import opened Stages

  // ----- Plans that reach the latest starts -----

  /** The entry from which a node can poll at `p`. */
  function EntryFor(p: real): real
  {
    if p < 5.0 then p else p - WholePart(p)
  }

  lemma EntryReaches(pace: Pace, p: real)
    requires OnGrid(pace, p) && Sane(pace)
    ensures 0.0 <= EntryFor(p) <= pace.window && EntryFor(p) <= p && Reaches(EntryFor(p), p)
  {
    if p < 5.0 {
      assert p == p + Seconds(0);
    } else {
      var n := SecondsAfterEntry(p);
    }
  }

  lemma SecondsAfterEntry(p: real) returns (n: nat)
    requires p >= 5.0
    ensures n >= 5 && p == EntryFor(p) + Seconds(n) && 0.0 <= EntryFor(p) < 1.0
  {
    n := WholeSeconds(p);
  }

  /** The last vain poll of node `i` before its predecessor finishes at the latest. */
  function LastVainPoll(pace: Pace, i: nat): real
    requires i > 0
  {
    LatestPoll(pace, LatestStart(pace, i - 1) + pace.rollTime)
  }

  function ChainPlan(pace: Pace, i: nat): Plan
    requires i > 0
  {
    Plan(EntryFor(LastVainPoll(pace, i)), LastVainPoll(pace, i))
  }

  /** Node 0 enters last, the nodes before `m` follow each other as late as possible, and all others have one plan. */
  ghost predicate GoodPlans(c: Cluster, pace: Pace, plans: seq<Plan>, m: nat, late: Plan)
  {
    && |plans| == c.size > 0 && plans[0].entry == pace.window
    && (forall i :: 0 < i < c.size ==> plans[i] == if i < m then ChainPlan(pace, i) else late)
    && 0.0 <= late.entry <= pace.window && Reaches(late.entry, late.target)
    && 1801.0 <= late.target <= late.entry + 1805.0
  }

  lemma {:induction false} StartsAreOnGrid(pace: Pace, i: nat, start: real)
    requires Sane(pace) && start == LatestStart(pace, i)
    ensures OnGrid(pace, start)
  {
    if i > 0 {
      LatestStartsGrow(pace, 0, i - 1);
      var poll := LatestPoll(pace, LatestStart(pace, i - 1) + pace.rollTime);
      LatestPollBounds(pace, LatestStart(pace, i - 1) + pace.rollTime);
      hide LatestPoll, WholePart;
      NextOnGrid(pace, poll, 29);
    }
  }

  lemma VainPollIsOnGrid(pace: Pace, i: nat, poll: real)
    requires Sane(pace) && i > 0 && poll == LastVainPoll(pace, i)
    ensures OnGrid(pace, poll)
  {
    LatestStartsGrow(pace, 0, i - 1);
    LatestPollBounds(pace, LatestStart(pace, i - 1) + pace.rollTime);
    hide LatestPoll, WholePart, LatestStart;
  }

  lemma VainPollBounds(pace: Pace, i: nat)
    requires Sane(pace) && i > 0
    ensures LatestStart(pace, i - 1) <= LastVainPoll(pace, i) <= LatestStart(pace, i - 1) + pace.rollTime
    ensures LatestStart(pace, i - 1) + pace.rollTime <= LastVainPoll(pace, i) + 5.0
    ensures LatestStart(pace, i) == LastVainPoll(pace, i) + 29.0
  {
    LatestStartsGrow(pace, 0, i - 1);
    PollAfter(pace, i - 1, LatestStart(pace, i - 1));
  }

  lemma PollAfter(pace: Pace, i: nat, start: real)
    requires Sane(pace) && start == LatestStart(pace, i) >= pace.window
    ensures start <= LatestPoll(pace, start + pace.rollTime) <= start + pace.rollTime
    ensures start + pace.rollTime <= LatestPoll(pace, start + pace.rollTime) + 5.0
  {
    StartsAreOnGrid(pace, i, start);
    hide OnGrid, WholePart, LatestStart;
    LatestPollIsLatest(pace, start + pace.rollTime, start);
    LatestPollBounds(pace, start + pace.rollTime);
  }

  /** A node that waits for the start of node `i - 1` aims at a poll no earlier than that. */
  lemma TargetsAreLate(c: Cluster, pace: Pace, plans: seq<Plan>, m: nat, late: Plan, i: nat)
    requires Sane(pace) && GoodPlans(c, pace, plans, m, late) && 0 < i < c.size
    requires i < m ==> LatestStart(pace, i - 1) + pace.rollTime <= 1805.0
    ensures 0.0 <= plans[i].entry <= pace.window && Reaches(plans[i].entry, plans[i].target)
    ensures plans[i].target <= plans[i].entry + 1805.0
    ensures i < m ==> plans[i].target == LastVainPoll(pace, i) && LatestStart(pace, i - 1) <= plans[i].target
    ensures i >= m ==> plans[i] == late && 1801.0 <= plans[i].target
  {
    if i < m {
      VainPollBounds(pace, i);
      VainPollIsOnGrid(pace, i, LastVainPoll(pace, i));
      EntryReaches(pace, LastVainPoll(pace, i));
      hide LatestStart, EntryFor, LastVainPoll, OnGrid, Reaches;
    }
  }

  // ----- The chain of late starts -----

  lemma AllPatient(c: Cluster, pace: Pace, plans: seq<Plan>, m: nat, late: Plan, k: nat, t: real)
    requires GoodPlans(c, pace, plans, m, late) && Sane(pace) && k + 1 < c.size
    requires k + 1 < m && t <= LatestStart(pace, k + 1) < 1801.0
    requires LatestStart(pace, m - 2) + pace.rollTime < 1801.0
    ensures forall i :: k + 1 < i < c.size ==> t <= plans[i].target <= plans[i].entry + 1805.0
  {
    assert |plans| == c.size;
    hide *;
    forall i | k + 1 < i < c.size
      ensures t <= plans[i].target <= plans[i].entry + 1805.0
    {
      PatientBehind(c, pace, plans, m, late, k, i, t);
    }
  }

  lemma PatientBehind(c: Cluster, pace: Pace, plans: seq<Plan>, m: nat, late: Plan, k: nat, i: nat, t: real)
    requires GoodPlans(c, pace, plans, m, late) && Sane(pace) && k + 1 < i < c.size
    requires k + 1 < m && t <= LatestStart(pace, k + 1) < 1801.0
    requires LatestStart(pace, m - 2) + pace.rollTime < 1801.0
    ensures t <= plans[i].target <= plans[i].entry + 1805.0
  {
    hide LatestStart, LastVainPoll, Reaches, EntryFor;
    if i < m {
      LatestStartsGrow(pace, i - 1, m - 2);
      LatestStartsGrow(pace, k + 1, i - 1);
    }
    TargetsAreLate(c, pace, plans, m, late, i);
  }

  /** From the latest start of node `k` to the latest start of node `k + 1`. */
  lemma ChainStep(c: Cluster, pace: Pace, plans: seq<Plan>, m: nat, late: Plan, run: seq<State>, k: nat,
                  next: nat) returns (run': seq<State>)
    requires next == k + 1 && GoodPlans(c, pace, plans, m, late) && Sane(pace) && pace.rollTime < 1801.0
    requires Timely(c, pace, run) && Last(run).now == LatestStart(pace, k)
    requires Stage(c, pace, plans, Last(run), k, LatestStart(pace, k), true)
    requires k + 1 < m && k + 2 < c.size && LatestStart(pace, k + 1) < 1801.0
    requires LatestStart(pace, m - 2) + pace.rollTime < 1801.0
    ensures Timely(c, pace, run') && Stage(c, pace, plans, Last(run'), next, LatestStart(pace, next), true)
    ensures Last(run').now == LatestStart(pace, next)
  {
    hide TimelyRun, Stage, GoodPlans, LatestStart, LastVainPoll;
    var start := LatestStart(pace, k);
    StageSize(c, pace, plans, Last(run), k, start, true);
    var poll := plans[k + 1].target;
    LatestStartsGrow(pace, k, m - 2);
    TargetsAreLate(c, pace, plans, m, late, k + 1);
    VainPollBounds(pace, k + 1);
    AllPatient(c, pace, plans, m, late, k, poll + 29.0);
    var plans';
    run', plans' := RollOut(c, pace, plans, run, k, start, start + pace.rollTime, 29);
    run' := RollOn(c, pace, plans', run', k, start);
    PlansAhead(c, pace, plans', plans, Last(run'), next);
    RollIsStage(c, pace, plans, Last(run'), next);
  }

  /** Node `k` starts at its latest, if the plans are such that all before it do. */
  lemma {:induction false} Chain(c: Cluster, pace: Pace, plans: seq<Plan>, m: nat, late: Plan, k: nat)
      returns (run: seq<State>)
    requires GoodPlans(c, pace, plans, m, late) && Sane(pace) && pace.rollTime < 1801.0
    requires k < m && k + 1 < c.size && LatestStart(pace, k) < 1801.0
    requires m >= 2 ==> LatestStart(pace, m - 2) + pace.rollTime < 1801.0
    ensures Timely(c, pace, run) && Last(run).now == LatestStart(pace, k)
    ensures Stage(c, pace, plans, Last(run), k, LatestStart(pace, k), true)
  {
    assert k == 0 ==> pace.window < 1801.0;
    hide *;
    if k == 0 {
      run := ChainBegins(c, pace, plans, m, late);
    } else {
      LatestStartsGrow(pace, k - 1, k);
      run := Chain(c, pace, plans, m, late, k - 1);
      run := ChainStep(c, pace, plans, m, late, run, k - 1, k);
    }
  }

  lemma ChainBegins(c: Cluster, pace: Pace, plans: seq<Plan>, m: nat, late: Plan) returns (run: seq<State>)
    requires GoodPlans(c, pace, plans, m, late) && Sane(pace)
    requires 0 < m && 1 < c.size && pace.window < 1801.0
    requires m >= 2 ==> LatestStart(pace, m - 2) + pace.rollTime < 1801.0
    ensures Timely(c, pace, run) && Last(run).now == LatestStart(pace, 0)
    ensures Stage(c, pace, plans, Last(run), 0, LatestStart(pace, 0), true)
  {
    forall i | 0 < i < c.size
      ensures 0.0 <= plans[i].entry <= pace.window && Reaches(plans[i].entry, plans[i].target)
      ensures pace.window <= plans[i].target <= plans[i].entry + 1805.0
    {
      hide GoodPlans, LatestStart, Reaches;
      FirstTargets(c, pace, plans, m, late, i);
    }
    assert plans[0].entry == pace.window && |plans| == c.size;
    hide GoodPlans, EntryFor, LastVainPoll, Reaches, TimelyRun;
    run := Opening(c, pace, plans, pace.window);
    var s := Last(run);
    run := StartFirst(c, pace, run);
    FirstStage(c, pace, plans, s, Last(run));
  }

  lemma FirstTargets(c: Cluster, pace: Pace, plans: seq<Plan>, m: nat, late: Plan, i: nat)
    requires GoodPlans(c, pace, plans, m, late) && Sane(pace) && 0 < i < c.size && pace.window < 1801.0
    requires m >= 2 ==> LatestStart(pace, m - 2) + pace.rollTime < 1801.0
    ensures 0.0 <= plans[i].entry <= pace.window && Reaches(plans[i].entry, plans[i].target)
    ensures pace.window <= plans[i].target <= plans[i].entry + 1805.0
  {
    hide EntryFor, LastVainPoll, Reaches, GoodPlans, LatestStart;
    if i < m {
      LatestStartsGrow(pace, i - 1, m - 2);
    }
    LatestStartsGrow(pace, 0, i - 1);
    TargetsAreLate(c, pace, plans, m, late, i);
  }

  // ----- How an unsafe pace ends -----

  /** The last state of the run has both nodes rolling. */
  ghost predicate BothRoll(c: Cluster, pace: Pace, run: seq<State>, i: nat, j: nat)
  {
    Timely(c, pace, run) && i < j < |Last(run).phases| && Last(run).phases[i].Rolling? && Last(run).phases[j].Rolling?
  }

  /** The window itself is too wide: node 1 gives up before node 0 has entered. */
  lemma WideWindow(c: Cluster, pace: Pace) returns (run: seq<State>)
    requires c.size >= 2 && Sane(pace) && pace.window >= 1801.0
    ensures BothRoll(c, pace, run, 0, 1)
  {
    var late := Plan(0.0, 1801.0);
    var plans := seq(c.size, i => if i == 0 then Plan(1801.0, 1801.0) else late);
    assert 1801.0 == 0.0 + Seconds(1801);
    assert Reaches(0.0, 1801.0);
    hide TimelyRun, Reaches;
    run := Opening(c, pace, plans, 1801.0);
    assert Unstarted(pace, plans[1], 1, Last(run)) && OnPlan(1, Last(run).phases[1], plans[1]);
    AtTarget(pace, plans[1], 1, Last(run));
    run := GoAhead(c, pace, run, 1);
    run := StartFirst(c, pace, run);
  }

  /** A roll takes too long: node 1 gives up while node 0 still rolls. */
  lemma SlowRoll(c: Cluster, pace: Pace) returns (run: seq<State>)
    requires c.size >= 2 && Sane(pace) && pace.rollTime >= 1801.0
    ensures BothRoll(c, pace, run, 0, 1)
  {
    var plans := seq(c.size, i => Plan(0.0, 1801.0));
    assert 1801.0 == 0.0 + Seconds(1801);
    assert Reaches(0.0, 1801.0);
    run := SlowRollBegins(c, pace, plans);
    var s := Last(run);
    run := Advance(c, pace, plans, run, 1801.0);
    hide TimelyRun;
    var s' := Last(run);
    assert Kept(s.phases[0], s'.phases[0], false) && Kept(s.phases[1], s'.phases[1], true);
    assert NodeQuiet(c, pace, plans[0], 0, s', 1801.0) && NodeQuiet(c, pace, plans[1], 1, s', 1801.0);
    assert OnPlan(1, s'.phases[1], plans[1]);
    var d: nat :| plans[1].target == s'.phases[1].nextPoll + Seconds(d);
    run := GiveUp(c, pace, run, 1);
  }

  /** Node 0 starts and node 1 hears of it, all at time 0. */
  lemma SlowRollBegins(c: Cluster, pace: Pace, plans: seq<Plan>) returns (run: seq<State>)
    requires c.size >= 2 && Sane(pace) && pace.rollTime >= 1801.0
    requires |plans| == c.size && Reaches(0.0, 1801.0) && forall i :: 0 <= i < c.size ==> plans[i] == Plan(0.0, 1801.0)
    ensures Timely(c, pace, run) && Quiet(c, pace, plans, Last(run), 1801.0)
    ensures Last(run).phases[0].Rolling? && Last(run).phases[1].AwaitDone? && Last(run).phases[1].since == 0.0
    ensures 0 in Last(run).store.startAt && Last(run).store.doneAt == map[]
  {
    BeginningIsQuiet(c, pace, plans, 0.0);
    run := Begin(c, pace, Beginning(c));
    run := StartFirst(c, pace, run);
    hide TimelyRun, Reaches;
    var s := Last(run);
    run := Perform1(c, pace, run, 1, Enter, Outcome(AwaitStart(0.0, 0.0), s.store, s.history));
    run := Perform1(c, pace, run, 1, PollStart(5), Outcome(AwaitDone(0.0, 0.0), s.store, s.history));
    assert 0.0 == 0.0 + Seconds(0);
    var s' := Last(run);
    forall i | 0 <= i < c.size
      ensures NodeQuiet(c, pace, plans[i], i, s', 1801.0) && OnPlan(i, s'.phases[i], plans[i])
    {
      assert plans[i] == Plan(0.0, 1801.0);
    }
  }

  /** A node that has waited for a roll for 1801 seconds goes ahead. */
  lemma GiveUp(c: Cluster, pace: Pace, run: seq<State>, i: nat) returns (run': seq<State>)
    requires Timely(c, pace, run) && 0 < i < |Last(run).phases| && Last(run).phases[i].AwaitDone? && Sane(pace)
    requires var s := Last(run);
      && s.phases[i].nextPoll == s.now && s.now > s.phases[i].since + 1800.0
      && i - 1 !in s.store.doneAt && i !in s.store.doneAt && Alive(i - 1, s.phases[i - 1], s.now, s.store)
    ensures Timely(c, pace, run') &&
      Last(run').phases == Last(run).phases[i := Rolling(Last(run).now, Some(Last(run).now), Last(run).now)]
  {
    var s := Last(run);
    assert TimedVerdict(i - 1 in s.store.doneAt, AliveOf(s.store, i - 1), s.now, s.phases[i].since) == TimedOut;
    run' := Perform1(c, pace, run, i, PollDone(5),
                     Outcome(Ready(s.now), s.store, s.history.(bypassed := s.history.bypassed + {i})));
    run' := StartAndKick(c, pace, run', i);
    assert s.phases[i := Ready(s.now)][i := Rolling(s.now, Some(s.now), s.now)] ==
      s.phases[i := Rolling(s.now, Some(s.now), s.now)];
  }

  function PlansFor(c: Cluster, pace: Pace, m: nat, late: Plan): (plans: seq<Plan>)
    ensures |plans| == c.size
  {
    seq(c.size, i requires 0 <= i =>
      if i == 0 then Plan(pace.window, pace.window) else if i < m then ChainPlan(pace, i) else late)
  }

  /** Node `k` rolls at 1801 seconds, and node `k + 2` goes ahead. */
  lemma EndsInRoll(c: Cluster, pace: Pace, k: nat) returns (run: seq<State>)
    requires Sane(pace) && pace.rollTime < 1801.0 && k + 2 < c.size
    requires LatestStart(pace, k) < 1801.0 <= LatestStart(pace, k) + pace.rollTime
    ensures BothRoll(c, pace, run, k, k + 2)
  {
    var late := Plan(0.0, 1801.0);
    assert 1801.0 == 0.0 + Seconds(1801);
    assert Reaches(0.0, 1801.0);
    var plans := PlansFor(c, pace, k + 1, late);
    assert GoodPlans(c, pace, plans, k + 1, late);
    assert forall i :: k < i < c.size ==> plans[i] == late;
    if k > 0 {
      LatestStartsGrow(pace, k - 1, k);
    }
    LatestStartsGrow(pace, 0, k);
    hide LatestStart, ChainPlan, TimelyRun, Reaches, PlansFor;
    run := Chain(c, pace, plans, k + 1, late, k);
    run := TwoBehindGoesAhead(c, pace, plans, run, k);
  }

  lemma TwoBehindGoesAhead(c: Cluster, pace: Pace, plans: seq<Plan>, run: seq<State>, k: nat) returns (run': seq<State>)
    requires Timely(c, pace, run) && Sane(pace) && k + 2 < c.size == |plans| &&
      Stage(c, pace, plans, Last(run), k, LatestStart(pace, k), true)
    requires Last(run).now == LatestStart(pace, k) < 1801.0 <= LatestStart(pace, k) + pace.rollTime
    requires 0.0 <= LatestStart(pace, k) && forall i :: k < i < c.size ==> plans[i] == Plan(0.0, 1801.0)
    ensures BothRoll(c, pace, run', k, k + 2)
  {
    hide LatestStart, TimelyRun, Reaches;
    run' := StageAdvances(c, pace, plans, run, k, LatestStart(pace, k), true, 1801.0);
    var s := Last(run');
    assert Unstarted(pace, plans[k + 2], k + 2, s) && OnPlan(k + 2, s.phases[k + 2], plans[k + 2]);
    AtTarget(pace, plans[k + 2], k + 2, s);
    run' := GoAhead(c, pace, run', k + 2);
  }

  /** When the last vain poll of node `k + 1` is at `poll`: how long it sleeps then, and the plan of all behind it. */
  lemma LastSleep(pace: Pace, poll: real) returns (sleep: int, late: Plan)
    requires OnGrid(pace, poll) && Sane(pace) && 1772.0 <= poll < 1801.0
    ensures ValidSleep(sleep) && late.target == poll + sleep as real
    ensures 0.0 <= late.entry <= pace.window && Reaches(late.entry, late.target)
    ensures 1801.0 <= late.target && late.entry + 1801.0 <= late.target <= late.entry + 1805.0
  {
    EntryReaches(pace, poll);
    var n := SecondsAfterEntry(poll);
    assert 1771 <= n <= 1800;
    sleep := if n <= 1796 then 1801 - n else 5;
    late := Plan(EntryFor(poll), poll + sleep as real);
    assert late.target == late.entry + Seconds(n + sleep);
  }

  /** Node `k` is done before 1801 seconds, but node `k + 1` sees it later, when node `k + 2` goes ahead too. */
  lemma EndsInWait(c: Cluster, pace: Pace, k: nat) returns (run: seq<State>)
    requires Sane(pace) && pace.rollTime < 1801.0 && k + 2 < c.size
    requires LatestStart(pace, k) + pace.rollTime < 1801.0 <= LatestStart(pace, k + 1)
    ensures BothRoll(c, pace, run, k + 1, k + 2)
  {
    var plans, sleep, late := PlansToWait(c, pace, k);
    LatestStartsGrow(pace, 0, k);
    hide *;
    run := Chain(c, pace, plans, k + 2, late, k);
    run := BothGoTogether(c, pace, plans, run, k, sleep, late);
  }

  lemma PlansToWait(c: Cluster, pace: Pace, k: nat) returns (plans: seq<Plan>, sleep: int, late: Plan)
    requires Sane(pace) && pace.rollTime < 1801.0 && k + 2 < c.size
    requires LatestStart(pace, k) + pace.rollTime < 1801.0 <= LatestStart(pace, k + 1)
    ensures GoodPlans(c, pace, plans, k + 2, late) && |plans| == c.size
    ensures LatestStart(pace, k) <= plans[k + 1].target <= LatestStart(pace, k) + pace.rollTime
    ensures plans[k + 1].target <= plans[k + 1].entry + 1805.0
    ensures ValidSleep(sleep) && late.target == plans[k + 1].target + sleep as real
    ensures 1801.0 <= late.target && late.entry + 1801.0 <= late.target <= late.entry + 1805.0
    ensures forall i :: k + 1 < i < c.size ==> plans[i] == late
  {
    var poll := LastVainPoll(pace, k + 1);
    VainPollBounds(pace, k + 1);
    VainPollIsOnGrid(pace, k + 1, poll);
    sleep, late := LastSleep(pace, poll);
    plans := PlansFor(c, pace, k + 2, late);
    hide LatestStart, LastVainPoll, Reaches, EntryFor, OnGrid;
    assert GoodPlans(c, pace, plans, k + 2, late);
    assert plans[k + 1] == ChainPlan(pace, k + 1);
    TargetsAreLate(c, pace, plans, k + 2, late, k + 1);
  }

  lemma BothGoTogether(c: Cluster, pace: Pace, plans: seq<Plan>, run: seq<State>, k: nat, sleep: int, late: Plan)
      returns (run': seq<State>)
    requires Timely(c, pace, run) && Sane(pace) && k + 2 < c.size == |plans| &&
      Stage(c, pace, plans, Last(run), k, LatestStart(pace, k), true)
    requires Last(run).now ==
      LatestStart(pace, k) <= plans[k + 1].target <= LatestStart(pace, k) + pace.rollTime < 1801.0
    requires 0.0 <= LatestStart(pace, k) && plans[k + 1].target <= plans[k + 1].entry + 1805.0
    requires ValidSleep(sleep) && late.target == plans[k + 1].target + sleep as real
    requires 1801.0 <= late.target && late.entry + 1801.0 <= late.target <= late.entry + 1805.0
    requires forall i :: k + 1 < i < c.size ==> plans[i] == late
    ensures BothRoll(c, pace, run', k + 1, k + 2)
  {
    var start := LatestStart(pace, k);
    hide LatestStart, TimelyRun, Reaches;
    var plans';
    run', plans' := RollOut(c, pace, plans, run, k, start, start + pace.rollTime, sleep);
    run' := StageAdvances(c, pace, plans', run', k, start, false, late.target);
    var s := Last(run');
    assert Unstarted(pace, plans'[k + 2], k + 2, s) && OnPlan(k + 2, s.phases[k + 2], plans'[k + 2]);
    AtTarget(pace, late, k + 2, s);
    run' := GoAhead(c, pace, run', k + 2);
    run' := SeeDoneAndStart(c, pace, run', k + 1);
  }

  /** A node that polls and finds its predecessor done rolls. */
  lemma SeeDoneAndStart(c: Cluster, pace: Pace, run: seq<State>, i: nat) returns (run': seq<State>)
    requires Timely(c, pace, run) && 0 < i < |Last(run).phases| && Last(run).phases[i].AwaitDone? && Sane(pace)
    requires Last(run).phases[i].nextPoll == Last(run).now && i - 1 in Last(run).store.doneAt &&
      i !in Last(run).store.doneAt
    ensures Timely(c, pace, run')
    ensures var s := Last(run);
      Last(run') == State(s.now, s.phases[i := Rolling(s.now, Some(s.now), s.now)],
        s.store.(startAt := s.store.startAt[i := s.now], alive := s.store.alive[i := s.now]), s.history)
  {
    var s := Last(run);
    run' := Perform1(c, pace, run, i, PollDone(5), Outcome(Ready(s.now), s.store, s.history));
    run' := StartAndKick(c, pace, run', i);
    assert s.phases[i := Ready(s.now)][i := Rolling(s.now, Some(s.now), s.now)] ==
      s.phases[i := Rolling(s.now, Some(s.now), s.now)];
  }

  // ----- The exact condition -----

  /** The first node whose latest start comes too late. */
  lemma {:induction false} FirstLateStart(pace: Pace, n: nat) returns (m: nat)
    requires LatestStart(pace, n) >= 1801.0 && pace.window < 1801.0
    ensures 0 < m <= n && LatestStart(pace, m - 1) < 1801.0 <= LatestStart(pace, m)
  {
    if LatestStart(pace, n - 1) < 1801.0 {
      m := n;
    } else {
      m := FirstLateStart(pace, n - 1);
    }
  }

  /** Every pace that is not safe has a timely run with two nodes rolling at once. */
  lemma TwoRollAtOnce(c: Cluster, pace: Pace) returns (run: seq<State>, i: nat, j: nat)
    requires Sane(pace) && !SafePace(c, pace)
    ensures BothRoll(c, pace, run, i, j)
  {
    i, j := 0, 1;
    if pace.window >= 1801.0 {
      run := WideWindow(c, pace);
    } else if pace.rollTime >= 1801.0 {
      run := SlowRoll(c, pace);
    } else {
      var m := FirstLateStart(pace, c.size - 2);
      hide LatestStart, BothRoll;
      if LatestStart(pace, m - 1) + pace.rollTime >= 1801.0 {
        i, j := m - 1, m + 1;
        run := EndsInRoll(c, pace, m - 1);
      } else {
        i, j := m, m + 1;
        run := EndsInWait(c, pace, m - 1);
      }
    }
  }

  /** Whatever happens in a timely run, at most one node rolls. */
  ghost predicate AlwaysOneAtATime(c: Cluster, pace: Pace)
  {
    forall run, k :: TimelyRun(c, pace, run) && 0 <= k < |run| ==> |RollingNodes(run[k])| <= 1
  }

  /** The main result: punctual nodes roll one at a time if and only if the pace is safe. */
  lemma OneAtATimeExactly(c: Cluster, pace: Pace)
    requires Sane(pace)
    ensures AlwaysOneAtATime(c, pace) <==> SafePace(c, pace)
  {
    if SafePace(c, pace) {
      forall run, k | TimelyRun(c, pace, run) && 0 <= k < |run|
        ensures |RollingNodes(run[k])| <= 1
      {
        OneAtATime(c, pace, run, k);
      }
    } else {
      var run, i, j := TwoRollAtOnce(c, pace);
      var rolling := RollingNodes(Last(run));
      assert {i, j} <= rolling;
      SubsetSize({i, j}, rolling);
    }
  }

  /** The same by configuration, when all times are whole seconds or the window is at least a second. */
  lemma OneAtATimeByConfiguration(c: Cluster, pace: Pace)
    requires Sane(pace) && FullGrid(pace) && c.size >= 2
    ensures AlwaysOneAtATime(c, pace) <==>
      pace.rollTime < 1801.0 &&
      pace.window + Rounds(c.size - 2, pace.rollTime + 29.0) -
        (if c.size > 2 && pace.window + pace.rollTime < 5.0 then pace.rollTime else 0.0) < 1801.0
  {
    OneAtATimeExactly(c, pace);
    LatestStartClosedForm(pace, c.size - 2);
  }

  /** The correction counts: 62 nodes with a window and rolls of one second would miss the plain bound. */
  lemma ShortFirstRollCounts()
    ensures 1.0 + Rounds(60, 30.0) == 1801.0
    ensures AlwaysOneAtATime(Cluster(62, Osd), Pace(1.0, 1.0))
  {
    OneAtATimeByConfiguration(Cluster(62, Osd), Pace(1.0, 1.0));
  }
}
