/**
 * The other half of the timing result: whenever a pace is not safe, some timely run has two nodes rolling at once.
 * The run is built from stretches in which everybody waits, polls and kicks as planned, and few deliberate acts.
 */
module LateStarts {
  import opened Wrappers
  import opened WatchDog
  import opened RollingUpgrade
  import opened TimelyUpgrade

  function Last(run: seq<State>): State
    requires run != []
  {
    run[|run| - 1]
  }

  ghost predicate Timely(c: Cluster, pace: Pace, run: seq<State>)
  {
    run != [] && TimelyRun(c, pace, run)
  }

  // ----- Single acts -----

  lemma Perform1(c: Cluster, pace: Pace, run: seq<State>, i: nat, op: Op, o: Outcome) returns (run': seq<State>)
    requires Timely(c, pace, run) && i < |Last(run).phases| && op != Crash
    requires var s := Last(run);
      Perform(c, i, s.phases[i], s.now, s.store, s.history, op) == Some(o) && OnTime(pace, i, o.phase, s.now, o.store)
    ensures Timely(c, pace, run')
    ensures Last(run') == State(Last(run).now, Last(run).phases[i := o.phase], o.store, o.history)
  {
    var s := Last(run);
    var s' := State(s.now, s.phases[i := o.phase], o.store, o.history);
    OneKeyChanges(c, i, s.phases[i], s.now, s.store, s.history, op);
    assert KeepsPace(pace, s);
    hide Perform;
    assert NextStep(c, s, s', Do(i, op));
    forall j | 0 <= j < |s'.phases|
      ensures OnTime(pace, j, s'.phases[j], s'.now, s'.store)
    {
      assert OnTime(pace, j, s.phases[j], s.now, s.store);
    }
    hide TimelyRun, NextStep;
    run' := Extend(c, pace, run, Do(i, op), s');
  }

  lemma PassTime(c: Cluster, pace: Pace, run: seq<State>, t: real) returns (run': seq<State>)
    requires Timely(c, pace, run) && Last(run).now <= t
    requires KeepsPace(pace, Last(run).(now := t))
    ensures Timely(c, pace, run') && Last(run') == Last(run).(now := t)
  {
    var s := Last(run);
    assert NextStep(c, s, s.(now := t), Tick(t - s.now));
    hide TimelyRun, NextStep;
    run' := Extend(c, pace, run, Tick(t - s.now), s.(now := t));
  }

  // ----- Plans -----

  function Seconds(d: nat): real
  {
    d as real
  }

  ghost predicate WholeGap(x: real, y: real)
  {
    exists d: nat :: y == x + Seconds(d)
  }

  /** Sleeps of 5 to 29 seconds can add up to the time between the two. */
  ghost predicate Reaches(x: real, y: real)
  {
    exists d: nat :: y == x + Seconds(d) && (d == 0 || d >= 5)
  }

  /** When a node enters its hook, and a poll at which it aims. */
  datatype Plan = Plan(entry: real, target: real)

  /** The next sleep of a node that is not yet at its target. */
  lemma NextSleep(x: real, y: real) returns (sleep: int)
    requires Reaches(x, y) && x < y
    ensures ValidSleep(sleep) && Reaches(x + sleep as real, y) && x + 5.0 <= x + sleep as real <= y
  {
    var d: nat :| y == x + Seconds(d) && (d == 0 || d >= 5);
    sleep := if d <= 29 then d else if d < 34 then d - 5 else 29;
    assert y == x + sleep as real + Seconds(d - sleep);
  }

  lemma GapGrows(x: real, y: real, sleep: int)
    requires WholeGap(x, y) && ValidSleep(sleep)
    ensures WholeGap(x, y + sleep as real)
  {
    var d: nat :| y == x + Seconds(d);
    assert y + sleep as real == x + Seconds(d + sleep);
  }

  ghost predicate OnPlan(i: nat, p: Phase, plan: Plan)
  {
    match p
    case Idle => i > 0 ==> Reaches(plan.entry, plan.target)
    case AwaitStart(since, nextPoll) => since == plan.entry <= nextPoll && Reaches(nextPoll, plan.target)
    case AwaitDone(since, nextPoll) => WholeGap(since, nextPoll) && Reaches(nextPoll, plan.target)
    case _ => true
  }

  // ----- Quiet stretches -----

  /** The node rolls, and its last kick is fresh. */
  ghost predicate Alive(i: nat, p: Phase, now: real, store: Store)
  {
    && p.Rolling? && p.lastRun.Some? && i in store.alive && store.alive[i] == p.lastRun.value
    && p.began <= p.lastRun.value <= p.lastCall <= p.lastRun.value + 180.0 && p.lastCall <= now <= p.lastCall + 100.0
    && i in store.startAt && store.startAt[i] == p.began && i !in store.doneAt
  }

  /** Nothing that a waiting node sees of its predecessor ends its wait. */
  predicate Silent(i: nat, s: State)
    requires 0 < i <= |s.phases|
  {
    i - 1 !in s.store.doneAt && (i - 1 in s.store.startAt ==> s.phases[i - 1].Rolling?)
  }

  /** Until `t` the node has nothing to do but to enter, to poll in vain, to kick or to scan in vain. */
  ghost predicate NodeQuiet(c: Cluster, pace: Pace, plan: Plan, i: nat, s: State, t: real)
    requires i < |s.phases|
  {
    match s.phases[i]
    case Idle =>
      && s.now <= plan.entry <= pace.window && i !in s.store.startAt && i !in s.store.doneAt
      && (plan.entry < t ==> i > 0 && t <= plan.target <= plan.entry + 1805.0 && Silent(i, s))
    case AwaitStart(since, nextPoll) =>
      && i > 0 && i !in s.store.startAt && i !in s.store.doneAt && s.now <= nextPoll
      && (nextPoll < t ==> t <= plan.target <= since + 1805.0 && Silent(i, s))
    case AwaitDone(since, nextPoll) =>
      && i > 0 && i !in s.store.startAt && i !in s.store.doneAt && s.now <= nextPoll
      && i - 1 in s.store.startAt && s.store.startAt[i - 1] <= since
      && (nextPoll < t ==> t <= plan.target <= since + 1805.0 && Silent(i, s))
    case Rolling(began, _, _) => Alive(i, s.phases[i], s.now, s.store) && t <= began + pace.rollTime
    case Barrier(_, _, index, nextRead) => s.now <= nextRead && index < c.size
    case Ready(_) => false
    case Passed(_, _) => false
    case _ => true
  }

  ghost predicate Quiet(c: Cluster, pace: Pace, plans: seq<Plan>, s: State, t: real)
  {
    && |s.phases| == |plans| == c.size && c.size > 0 && s.now <= t
    && c.size - 1 !in s.store.doneAt
    && forall i :: 0 <= i < c.size ==> NodeQuiet(c, pace, plans[i], i, s, t) && OnPlan(i, s.phases[i], plans[i])
  }

  /** What a quiet stretch leaves of a phase. */
  predicate Kept(p: Phase, q: Phase, heard: bool)
  {
    match p
    case Idle => q.Idle? || q.AwaitStart? || (heard && q.AwaitDone?)
    case AwaitStart(since, _) => (q.AwaitStart? && q.since == since) || (heard && q.AwaitDone?)
    case AwaitDone(since, nextPoll) => q.AwaitDone? && q.since == since && q.nextPoll >= nextPoll
    case Rolling(began, _, _) => q.Rolling? && q.began == began
    case Barrier(_, since, _, _) => (q.Barrier? && q.since == since) || q == Failed
    case _ => q == p
  }

  ghost predicate AllKept(s: State, s': State)
  {
    && |s'.phases| == |s.phases| && s'.history == s.history
    && s'.store.startAt == s.store.startAt && s'.store.doneAt == s.store.doneAt
    && forall i :: 0 <= i < |s.phases| ==> Kept(s.phases[i], s'.phases[i], i - 1 in s.store.startAt)
  }

  lemma KeptTransitive(s: State, s': State, s'': State)
    requires AllKept(s, s') && AllKept(s', s'')
    ensures AllKept(s, s'')
  {
    forall i | 0 <= i < |s.phases|
      ensures Kept(s.phases[i], s''.phases[i], i - 1 in s.store.startAt)
    {
      assert Kept(s.phases[i], s'.phases[i], i - 1 in s.store.startAt);
      assert Kept(s'.phases[i], s''.phases[i], i - 1 in s'.store.startAt);
    }
  }

  // ----- The events of a quiet stretch -----

  /** When the node next does something, at the latest at `t`. */
  function NextAt(p: Phase, plan: Plan, t: real): real
  {
    var at := match p
      case Idle => plan.entry
      case AwaitStart(_, nextPoll) => nextPoll
      case AwaitDone(_, nextPoll) => nextPoll
      case Rolling(_, _, lastCall) => lastCall + 100.0
      case Barrier(_, _, _, nextRead) => nextRead
      case _ => t;
    if at < t then at else t
  }

  /** An upper bound on the number of acts in `x` seconds, five seconds apart. */
  function Slots(x: real): nat
    decreases if x <= 0.0 then 0 else x.Floor + 1
  {
    if x <= 0.0 then 0 else 1 + Slots(x - 5.0)
  }

  lemma {:induction false} SlotsGrow(x: real, y: real)
    requires y <= x
    ensures Slots(y) <= Slots(x)
    decreases if x <= 0.0 then 0 else x.Floor + 1
  {
    if y > 0.0 {
      SlotsGrow(x - 5.0, y - 5.0);
    }
  }

  lemma SlotsShrink(x: real, y: real)
    requires x > 0.0 && y <= x - 5.0
    ensures Slots(y) < Slots(x)
  {
    SlotsGrow(x - 5.0, y);
  }

  function Work(ps: seq<Phase>, plans: seq<Plan>, t: real): nat
    requires |ps| == |plans|
  {
    if ps == [] then 0
    else
      var n := |ps| - 1;
      Work(ps[..n], plans[..n], t) + Slots(t - NextAt(ps[n], plans[n], t))
  }

  lemma {:induction false} WorkShrinks(ps: seq<Phase>, plans: seq<Plan>, t: real, i: nat, p: Phase)
    requires |ps| == |plans| && i < |ps|
    requires NextAt(ps[i], plans[i], t) < t
    requires NextAt(p, plans[i], t) == t || NextAt(ps[i], plans[i], t) + 5.0 <= NextAt(p, plans[i], t)
    ensures Work(ps[i := p], plans, t) < Work(ps, plans, t)
  {
    var n := |ps| - 1;
    hide NextAt;
    if i == n {
      assert ps[i := p][..n] == ps[..n];
      var x, y := t - NextAt(ps[i], plans[i], t), t - NextAt(p, plans[i], t);
      if NextAt(p, plans[i], t) == t {
        assert Slots(y) == 0 < Slots(x);
      } else {
        SlotsShrink(x, y);
      }
      hide Slots;
    } else {
      assert ps[i := p][..n] == ps[..n][i := p];
      WorkShrinks(ps[..n], plans[..n], t, i, p);
    }
  }

  /** The node that acts first. */
  lemma {:induction false} Earliest(ps: seq<Phase>, plans: seq<Plan>, t: real) returns (i: nat)
    requires |ps| == |plans| && ps != []
    ensures i < |ps| && forall j :: 0 <= j < |ps| ==> NextAt(ps[i], plans[i], t) <= NextAt(ps[j], plans[j], t)
  {
    var n := |ps| - 1;
    if n == 0 {
      i := 0;
    } else {
      i := Earliest(ps[..n], plans[..n], t);
      assert forall j :: 0 <= j < n ==> NextAt(ps[..n][j], plans[..n][j], t) == NextAt(ps[j], plans[j], t);
      if NextAt(ps[n], plans[n], t) < NextAt(ps[i], plans[i], t) {
        i := n;
      }
    }
  }

  /** The store after an act of a quiet node: only its own `alive` key may be new. */
  predicate OnlyKicks(i: nat, store: Store, store': Store)
  {
    store'.startAt == store.startAt && store'.doneAt == store.doneAt &&
    (store'.alive == store.alive || (i in store'.alive && store'.alive == store.alive[i := store'.alive[i]]))
  }

  /** What the event of node `i` must achieve. */
  ghost predicate GoodEvent(c: Cluster, pace: Pace, plan: Plan, i: nat, s: State, s': State, t: real)
    requires i < |s.phases|
  {
    && |s'.phases| == |s.phases| && s' == State(s.now, s.phases[i := s'.phases[i]], s'.store, s.history)
    && OnlyKicks(i, s.store, s'.store)
    && (s.phases[i].Rolling? ==> s'.phases[i].Rolling?)
    && (s'.store.alive != s.store.alive ==> s.phases[i].Rolling?)
    && NodeQuiet(c, pace, plan, i, s', t) && OnPlan(i, s'.phases[i], plan)
    && Kept(s.phases[i], s'.phases[i], i - 1 in s.store.startAt)
    && (NextAt(s'.phases[i], plan, t) == t || s.now + 5.0 <= NextAt(s'.phases[i], plan, t))
  }

  lemma KickEvent(c: Cluster, pace: Pace, plan: Plan, run: seq<State>, i: nat, t: real) returns (run': seq<State>)
    requires Timely(c, pace, run) && i < |Last(run).phases| && Last(run).phases[i].Rolling?
    requires NodeQuiet(c, pace, plan, i, Last(run), t) && Last(run).now < t && OnPlan(i, Last(run).phases[i], plan)
    ensures Timely(c, pace, run') && GoodEvent(c, pace, plan, i, Last(run), Last(run'), t)
  {
    var s := Last(run);
    var p := s.phases[i];
    var o := if KickDue(p.lastRun, KICK_INTERVAL, s.now)
             then Outcome(Rolling(p.began, Some(s.now), s.now), s.store.(alive := s.store.alive[i := s.now]), s.history)
             else Outcome(Rolling(p.began, p.lastRun, s.now), s.store, s.history);
    run' := Perform1(c, pace, run, i, KickDog, o);
    hide TimelyRun;
  }

  /** A poll on `done` in vain. */
  lemma DoneEvent(c: Cluster, pace: Pace, plan: Plan, run: seq<State>, i: nat, t: real) returns (run': seq<State>)
    requires Timely(c, pace, run) && i < |Last(run).phases| && Last(run).phases[i].AwaitDone?
    requires var s := Last(run);
      NodeQuiet(c, pace, plan, i, s, t) && s.phases[i].nextPoll == s.now < t && OnPlan(i, s.phases[i], plan) &&
      (s.phases[i - 1].Rolling? ==> Alive(i - 1, s.phases[i - 1], s.now, s.store))
    ensures Timely(c, pace, run') && GoodEvent(c, pace, plan, i, Last(run), Last(run'), t)
  {
    var s := Last(run);
    var p := s.phases[i];
    var sleep := NextSleep(s.now, plan.target);
    NotYetAtTarget(s.now, plan.target);
    GapGrows(p.since, s.now, sleep);
    var q := AwaitDone(p.since, s.now + sleep as real);
    hide Reaches, WholeGap;
    assert TimedVerdict(i - 1 in s.store.doneAt, AliveOf(s.store, i - 1), s.now, p.since) == KeepWaiting;
    run' := Perform1(c, pace, run, i, PollDone(sleep), Outcome(q, s.store, s.history));
    hide TimelyRun, Perform;
  }

  lemma NotYetAtTarget(x: real, y: real)
    requires Reaches(x, y) && x < y
    ensures x + 5.0 <= y
  {
  }

  /** A poll on `start`: in vain, or followed at once by a poll on `done` in vain. */
  lemma StartEvent(c: Cluster, pace: Pace, plan: Plan, run: seq<State>, i: nat, t: real) returns (run': seq<State>)
    requires Timely(c, pace, run) && i < |Last(run).phases| && Last(run).phases[i].AwaitStart?
    requires var s := Last(run);
      NodeQuiet(c, pace, plan, i, s, t) && s.phases[i].nextPoll == s.now < t && OnPlan(i, s.phases[i], plan) &&
      (s.phases[i - 1].Rolling? ==> Alive(i - 1, s.phases[i - 1], s.now, s.store))
    ensures Timely(c, pace, run') && GoodEvent(c, pace, plan, i, Last(run), Last(run'), t)
  {
    var s := Last(run);
    var p := s.phases[i];
    if i - 1 in s.store.startAt {
      run' := HearStart(c, pace, plan, run, i, t);
      run' := DoneEvent(c, pace, plan, run', i, t);
      hide TimelyRun;
      assert s.phases[i := AwaitDone(s.now, s.now)][i := Last(run').phases[i]] == s.phases[i := Last(run').phases[i]];
    } else {
      var sleep := NextSleep(s.now, plan.target);
      NotYetAtTarget(s.now, plan.target);
      hide Reaches;
      assert UntilVerdict(i - 1 in s.store.startAt, s.now, p.since) == KeepWaiting;
      var q := AwaitStart(p.since, s.now + sleep as real);
      run' := Perform1(c, pace, run, i, PollStart(sleep), Outcome(q, s.store, s.history));
      hide TimelyRun, Perform;
    }
  }

  /** A poll that sees `start`, up to the poll on `done` that follows at the same time. */
  lemma HearStart(c: Cluster, pace: Pace, plan: Plan, run: seq<State>, i: nat, t: real) returns (run': seq<State>)
    requires Timely(c, pace, run) && i < |Last(run).phases| && Last(run).phases[i].AwaitStart?
    requires var s := Last(run);
      NodeQuiet(c, pace, plan, i, s, t) && s.phases[i].nextPoll == s.now && OnPlan(i, s.phases[i], plan) &&
      i - 1 in s.store.startAt && s.store.startAt[i - 1] <= s.now
    ensures Timely(c, pace, run') &&
      Last(run') == Last(run).(phases := Last(run).phases[i := AwaitDone(Last(run).now, Last(run).now)])
    ensures NodeQuiet(c, pace, plan, i, Last(run'), t) && OnPlan(i, Last(run').phases[i], plan)
  {
    var s := Last(run);
    run' := Perform1(c, pace, run, i, PollStart(5), Outcome(AwaitDone(s.now, s.now), s.store, s.history));
    hide TimelyRun, Perform;
    assert s.now == s.now + Seconds(0);
  }

  lemma EnterEvent(c: Cluster, pace: Pace, plan: Plan, run: seq<State>, i: nat, t: real) returns (run': seq<State>)
    requires Timely(c, pace, run) && i < |Last(run).phases| && Last(run).phases[i].Idle?
    requires var s := Last(run);
      NodeQuiet(c, pace, plan, i, s, t) && plan.entry == s.now < t && OnPlan(i, s.phases[i], plan) &&
      (s.phases[i - 1].Rolling? ==> Alive(i - 1, s.phases[i - 1], s.now, s.store))
    ensures Timely(c, pace, run') && GoodEvent(c, pace, plan, i, Last(run), Last(run'), t)
  {
    var s := Last(run);
    var q := AwaitStart(s.now, s.now);
    run' := Perform1(c, pace, run, i, Enter, Outcome(q, s.store, s.history));
    hide TimelyRun, Perform, Reaches;
    run' := StartEvent(c, pace, plan, run', i, t);
    assert s.phases[i := q][i := Last(run').phases[i]] == s.phases[i := Last(run').phases[i]];
  }

  /** A scan of the barrier when the last member is not done: it ends at a missing key. */
  lemma ScanInVain(c: Cluster, pace: Pace, run: seq<State>, i: nat) returns (run': seq<State>)
    requires Timely(c, pace, run) && i < |Last(run).phases| && c.size > 0
    requires var s := Last(run); var p := s.phases[i];
      p.Barrier? && p.nextRead == s.now && p.index < c.size && c.size - 1 !in s.store.doneAt
    ensures Timely(c, pace, run')
    ensures |Last(run').phases| == |Last(run).phases|
    ensures Last(run') == Last(run).(phases := Last(run).phases[i := Last(run').phases[i]])
    ensures var q := Last(run').phases[i];
      q == Failed ||
      (q.Barrier? && q.since == Last(run).phases[i].since && q.nextRead == Last(run).now + 30.0 && q.index == 0)
    decreases c.size - Last(run).phases[i].index
  {
    var s := Last(run);
    var p := s.phases[i];
    var o := BarrierOutcome(c, p, s.now, s.store, s.history);
    run' := Perform1(c, pace, run, i, ReadBarrier, o);
    hide TimelyRun, Perform;
    if p.index in s.store.doneAt {
      run' := ScanInVain(c, pace, run', i);
      assert s.phases[i := o.phase][i := Last(run').phases[i]] == s.phases[i := Last(run').phases[i]];
    }
  }

  lemma BarrierEvent(c: Cluster, pace: Pace, plan: Plan, run: seq<State>, i: nat, t: real) returns (run': seq<State>)
    requires Timely(c, pace, run) && i < |Last(run).phases| && Last(run).phases[i].Barrier? && c.size > 0
    requires var s := Last(run);
      NodeQuiet(c, pace, plan, i, s, t) && s.phases[i].nextRead == s.now < t && c.size - 1 !in s.store.doneAt
    ensures Timely(c, pace, run') && GoodEvent(c, pace, plan, i, Last(run), Last(run'), t)
  {
    run' := ScanInVain(c, pace, run, i);
    hide TimelyRun;
  }

  /** The act of the node that is due. */
  lemma OneEvent(c: Cluster, pace: Pace, plans: seq<Plan>, run: seq<State>, i: nat, t: real) returns (run': seq<State>)
    requires Timely(c, pace, run) && Quiet(c, pace, plans, Last(run), t) && i < c.size
    requires NextAt(Last(run).phases[i], plans[i], t) == Last(run).now < t
    ensures Timely(c, pace, run') && GoodEvent(c, pace, plans[i], i, Last(run), Last(run'), t)
  {
    var s := Last(run);
    var p, plan := s.phases[i], plans[i];
    assert NodeQuiet(c, pace, plan, i, s, t) && OnPlan(i, p, plan);
    if i > 0 {
      assert NodeQuiet(c, pace, plans[i - 1], i - 1, s, t);
    }
    hide TimelyRun, GoodEvent, OnPlan;
    match p
    case Idle =>
      run' := EnterEvent(c, pace, plan, run, i, t);
    case AwaitStart(_, _) =>
      run' := StartEvent(c, pace, plan, run, i, t);
    case AwaitDone(_, _) =>
      run' := DoneEvent(c, pace, plan, run, i, t);
    case Rolling(_, _, _) =>
      run' := KickEvent(c, pace, plan, run, i, t);
    case Barrier(_, _, _, _) =>
      run' := BarrierEvent(c, pace, plan, run, i, t);
    case _ =>
      assert false;
  }

  lemma OthersStayQuiet(c: Cluster, pace: Pace, plans: seq<Plan>, s: State, i: nat, s': State, t: real)
    requires Quiet(c, pace, plans, s, t) && i < c.size && GoodEvent(c, pace, plans[i], i, s, s', t)
    ensures Quiet(c, pace, plans, s', t) && AllKept(s, s')
  {
    hide Reaches, WholeGap;
    forall j | 0 <= j < c.size
      ensures NodeQuiet(c, pace, plans[j], j, s', t) && OnPlan(j, s'.phases[j], plans[j])
      ensures Kept(s.phases[j], s'.phases[j], j - 1 in s.store.startAt)
    {
      assert NodeQuiet(c, pace, plans[j], j, s, t) && OnPlan(j, s.phases[j], plans[j]);
    }
  }

  lemma AllOnTime(c: Cluster, pace: Pace, plans: seq<Plan>, s: State, t: real, u: real)
    requires Quiet(c, pace, plans, s, t) && s.now <= u <= t
    requires forall j :: 0 <= j < c.size ==> u <= NextAt(s.phases[j], plans[j], t)
    ensures KeepsPace(pace, s.(now := u)) && Quiet(c, pace, plans, s.(now := u), t)
  {
    hide OnPlan;
    forall j | 0 <= j < c.size
      ensures OnTime(pace, j, s.phases[j], u, s.store)
      ensures NodeQuiet(c, pace, plans[j], j, s.(now := u), t) && OnPlan(j, s.phases[j], plans[j])
    {
      assert NodeQuiet(c, pace, plans[j], j, s, t) && OnPlan(j, s.phases[j], plans[j]);
      assert u <= NextAt(s.phases[j], plans[j], t);
    }
  }

  /** Time passes up to `t`, and everybody does what is due before. */
  lemma Advance(c: Cluster, pace: Pace, plans: seq<Plan>, run: seq<State>, t: real) returns (run': seq<State>)
    requires Timely(c, pace, run) && Quiet(c, pace, plans, Last(run), t)
    ensures Timely(c, pace, run') && Last(run').now == t
    ensures Quiet(c, pace, plans, Last(run'), t) && AllKept(Last(run), Last(run'))
    decreases Work(Last(run).phases, plans, t)
  {
    hide TimelyRun, NodeQuiet, OnPlan;
    var s := Last(run);
    var i := Earliest(s.phases, plans, t);
    var u := NextAt(s.phases[i], plans[i], t);
    NotInThePast(c, pace, plans, s, i, t);
    AllOnTime(c, pace, plans, s, t, u);
    run' := PassTime(c, pace, run, u);
    if u < t {
      var before := Last(run');
      run' := OneEvent(c, pace, plans, run', i, t);
      var after := Last(run');
      OthersStayQuiet(c, pace, plans, before, i, after, t);
      WorkShrinks(before.phases, plans, t, i, after.phases[i]);
      KeptTransitive(s, before, after);
      hide NextAt, Work, GoodEvent, Quiet, AllKept;
      run' := Advance(c, pace, plans, run', t);
      KeptTransitive(s, after, Last(run'));
    }
  }

  lemma NotInThePast(c: Cluster, pace: Pace, plans: seq<Plan>, s: State, i: nat, t: real)
    requires Quiet(c, pace, plans, s, t) && i < c.size
    ensures s.now <= NextAt(s.phases[i], plans[i], t)
  {
    assert NodeQuiet(c, pace, plans[i], i, s, t);
  }
}
