/** The states through which a timely run goes when the nodes roll one after another, and the acts between them. */
module Stages {
  import opened Wrappers
  import opened WatchDog
  import opened RollingUpgrade
  import opened TimelyUpgrade
  import opened LateStarts

  // ----- Stages -----

  /** The barrier that has been waiting since then, or has failed meanwhile. */
  predicate WaitingSince(p: Phase, since: real)
  {
    p == Failed || (p.Barrier? && p.since == since)
  }

  ghost predicate SameWait(s: State, s': State)
    requires s.phases != [] && s'.phases != []
  {
    forall since :: WaitingSince(s.phases[0], since) ==> WaitingSince(s'.phases[0], since)
  }

  ghost predicate IsDone(c: Cluster, i: nat, s: State)
    requires i < |s.phases|
  {
    i in s.store.doneAt &&
    match s.phases[i]
    case Barrier(_, _, index, nextRead) => s.now <= nextRead && index < c.size
    case Finished => true
    case Failed => true
    case _ => false
  }

  ghost predicate Unstarted(pace: Pace, plan: Plan, i: nat, s: State)
    requires i < |s.phases|
  {
    i !in s.store.startAt && i !in s.store.doneAt &&
    match s.phases[i]
    case Idle => s.now <= plan.entry <= pace.window
    case AwaitStart(_, nextPoll) => s.now <= nextPoll
    case _ => false
  }

  /** Node `k + 1` has heard of the start of node `k`. */
  ghost predicate Heard(k: nat, s: State)
    requires k + 1 < |s.phases|
  {
    var p := s.phases[k + 1];
    p.AwaitDone? && k + 1 !in s.store.startAt && k + 1 !in s.store.doneAt && s.now <= p.nextPoll
    && k in s.store.startAt && s.store.startAt[k] <= p.since
  }

  /** All before node `k` are done, all behind node `k + 1` wait; node `k` rolls, or is done and node `k + 1` sleeps. */
  ghost predicate Stage(c: Cluster, pace: Pace, plans: seq<Plan>, s: State, k: nat, start: real, rolling: bool)
  {
    && |s.phases| == |plans| == c.size && k + 1 < c.size
    && (forall i :: 0 <= i < k ==> IsDone(c, i, s))
    && (if rolling then Alive(k, s.phases[k], s.now, s.store) && s.phases[k].began == start
        else IsDone(c, k, s))
    && (Heard(k, s) || (rolling && Unstarted(pace, plans[k + 1], k + 1, s)))
    && (!rolling ==> s.phases[k + 1].nextPoll == plans[k + 1].target)
    && (forall i :: k + 1 < i < c.size ==> Unstarted(pace, plans[i], i, s))
    && (forall i :: k < i < c.size ==> OnPlan(i, s.phases[i], plans[i]))
  }

  /** Whoever still has to poll before `t` can do so in vain. */
  ghost predicate Patient(c: Cluster, pace: Pace, plans: seq<Plan>, s: State, k: nat, start: real, t: real)
    requires |s.phases| == |plans| == c.size && k + 1 < c.size
  {
    && (forall i :: k + 1 < i < c.size ==> t <= plans[i].target <= plans[i].entry + 1805.0)
    && ((s.phases[k + 1].AwaitDone? && t <= s.phases[k + 1].nextPoll) ||
        (t <= plans[k + 1].target <= plans[k + 1].entry + 1805.0 &&
          plans[k + 1].target <= start + 1805.0))
  }

  lemma StageIsQuiet(c: Cluster, pace: Pace, plans: seq<Plan>, s: State, k: nat, start: real, rolling: bool, t: real)
    requires Stage(c, pace, plans, s, k, start, rolling) && s.now <= t && Patient(c, pace, plans, s, k, start, t)
    requires rolling ==> t <= start + pace.rollTime
    requires !rolling ==> t <= plans[k + 1].target
    ensures Quiet(c, pace, plans, s, t)
  {
    hide Reaches, WholeGap;
    forall i | k + 1 < i < c.size
      ensures Silent(i, s) && i !in s.store.doneAt
    {
      assert Unstarted(pace, plans[i], i, s);
      if i > k + 2 {
        assert Unstarted(pace, plans[i - 1], i - 1, s);
      }
    }
    forall i | 0 <= i < c.size
      ensures NodeQuiet(c, pace, plans[i], i, s, t) && OnPlan(i, s.phases[i], plans[i])
    {
      if i < k || (i == k && !rolling) {
        assert IsDone(c, i, s);
      } else if i > k {
        assert OnPlan(i, s.phases[i], plans[i]);
        assert i > k + 1 ==> Unstarted(pace, plans[i], i, s);
      }
    }
  }

  lemma StageAdvances(c: Cluster, pace: Pace, plans: seq<Plan>, run: seq<State>, k: nat, start: real,
                      rolling: bool, t: real)
      returns (run': seq<State>)
    requires Timely(c, pace, run) && Last(run).now <= t
    requires Stage(c, pace, plans, Last(run), k, start, rolling) && Patient(c, pace, plans, Last(run), k, start, t)
    requires rolling ==> t <= start + pace.rollTime
    requires !rolling ==> t == plans[k + 1].target
    ensures Timely(c, pace, run') && Last(run').now == t && Stage(c, pace, plans, Last(run'), k, start, rolling)
    ensures Last(run').store.startAt == Last(run).store.startAt && Last(run').store.doneAt == Last(run).store.doneAt
    ensures Last(run).phases[k + 1].AwaitDone? && Last(run).phases[k + 1].nextPoll == plans[k + 1].target ==>
      Last(run').phases[k + 1].AwaitDone? && Last(run').phases[k + 1].nextPoll == plans[k + 1].target
    ensures SameWait(Last(run), Last(run'))
  {
    StageIsQuiet(c, pace, plans, Last(run), k, start, rolling, t);
    run' := Advance(c, pace, plans, run, t);
    hide TimelyRun;
    StageIsKept(c, pace, plans, Last(run), Last(run'), k, start, rolling);
    assert Kept(Last(run).phases[k + 1], Last(run').phases[k + 1], k in Last(run).store.startAt);
    assert OnPlan(k + 1, Last(run').phases[k + 1], plans[k + 1]);
    assert Kept(Last(run).phases[0], Last(run').phases[0], -1 in Last(run).store.startAt);
  }

  lemma StageIsKept(c: Cluster, pace: Pace, plans: seq<Plan>, s: State, s': State, k: nat, start: real, rolling: bool)
    requires Stage(c, pace, plans, s, k, start, rolling) && Quiet(c, pace, plans, s', s'.now) && AllKept(s, s')
    requires !rolling ==> s'.now == plans[k + 1].target
    ensures Stage(c, pace, plans, s', k, start, rolling)
  {
    hide WholeGap;
    forall i | 0 <= i < c.size
      ensures i < k || (i == k && !rolling) ==> IsDone(c, i, s')
      ensures i == k && rolling ==>
        Alive(k, s'.phases[k], s'.now, s'.store) && s'.phases[k].began == start
      ensures i == k + 1 ==> Heard(k, s') || (rolling && Unstarted(pace, plans[k + 1], k + 1, s'))
      ensures i > k + 1 ==> Unstarted(pace, plans[i], i, s')
      ensures i > k ==> OnPlan(i, s'.phases[i], plans[i])
    {
      assert NodeQuiet(c, pace, plans[i], i, s', s'.now) && OnPlan(i, s'.phases[i], plans[i]);
      assert Kept(s.phases[i], s'.phases[i], i - 1 in s.store.startAt);
      if i < k || (i == k && !rolling) {
        assert IsDone(c, i, s);
      } else if i > k + 1 {
        assert Unstarted(pace, plans[i], i, s);
        assert i - 1 !in s.store.startAt by {
          if i - 1 > k + 1 {
            assert Unstarted(pace, plans[i - 1], i - 1, s);
          }
        }
      }
    }
    if !rolling {
      var d: nat :| plans[k + 1].target == s'.phases[k + 1].nextPoll + Seconds(d) && (d == 0 || d >= 5);
    }
  }

  // ----- The deliberate acts -----

  /** The state of node `i` alone has changed. */
  ghost predicate OnlyPhase(s: State, i: nat, p: Phase, s': State)
    requires i < |s.phases|
  {
    s' == s.(phases := s.phases[i := p])
  }

  /** Node `k + 1` has come to its target and is about to poll on `done`. */
  lemma ComeToTarget(c: Cluster, pace: Pace, plan: Plan, run: seq<State>, k: nat)
      returns (run': seq<State>, since: real)
    requires Timely(c, pace, run) && k + 1 < |Last(run).phases| && k in Last(run).store.startAt
    requires var s := Last(run);
      && OnPlan(k + 1, s.phases[k + 1], plan) && s.now == plan.target
      && (Unstarted(pace, plan, k + 1, s) || Heard(k, s)) && s.now < s.store.startAt[k] + 1801.0
      && s.store.startAt[k] <= s.now
    ensures Timely(c, pace, run') && OnlyPhase(Last(run), k + 1, AwaitDone(since, plan.target), Last(run'))
    ensures Last(run).store.startAt[k] <= since && WholeGap(since, plan.target) && plan.target - since <= 1800.0
  {
    var s, i := Last(run), k + 1;
    run' := run;
    if s.phases[i].Idle? {
      run' := EnterAtTarget(c, pace, plan, run', i);
    }
    if Last(run').phases[i].AwaitStart? {
      run' := HearAtTarget(c, pace, plan, run', i);
      assert s.now == s.now + Seconds(0);
    }
    since := Last(run').phases[i].since;
    hide TimelyRun;
    HeardAtTarget(c, pace, plan, Last(run'), i);
    assert s.phases[i := AwaitStart(plan.entry, s.now)][i := AwaitDone(since, s.now)] ==
      s.phases[i := AwaitDone(since, s.now)];
    assert s.phases[i := s.phases[i]] == s.phases;
  }

  /** Node `k + 1` polls in vain at its target and sleeps as told. */
  lemma PollInVain(c: Cluster, pace: Pace, plans: seq<Plan>, run: seq<State>, k: nat, start: real, sleep: int)
      returns (run': seq<State>)
    requires Timely(c, pace, run) && Stage(c, pace, plans, Last(run), k, start, true) && ValidSleep(sleep)
    requires Last(run).now == plans[k + 1].target < start + 1801.0
    ensures Timely(c, pace, run')
    ensures var s := Last(run');
      var plan := Plan(plans[k + 1].entry, Last(run).now + sleep as real);
      && s.now == Last(run).now && s.store == Last(run).store
      && Stage(c, pace, plans[k + 1 := plan], s, k, start, true)
      && s.phases[k + 1].AwaitDone? && s.phases[k + 1].nextPoll == plan.target
    ensures SameWait(Last(run), Last(run'))
  {
    var s, i := Last(run), k + 1;
    assert OnPlan(i, s.phases[i], plans[i]);
    var since;
    run', since := ComeToTarget(c, pace, plans[i], run, k);
    run' := VainDonePoll(c, pace, run', i, sleep);
    hide TimelyRun, OnPlan, Heard, Unstarted;
    assert s.phases[i := AwaitDone(since, s.now)][i := AwaitDone(since, s.now + sleep as real)] ==
      s.phases[i := AwaitDone(since, s.now + sleep as real)];
    StageWithSleeper(c, pace, plans, s, Last(run'), k, start, since, sleep);
  }

  lemma StageWithSleeper(c: Cluster, pace: Pace, plans: seq<Plan>, s: State, s': State, k: nat, start: real,
                         since: real, sleep: int)
    requires Stage(c, pace, plans, s, k, start, true) && ValidSleep(sleep) && WholeGap(since, s.now)
    requires OnlyPhase(s, k + 1, AwaitDone(since, s.now + sleep as real), s') && s.store.startAt[k] <= since
    ensures Stage(c, pace, plans[k + 1 := Plan(plans[k + 1].entry, s.now + sleep as real)], s', k, start, true)
  {
    GapGrows(since, s.now, sleep);
    var next := s.now + sleep as real;
    assert next == next + Seconds(0);
    forall i | 0 <= i < c.size
      ensures i < k ==> IsDone(c, i, s')
      ensures i > k + 1 ==> Unstarted(pace, plans[i], i, s')
    {
      assert i < k ==> IsDone(c, i, s);
      assert i > k + 1 ==> Unstarted(pace, plans[i], i, s);
    }
    assert Unstarted(pace, plans[k + 1], k + 1, s) || Heard(k, s);
  }

  lemma EnterAtTarget(c: Cluster, pace: Pace, plan: Plan, run: seq<State>, i: nat) returns (run': seq<State>)
    requires Timely(c, pace, run) && 0 < i < |Last(run).phases| && Last(run).phases[i].Idle?
    requires Last(run).now == plan.target <= plan.entry && Reaches(plan.entry, plan.target)
    ensures Timely(c, pace, run') && OnlyPhase(Last(run), i, AwaitStart(plan.entry, plan.target), Last(run'))
  {
    var s := Last(run);
    var d: nat :| plan.target == plan.entry + Seconds(d);
    run' := Perform1(c, pace, run, i, Enter, Outcome(AwaitStart(s.now, s.now), s.store, s.history));
  }

  lemma HearAtTarget(c: Cluster, pace: Pace, plan: Plan, run: seq<State>, i: nat) returns (run': seq<State>)
    requires Timely(c, pace, run) && 0 < i < |Last(run).phases| && Last(run).phases[i].AwaitStart?
    requires Last(run).now == plan.target <= Last(run).phases[i].nextPoll
    requires Reaches(Last(run).phases[i].nextPoll, plan.target) && i - 1 in Last(run).store.startAt
    ensures Timely(c, pace, run') && OnlyPhase(Last(run), i, AwaitDone(plan.target, plan.target), Last(run'))
  {
    var s := Last(run);
    var d: nat :| plan.target == s.phases[i].nextPoll + Seconds(d);
    run' := Perform1(c, pace, run, i, PollStart(5), Outcome(AwaitDone(s.now, s.now), s.store, s.history));
  }

  lemma VainDonePoll(c: Cluster, pace: Pace, run: seq<State>, i: nat, sleep: int) returns (run': seq<State>)
    requires Timely(c, pace, run) && 0 < i < |Last(run).phases| && Last(run).phases[i].AwaitDone? && ValidSleep(sleep)
    requires var s := Last(run);
      && s.phases[i].nextPoll == s.now && s.now - s.phases[i].since <= 1800.0
      && Alive(i - 1, s.phases[i - 1], s.now, s.store)
    ensures Timely(c, pace, run')
    ensures OnlyPhase(Last(run), i, AwaitDone(Last(run).phases[i].since, Last(run).now + sleep as real), Last(run'))
  {
    var s := Last(run);
    var q := AwaitDone(s.phases[i].since, s.now + sleep as real);
    run' := Perform1(c, pace, run, i, PollDone(sleep), Outcome(q, s.store, s.history));
  }

  /** Node `k` finishes its roll. */
  lemma FinishRoll(c: Cluster, pace: Pace, plans: seq<Plan>, run: seq<State>, k: nat, start: real)
      returns (run': seq<State>)
    requires Timely(c, pace, run) && Stage(c, pace, plans, Last(run), k, start, true)
    requires var p := Last(run).phases[k + 1]; p.AwaitDone? && p.nextPoll == plans[k + 1].target
    ensures Timely(c, pace, run') && Last(run').now == Last(run).now
    ensures Stage(c, pace, plans, Last(run'), k, start, false)
    ensures k > 0 ==> SameWait(Last(run), Last(run'))
    ensures k == 0 && Gates(c.kind) != [] ==> WaitingSince(Last(run').phases[0], Last(run).now)
  {
    var s := Last(run);
    var q := NextGate(Gates(c.kind), s.now);
    run' := Perform1(c, pace, run, k, WriteDone, Outcome(q, s.store.(doneAt := s.store.doneAt[k := s.now]), s.history));
    if q.Barrier? {
      assert c.size - 1 !in s.store.doneAt by {
        if c.size - 1 > k + 1 {
          assert Unstarted(pace, plans[c.size - 1], c.size - 1, s);
        }
      }
      run' := ScanInVain(c, pace, run', k);
    }
    hide TimelyRun;
    var s' := Last(run');
    assert s'.phases == s.phases[k := s'.phases[k]];
    forall i | 0 <= i < c.size
      ensures i <= k ==> IsDone(c, i, s')
      ensures i > k + 1 ==> Unstarted(pace, plans[i], i, s')
      ensures i > k ==> OnPlan(i, s'.phases[i], plans[i])
    {
      assert i < k ==> IsDone(c, i, s);
      assert i > k + 1 ==> Unstarted(pace, plans[i], i, s);
      assert i > k ==> OnPlan(i, s.phases[i], plans[i]);
    }
  }

  lemma HeardAtTarget(c: Cluster, pace: Pace, plan: Plan, s: State, i: nat)
    requires 0 < i < |s.phases| && s.phases[i].AwaitDone? && OnPlan(i, s.phases[i], plan)
    requires s.now == plan.target <= s.phases[i].nextPoll && s.now < s.phases[i].since + 1801.0
    ensures s.phases[i].nextPoll == s.now && s.now - s.phases[i].since <= 1800.0
  {
    var d: nat :| plan.target == s.phases[i].nextPoll + Seconds(d);
    var e: nat :| s.phases[i].nextPoll == s.phases[i].since + Seconds(e);
  }

  /** A node that is ready publishes `start` and kicks. */
  lemma StartAndKick(c: Cluster, pace: Pace, run: seq<State>, i: nat) returns (run': seq<State>)
    requires Timely(c, pace, run) && i < |Last(run).phases| && Last(run).phases[i] == Ready(Last(run).now)
    requires i !in Last(run).store.doneAt && Sane(pace)
    ensures Timely(c, pace, run')
    ensures var s := Last(run);
      Last(run') == State(s.now, s.phases[i := Rolling(s.now, Some(s.now), s.now)],
        s.store.(startAt := s.store.startAt[i := s.now], alive := s.store.alive[i := s.now]), s.history)
  {
    var s := Last(run);
    var store := s.store.(startAt := s.store.startAt[i := s.now]);
    run' := Perform1(c, pace, run, i, WriteStart, Outcome(Rolling(s.now, None, s.now), store, s.history));
    run' := Perform1(c, pace, run', i, KickDog,
                     Outcome(Rolling(s.now, Some(s.now), s.now), store.(alive := store.alive[i := s.now]), s.history));
    assert s.phases[i := Rolling(s.now, None, s.now)][i := Rolling(s.now, Some(s.now), s.now)] ==
      s.phases[i := Rolling(s.now, Some(s.now), s.now)];
  }

  /** Node `k + 1` sees at its poll that node `k` is done, and rolls. */
  lemma StartNext(c: Cluster, pace: Pace, plans: seq<Plan>, run: seq<State>, k: nat, start: real)
      returns (run': seq<State>)
    requires Timely(c, pace, run) && Stage(c, pace, plans, Last(run), k, start, false) && Sane(pace)
    requires Last(run).now == plans[k + 1].target
    ensures Timely(c, pace, run')
    ensures var s := Last(run);
      Last(run') == State(s.now, s.phases[k + 1 := Rolling(s.now, Some(s.now), s.now)],
        s.store.(startAt := s.store.startAt[k + 1 := s.now], alive := s.store.alive[k + 1 := s.now]), s.history)
  {
    var s, i := Last(run), k + 1;
    run' := Perform1(c, pace, run, i, PollDone(5), Outcome(Ready(s.now), s.store, s.history));
    run' := StartAndKick(c, pace, run', i);
    assert s.phases[i := Ready(s.now)][i := Rolling(s.now, Some(s.now), s.now)] ==
      s.phases[i := Rolling(s.now, Some(s.now), s.now)];
  }

  /** Node `k` rolls since now, all before it are done, and all behind it wait as planned. */
  ghost predicate RollBegins(c: Cluster, pace: Pace, plans: seq<Plan>, s: State, k: nat)
  {
    && |s.phases| == |plans| == c.size && k < c.size
    && (forall i :: 0 <= i < k ==> IsDone(c, i, s))
    && Alive(k, s.phases[k], s.now, s.store) && s.phases[k].began == s.now
    && (forall i :: k < i < c.size ==> Unstarted(pace, plans[i], i, s) && OnPlan(i, s.phases[i], plans[i]))
  }

  lemma RollIsStage(c: Cluster, pace: Pace, plans: seq<Plan>, s: State, k: nat)
    requires RollBegins(c, pace, plans, s, k) && k + 1 < c.size
    ensures Stage(c, pace, plans, s, k, s.now, true)
  {
  }

  lemma RollIsQuiet(c: Cluster, pace: Pace, plans: seq<Plan>, s: State, k: nat, t: real)
    requires RollBegins(c, pace, plans, s, k) && s.now <= t <= s.now + pace.rollTime
    requires forall i :: k < i < c.size ==> t <= plans[i].target <= plans[i].entry + 1805.0
    ensures Quiet(c, pace, plans, s, t)
  {
    hide Reaches, WholeGap;
    forall i | 0 <= i < c.size
      ensures NodeQuiet(c, pace, plans[i], i, s, t) && OnPlan(i, s.phases[i], plans[i])
      ensures i >= k ==> i !in s.store.doneAt
    {
      if i < k {
        assert IsDone(c, i, s);
      } else if i > k {
        assert Unstarted(pace, plans[i], i, s) && OnPlan(i, s.phases[i], plans[i]);
        assert i - 1 > k ==> Unstarted(pace, plans[i - 1], i - 1, s);
      }
    }
  }

  /** Node `k` rolls until `done`; its successor polls in vain at its target and then sleeps as told. */
  lemma RollOut(c: Cluster, pace: Pace, plans: seq<Plan>, run: seq<State>, k: nat, start: real, done: real, sleep: int)
      returns (run': seq<State>, plans': seq<Plan>)
    requires Timely(c, pace, run) && Stage(c, pace, plans, Last(run), k, start, true)
    requires |plans| == c.size && k + 1 < c.size
    requires Last(run).now <= plans[k + 1].target <= done <= start + pace.rollTime
    requires ValidSleep(sleep) && done <= plans[k + 1].target + sleep as real
    requires plans[k + 1].target < start + 1801.0 && plans[k + 1].target <= plans[k + 1].entry + 1805.0
    requires forall i :: k + 1 < i < c.size ==> done <= plans[i].target <= plans[i].entry + 1805.0
    ensures plans' == plans[k + 1 := Plan(plans[k + 1].entry, plans[k + 1].target + sleep as real)]
    ensures Timely(c, pace, run') && Last(run').now == done && Stage(c, pace, plans', Last(run'), k, start, false)
    ensures Last(run).phases != [] && Last(run').phases != []
    ensures k > 0 ==> SameWait(Last(run), Last(run'))
    ensures k == 0 && Gates(c.kind) != [] ==> WaitingSince(Last(run').phases[0], done)
  {
    StageSize(c, pace, plans, Last(run), k, start, true);
    hide TimelyRun, Stage, SameWait;
    run' := StageAdvances(c, pace, plans, run, k, start, true, plans[k + 1].target);
    run' := PollInVain(c, pace, plans, run', k, start, sleep);
    plans' := plans[k + 1 := Plan(plans[k + 1].entry, plans[k + 1].target + sleep as real)];
    StageSize(c, pace, plans', Last(run'), k, start, true);
    var before := Last(run');
    run' := FinishAt(c, pace, plans', run', k, start, done);
    SameWaitTransitive(Last(run), before, Last(run'));
  }

  lemma SameWaitTransitive(s: State, s': State, s'': State)
    requires s.phases != [] && s'.phases != [] && s''.phases != [] && SameWait(s, s')
    ensures SameWait(s', s'') ==> SameWait(s, s'')
  {
  }

  /** Node `k` goes on and finishes at `done`, while its successor sleeps. */
  lemma FinishAt(c: Cluster, pace: Pace, plans: seq<Plan>, run: seq<State>, k: nat, start: real, done: real)
      returns (run': seq<State>)
    requires Timely(c, pace, run) && Stage(c, pace, plans, Last(run), k, start, true)
    requires |Last(run).phases| == |plans| == c.size && k + 1 < c.size
    requires Last(run).phases[k + 1].AwaitDone? && Last(run).phases[k + 1].nextPoll == plans[k + 1].target
    requires Last(run).now <= done <= start + pace.rollTime && done <= plans[k + 1].target
    requires forall i :: k + 1 < i < c.size ==> done <= plans[i].target <= plans[i].entry + 1805.0
    ensures Timely(c, pace, run') && Last(run').now == done && Stage(c, pace, plans, Last(run'), k, start, false)
    ensures Last(run').phases != []
    ensures k > 0 ==> SameWait(Last(run), Last(run'))
    ensures k == 0 && Gates(c.kind) != [] ==> WaitingSince(Last(run').phases[0], done)
  {
    hide TimelyRun, Stage, SameWait;
    run' := StageAdvances(c, pace, plans, run, k, start, true, done);
    StageSize(c, pace, plans, Last(run'), k, start, true);
    var before := Last(run');
    run' := FinishRoll(c, pace, plans, run', k, start);
    StageSize(c, pace, plans, Last(run'), k, start, false);
    SameWaitTransitive(Last(run), before, Last(run'));
  }

  /** Node `k + 1` wakes up and rolls. */
  lemma RollOn(c: Cluster, pace: Pace, plans: seq<Plan>, run: seq<State>, k: nat, start: real)
      returns (run': seq<State>)
    requires Timely(c, pace, run) && Stage(c, pace, plans, Last(run), k, start, false) && Sane(pace)
    requires |plans| == c.size && k + 1 < c.size && Last(run).now <= plans[k + 1].target
    requires forall i :: k + 1 < i < c.size ==> plans[k + 1].target <= plans[i].target <= plans[i].entry + 1805.0
    ensures Timely(c, pace, run') && Last(run').now == plans[k + 1].target
    ensures RollBegins(c, pace, plans, Last(run'), k + 1)
    ensures Last(run).phases != [] && SameWait(Last(run), Last(run'))
  {
    StageSize(c, pace, plans, Last(run), k, start, false);
    run' := StageAdvances(c, pace, plans, run, k, start, false, plans[k + 1].target);
    hide TimelyRun;
    var s := Last(run');
    run' := StartNext(c, pace, plans, run', k, start);
    NextRoll(c, pace, plans, s, Last(run'), k, start);
  }

  lemma NextRoll(c: Cluster, pace: Pace, plans: seq<Plan>, s: State, s': State, k: nat, start: real)
    requires Stage(c, pace, plans, s, k, start, false) && s.now == plans[k + 1].target
    requires s' == State(s.now, s.phases[k + 1 := Rolling(s.now, Some(s.now), s.now)],
      s.store.(startAt := s.store.startAt[k + 1 := s.now], alive := s.store.alive[k + 1 := s.now]), s.history)
    ensures RollBegins(c, pace, plans, s', k + 1)
  {
    forall i | 0 <= i < c.size
      ensures i <= k ==> IsDone(c, i, s')
      ensures i > k + 1 ==> Unstarted(pace, plans[i], i, s') && OnPlan(i, s'.phases[i], plans[i])
    {
      assert i <= k ==> IsDone(c, i, s);
      assert i > k + 1 ==> Unstarted(pace, plans[i], i, s) && OnPlan(i, s.phases[i], plans[i]);
    }
  }

  /** The plans of those that roll already do not matter any more. */
  lemma PlansAhead(c: Cluster, pace: Pace, plans: seq<Plan>, plans': seq<Plan>, s: State, k: nat)
    requires RollBegins(c, pace, plans, s, k)
    requires |plans'| == c.size && forall i :: k < i < c.size ==> plans'[i] == plans[i]
    ensures RollBegins(c, pace, plans', s, k)
  {
  }

  /** A node that has waited for a start for 1801 seconds goes ahead. */
  lemma GoAhead(c: Cluster, pace: Pace, run: seq<State>, i: nat) returns (run': seq<State>)
    requires Timely(c, pace, run) && 0 < i < |Last(run).phases| && Last(run).phases[i].AwaitStart? && Sane(pace)
    requires var s := Last(run);
      && s.phases[i].nextPoll == s.now && s.now > s.phases[i].since + 1800.0
      && i - 1 !in s.store.startAt && i !in s.store.doneAt
    ensures Timely(c, pace, run')
    ensures var s := Last(run);
      && Last(run').phases == s.phases[i := Rolling(s.now, Some(s.now), s.now)] && Last(run').now == s.now
      && Last(run').store == s.store.(startAt := s.store.startAt[i := s.now], alive := s.store.alive[i := s.now])
  {
    var s := Last(run);
    run' := Perform1(c, pace, run, i, PollStart(5),
                     Outcome(Ready(s.now), s.store, s.history.(bypassed := s.history.bypassed + {i})));
    run' := StartAndKick(c, pace, run', i);
    assert s.phases[i := Ready(s.now)][i := Rolling(s.now, Some(s.now), s.now)] ==
      s.phases[i := Rolling(s.now, Some(s.now), s.now)];
  }

  lemma AtTarget(pace: Pace, plan: Plan, i: nat, s: State)
    requires i < |s.phases| && Unstarted(pace, plan, i, s) && OnPlan(i, s.phases[i], plan) &&
      s.now == plan.target > plan.entry
    ensures s.phases[i] == AwaitStart(plan.entry, s.now)
  {
    var d: nat :| plan.target == s.phases[i].nextPoll + Seconds(d);
  }

  lemma StageSize(c: Cluster, pace: Pace, plans: seq<Plan>, s: State, k: nat, start: real, rolling: bool)
    requires Stage(c, pace, plans, s, k, start, rolling)
    ensures |s.phases| == |plans| == c.size && k + 1 < c.size
    ensures !rolling ==> s.phases[k + 1].AwaitDone? && s.phases[k + 1].nextPoll == plans[k + 1].target
  {
  }

  // ----- The beginning -----

  function Beginning(c: Cluster): State
  {
    State(0.0, seq(c.size, i => Idle), Store(map[], map[], map[]), History({}, {}, {}))
  }

  /** Everybody but node 0 may enter before `t`. */
  lemma BeginningIsQuiet(c: Cluster, pace: Pace, plans: seq<Plan>, t: real)
    requires |plans| == c.size > 0 && 0.0 <= t <= plans[0].entry
    requires forall i :: 0 <= i < c.size ==> 0.0 <= plans[i].entry <= pace.window
    requires forall i :: 0 < i < c.size ==>
      Reaches(plans[i].entry, plans[i].target) && t <= plans[i].target <= plans[i].entry + 1805.0
    ensures Quiet(c, pace, plans, Beginning(c), t)
    ensures Init(c, Beginning(c)) && KeepsPace(pace, Beginning(c))
  {
    var s := Beginning(c);
    forall i | 0 <= i < c.size
      ensures NodeQuiet(c, pace, plans[i], i, s, t) && OnPlan(i, s.phases[i], plans[i])
      ensures OnTime(pace, i, s.phases[i], s.now, s.store)
    {
      assert 0.0 <= plans[i].entry <= pace.window;
    }
  }

  /** Up to the moment at which node 0 enters and starts. */
  lemma Opening(c: Cluster, pace: Pace, plans: seq<Plan>, t: real) returns (run: seq<State>)
    requires |plans| == c.size >= 2 && 0.0 <= t <= plans[0].entry && Sane(pace)
    requires forall i :: 0 <= i < c.size ==> 0.0 <= plans[i].entry <= pace.window
    requires forall i :: 0 < i < c.size ==>
      Reaches(plans[i].entry, plans[i].target) && t <= plans[i].target <= plans[i].entry + 1805.0
    ensures Timely(c, pace, run)
    ensures var s := Last(run);
      && |s.phases| == c.size && s.now == t && s.phases[0].Idle? && s.store.startAt == map[] && s.store.doneAt == map[]
      && forall i :: 0 < i < c.size ==> Unstarted(pace, plans[i], i, s) && OnPlan(i, s.phases[i], plans[i])
  {
    BeginningIsQuiet(c, pace, plans, t);
    run := Begin(c, pace, Beginning(c));
    var s := Last(run);
    run := Advance(c, pace, plans, run, t);
    hide TimelyRun, Reaches;
    forall i | 0 <= i < c.size
      ensures i > 0 ==> Unstarted(pace, plans[i], i, Last(run)) && OnPlan(i, Last(run).phases[i], plans[i])
      ensures i == 0 ==> Last(run).phases[0].Idle?
    {
      assert NodeQuiet(c, pace, plans[i], i, Last(run), t) && OnPlan(i, Last(run).phases[i], plans[i]);
      assert Kept(s.phases[i], Last(run).phases[i], i - 1 in s.store.startAt);
    }
  }

  /** Node 0 enters and starts. */
  lemma StartFirst(c: Cluster, pace: Pace, run: seq<State>) returns (run': seq<State>)
    requires Timely(c, pace, run) && |Last(run).phases| > 0 && Last(run).phases[0].Idle? && Sane(pace)
    requires 0 !in Last(run).store.doneAt
    ensures Timely(c, pace, run')
    ensures var s := Last(run);
      Last(run') == State(s.now, s.phases[0 := Rolling(s.now, Some(s.now), s.now)],
        s.store.(startAt := s.store.startAt[0 := s.now], alive := s.store.alive[0 := s.now]), s.history)
  {
    var s := Last(run);
    run' := Perform1(c, pace, run, 0, Enter, Outcome(Ready(s.now), s.store, s.history));
    run' := StartAndKick(c, pace, run', 0);
    assert s.phases[0 := Ready(s.now)][0 := Rolling(s.now, Some(s.now), s.now)] ==
      s.phases[0 := Rolling(s.now, Some(s.now), s.now)];
  }

  lemma FirstStage(c: Cluster, pace: Pace, plans: seq<Plan>, s: State, s': State)
    requires |s.phases| == |plans| == c.size >= 2 && s.store.startAt == s.store.doneAt == map[]
    requires forall i :: 0 < i < c.size ==> Unstarted(pace, plans[i], i, s) && OnPlan(i, s.phases[i], plans[i])
    requires s' == State(s.now, s.phases[0 := Rolling(s.now, Some(s.now), s.now)],
        s.store.(startAt := s.store.startAt[0 := s.now], alive := s.store.alive[0 := s.now]), s.history)
    ensures Stage(c, pace, plans, s', 0, s.now, true)
  {
    forall i | 0 < i < c.size
      ensures Unstarted(pace, plans[i], i, s') && OnPlan(i, s'.phases[i], plans[i])
    {
      assert Unstarted(pace, plans[i], i, s) && OnPlan(i, s.phases[i], plans[i]);
    }
  }
}
