/**
 * Punctuality never stops the clock: from every state that a timely run can reach it can go on to any later time,
 * because whatever is due can be done when it is due. What the timing results say of all timely runs is thus said
 * of runs of any length.
 */
module TimeGoesOn {
  import opened Wrappers
  import opened WatchDog
  import opened RollingUpgrade
  import opened TimelyUpgrade
  import opened LateStarts

  ghost predicate Orderly(c: Cluster, s: State)
  {
    && |s.phases| == c.size && s.now >= 0.0
    && forall i :: 0 <= i < c.size && (s.phases[i].AwaitStart? || s.phases[i].AwaitDone?) ==> i > 0
  }

  lemma {:induction false} RunIsOrderly(c: Cluster, run: seq<State>, k: nat)
    requires Run(c, run) && k < |run|
    ensures Orderly(c, run[k])
  {
    if k > 0 {
      RunIsOrderly(c, run, k - 1);
      assert Next(c, run[k - 1], run[k]);
    }
  }

  // ----- What is due, and how much is left to do -----

  /** The last kick has been made: the roll ends before the next one is due. */
  predicate RollsOut(pace: Pace, p: Phase)
    requires p.Rolling?
  {
    p.began + pace.rollTime <= p.lastCall + KICK_GAP
  }

  /** When the node must act, at the latest at `t`. */
  function DueAt(pace: Pace, p: Phase, t: real): real
  {
    var at := match p
      case Idle => pace.window
      case AwaitStart(_, nextPoll) => nextPoll
      case AwaitDone(_, nextPoll) => nextPoll
      case Ready(at) => at
      case Rolling(began, _, lastCall) => if RollsOut(pace, p) then began + pace.rollTime else lastCall + KICK_GAP
      case Barrier(_, _, _, nextRead) => nextRead
      case _ => t;
    if at < t then at else t
  }

  /** The number of acts before `t`, at most: less than `n` in one phase, and each phase comes once. */
  function Load(pace: Pace, p: Phase, t: real, n: nat): nat
  {
    var slots := Slots(t - DueAt(pace, p, t));
    match p
    case Idle => 6 * n + slots
    case AwaitStart(_, _) => 5 * n + slots
    case AwaitDone(_, _) => 4 * n + slots
    case Ready(_) => 3 * n + slots
    case Rolling(_, _, _) => (if RollsOut(pace, p) then n else 2 * n) + slots
    case _ => slots
  }

  function TotalLoad(pace: Pace, ps: seq<Phase>, t: real, n: nat): nat
  {
    if ps == [] then 0 else TotalLoad(pace, ps[..|ps| - 1], t, n) + Load(pace, ps[|ps| - 1], t, n)
  }

  lemma {:induction false} TotalLoadShrinks(pace: Pace, ps: seq<Phase>, t: real, n: nat, i: nat, p: Phase)
    requires i < |ps| && Load(pace, p, t, n) < Load(pace, ps[i], t, n)
    ensures TotalLoad(pace, ps[i := p], t, n) < TotalLoad(pace, ps, t, n)
  {
    hide Load;
    var last := |ps| - 1;
    if i == last {
      assert ps[i := p][..last] == ps[..last];
    } else {
      assert ps[i := p][..last] == ps[..last][i := p];
      TotalLoadShrinks(pace, ps[..last], t, n, i, p);
    }
  }

  /** The node that must act first. */
  lemma {:induction false} FirstDue(pace: Pace, ps: seq<Phase>, t: real) returns (i: nat)
    requires ps != []
    ensures i < |ps| && forall j :: 0 <= j < |ps| ==> DueAt(pace, ps[i], t) <= DueAt(pace, ps[j], t)
  {
    hide DueAt;
    var last := |ps| - 1;
    i := last;
    if last > 0 {
      var k := FirstDue(pace, ps[..last], t);
      assert forall j :: 0 <= j < last ==> DueAt(pace, ps[..last][j], t) == DueAt(pace, ps[j], t);
      if DueAt(pace, ps[k], t) < DueAt(pace, ps[last], t) {
        i := k;
      }
    }
  }

  lemma SlotsAreFew(t: real, at: real, n: nat)
    requires at >= 0.0 && n == Slots(t) + 1
    ensures Slots(t - at) < n
  {
    SlotsGrow(t, t - at);
  }

  // ----- One act -----

  /** A scan for which it is too late: whatever it finds, it fails. */
  predicate Doomed(p: Phase)
  {
    p == Failed || (p.Barrier? && p.nextRead > p.since + BARRIER_TIMEOUT)
  }

  /** What the act of node `i` must achieve. */
  ghost predicate GoodAct(pace: Pace, s: State, i: nat, s': State, t: real, n: nat)
    requires i < |s.phases|
  {
    && |s'.phases| == |s.phases| && s'.now == s.now && s'.phases == s.phases[i := s'.phases[i]]
    && Load(pace, s'.phases[i], t, n) < Load(pace, s.phases[i], t, n)
    && (Doomed(s.phases[i]) ==> s'.phases[i] == Failed)
  }

  /** A whole scan of the barrier. */
  lemma Scan(c: Cluster, pace: Pace, run: seq<State>, i: nat) returns (run': seq<State>)
    requires Timely(c, pace, run) && i < |Last(run).phases|
    requires Last(run).phases[i].Barrier? && Last(run).phases[i].nextRead == Last(run).now
    ensures Timely(c, pace, run')
    ensures |Last(run').phases| == |Last(run).phases|
    ensures Last(run') == Last(run).(phases := Last(run).phases[i := Last(run').phases[i]])
    ensures var q := Last(run').phases[i];
      q == Failed || q.Passed? || (q.Barrier? && q.nextRead == Last(run).now + 30.0)
    ensures Doomed(Last(run).phases[i]) ==> Last(run').phases[i] == Failed
    decreases c.size - Last(run).phases[i].index
  {
    var s := Last(run);
    var p := s.phases[i];
    var o := BarrierOutcome(c, p, s.now, s.store, s.history);
    run' := Perform1(c, pace, run, i, ReadBarrier, o);
    hide TimelyRun, Perform;
    if p.index < c.size && p.index in s.store.doneAt {
      run' := Scan(c, pace, run', i);
      assert s.phases[i := o.phase][i := Last(run').phases[i]] == s.phases[i := Last(run').phases[i]];
    }
  }

  /** A poll that is due, and its outcome with the longest sleep. */
  lemma Poll(c: Cluster, pace: Pace, run: seq<State>, i: nat) returns (run': seq<State>)
    requires Timely(c, pace, run) && 0 < i < |Last(run).phases|
    requires var p := Last(run).phases[i]; (p.AwaitStart? || p.AwaitDone?) && p.nextPoll == Last(run).now
    ensures Timely(c, pace, run') && Last(run').now == Last(run).now && |Last(run').phases| == |Last(run).phases|
    ensures Last(run').phases == Last(run).phases[i := Last(run').phases[i]]
    ensures var p, q, now := Last(run).phases[i], Last(run').phases[i], Last(run).now;
      || q == Ready(now) || (p.AwaitStart? && q == AwaitDone(now, now))
      || (p.AwaitStart? && q == AwaitStart(p.since, now + 29.0))
      || (p.AwaitDone? && q == AwaitDone(p.since, now + 29.0))
  {
    var s := Last(run);
    var p := s.phases[i];
    if p.AwaitStart? {
      run' := Perform1(c, pace, run, i, PollStart(29), PollStartOutcome(i, p, s.now, s.store, s.history, 29));
    } else {
      run' := Perform1(c, pace, run, i, PollDone(29), PollDoneOutcome(i, p, s.now, s.store, s.history, 29));
    }
  }

  /** An act of a node that neither waits nor scans. */
  lemma OwnAct(c: Cluster, pace: Pace, run: seq<State>, i: nat, t: real) returns (run': seq<State>)
    requires Timely(c, pace, run) && i < |Last(run).phases| && Sane(pace)
    requires var p := Last(run).phases[i]; p.Idle? || p.Ready? || p.Rolling?
    requires DueAt(pace, Last(run).phases[i], t) == Last(run).now < t
    ensures Timely(c, pace, run') && Last(run').now == Last(run).now && |Last(run').phases| == |Last(run).phases|
    ensures Last(run').phases == Last(run).phases[i := Last(run').phases[i]]
    ensures var p, q, now := Last(run).phases[i], Last(run').phases[i], Last(run).now;
      if p.Idle? then q == Ready(now) || q == AwaitStart(now, now)
      else if p.Ready? then q == Rolling(now, None, now)
      else if RollsOut(pace, p) then q == Finished || (q.Barrier? && q.nextRead == now)
      else q.Rolling? && q.began == p.began && q.lastCall == now
  {
    var s := Last(run);
    var p := s.phases[i];
    assert KeepsPace(pace, s);
    assert OnTime(pace, i, p, s.now, s.store);
    var op := if p.Idle? then Enter else if p.Ready? then WriteStart
              else if RollsOut(pace, p) then WriteDone else KickDog;
    var o := Perform(c, i, p, s.now, s.store, s.history, op);
    run' := Perform1(c, pace, run, i, op, o.value);
  }

  lemma OneAct(c: Cluster, pace: Pace, run: seq<State>, i: nat, t: real, n: nat) returns (run': seq<State>)
    requires Timely(c, pace, run) && Orderly(c, Last(run)) && i < c.size && Sane(pace) && n == Slots(t) + 1
    requires DueAt(pace, Last(run).phases[i], t) == Last(run).now < t
    ensures Timely(c, pace, run') && GoodAct(pace, Last(run), i, Last(run'), t, n)
  {
    var s := Last(run);
    var p := s.phases[i];
    hide TimelyRun, Orderly;
    if p.Barrier? {
      run' := Scan(c, pace, run, i);
    } else if p.AwaitStart? || p.AwaitDone? {
      assert i > 0 by {
        assert Orderly(c, s);
      }
      run' := Poll(c, pace, run, i);
    } else {
      run' := OwnAct(c, pace, run, i, t);
    }
    var q := Last(run').phases[i];
    SlotsAreFew(t, DueAt(pace, q, t), n);
    if DueAt(pace, q, t) >= s.now + 5.0 {
      SlotsShrink(t - s.now, t - DueAt(pace, q, t));
    }
    assert Slots(0.0) == 0;
  }

  lemma PassToDue(c: Cluster, pace: Pace, run: seq<State>, i: nat, t: real) returns (run': seq<State>)
    requires Timely(c, pace, run) && Orderly(c, Last(run)) && i < c.size && Last(run).now <= t
    requires forall j :: 0 <= j < c.size ==> DueAt(pace, Last(run).phases[i], t) <= DueAt(pace, Last(run).phases[j], t)
    ensures Timely(c, pace, run') && Last(run') == Last(run).(now := DueAt(pace, Last(run).phases[i], t))
  {
    var s := Last(run);
    var u := DueAt(pace, s.phases[i], t);
    assert KeepsPace(pace, s);
    forall j | 0 <= j < c.size
      ensures OnTime(pace, j, s.phases[j], u, s.store)
    {
      assert OnTime(pace, j, s.phases[j], s.now, s.store);
      assert u <= DueAt(pace, s.phases[j], t);
    }
    assert OnTime(pace, i, s.phases[i], s.now, s.store);
    run' := PassTime(c, pace, run, u);
  }

  /** No timely run gets stuck, and a scan that is too late fails in every continuation that is made here. */
  lemma {:induction false} GoesOn(c: Cluster, pace: Pace, run: seq<State>, t: real) returns (run': seq<State>)
    requires Timely(c, pace, run) && Sane(pace) && Last(run).now <= t
    ensures Timely(c, pace, run') && Last(run').now == t && |Last(run').phases| == |Last(run).phases| == c.size
    ensures forall i :: 0 <= i < c.size && Doomed(Last(run).phases[i]) ==>
      Last(run').phases[i] in {Last(run).phases[i], Failed}
    decreases TotalLoad(pace, Last(run).phases, t, Slots(t) + 1)
  {
    var s := Last(run);
    RunIsOrderly(c, run, |run| - 1);
    if c.size == 0 {
      run' := PassTime(c, pace, run, t);
    } else {
      var i := FirstDue(pace, s.phases, t);
      run' := PassToDue(c, pace, run, i, t);
      hide TimelyRun, DueAt, Load, Doomed, Orderly;
      if Last(run').now < t {
        var before := Last(run');
        RunIsOrderly(c, run', |run'| - 1);
        run' := OneAct(c, pace, run', i, t, Slots(t) + 1);
        TotalLoadShrinks(pace, s.phases, t, Slots(t) + 1, i, Last(run').phases[i]);
        run' := GoesOn(c, pace, run', t);
      }
    }
  }
}
