/**
 * No crash is final: from every state that a run can reach, whoever crashed, gave up or went ahead, the run can go on
 * until every node has finished. And what a crash costs: a monitor that repeats its roll rolls beside its successor.
 */
module Recovery {
  import opened Wrappers
  import opened WatchDog
  import opened RollingUpgrade

  function Last(run: seq<State>): State
    requires run != []
  {
    run[|run| - 1]
  }

  /** The run goes on to a later state `s`. */
  ghost predicate GoesOnTo(c: Cluster, run: seq<State>, longer: seq<State>, s: State)
    requires run != []
  {
    Run(c, longer) && run <= longer && Last(longer) == s
  }

  lemma TakeStep(c: Cluster, run: seq<State>, step: Step, s: State) returns (longer: seq<State>)
    requires Run(c, run) && NextStep(c, Last(run), s, step)
    ensures GoesOnTo(c, run, longer, s)
  {
    longer := run + [s];
    forall k | 0 < k < |longer|
      ensures Next(c, longer[k - 1], longer[k])
    {
      if k < |run| {
        assert Next(c, run[k - 1], run[k]);
      } else {
        assert NextStep(c, longer[k - 1], longer[k], step);
      }
    }
  }

  /** What is left after node `i` has done something. */
  function After(c: Cluster, s: State, i: nat, op: Op): State
    requires i < |s.phases| && Perform(c, i, s.phases[i], s.now, s.store, s.history, op).Some?
  {
    var o := Perform(c, i, s.phases[i], s.now, s.store, s.history, op).value;
    State(s.now, s.phases[i := o.phase], o.store, o.history)
  }

  lemma Act1(c: Cluster, run: seq<State>, i: nat, op: Op) returns (longer: seq<State>)
    requires Run(c, run) && i < |Last(run).phases|
    requires var s := Last(run); Perform(c, i, s.phases[i], s.now, s.store, s.history, op).Some?
    ensures GoesOnTo(c, run, longer, After(c, Last(run), i, op))
  {
    hide Perform;
    longer := TakeStep(c, run, Do(i, op), After(c, Last(run), i, op));
  }

  lemma Wait(c: Cluster, run: seq<State>, d: real) returns (longer: seq<State>)
    requires Run(c, run) && d >= 0.0
    ensures GoesOnTo(c, run, longer, Last(run).(now := Last(run).now + d))
  {
    longer := TakeStep(c, run, Tick(d), Last(run).(now := Last(run).now + d));
  }

  /** All but node `i` and the clock are as they were; nothing published is withdrawn. */
  ghost predicate OnlyNode(i: nat, s: State, s': State)
  {
    && |s'.phases| == |s.phases| && (forall j :: 0 <= j < |s.phases| && j != i ==> s'.phases[j] == s.phases[j])
    && (forall j :: j in s.store.doneAt ==> j in s'.store.doneAt)
  }

  /** A node that has not finished can crash at any moment and be started again; the store keeps its keys. */
  lemma CrashAndRetry(c: Cluster, run: seq<State>, i: nat) returns (longer: seq<State>)
    requires Run(c, run) && i < |Last(run).phases| && Last(run).phases[i] != Finished
    ensures GoesOnTo(c, run, longer, Last(run).(phases := Last(run).phases[i := Idle]))
  {
    longer := Act1(c, run, i, Crash);
    var s := Last(longer);
    assert s.phases[i] == Failed;
    longer := Act1(c, longer, i, Retry);
    assert Last(longer).phases == Last(run).phases[i := Idle];
  }

  /** An idle node gets ready, in the worst case because its waits run out. */
  lemma GetReady(c: Cluster, run: seq<State>, i: nat) returns (longer: seq<State>)
    requires Run(c, run) && i < |Last(run).phases| && Last(run).phases[i] == Idle
    ensures Run(c, longer) && run <= longer && OnlyNode(i, Last(run), Last(longer)) && Last(longer).phases[i].Ready?
  {
    longer := Act1(c, run, i, Enter);
    if i > 0 {
      var since := Last(longer).now;
      longer := Wait(c, longer, 1801.0);
      longer := Act1(c, longer, i, PollStart(SHORTEST_SLEEP));
      if Last(longer).phases[i].AwaitDone? {
        longer := Wait(c, longer, 1801.0);
        longer := Act1(c, longer, i, PollDone(SHORTEST_SLEEP));
      }
    }
  }

  /** A node that has not finished can be brought through a roll. */
  lemma RollAgain(c: Cluster, run: seq<State>, i: nat) returns (longer: seq<State>)
    requires Run(c, run) && i < |Last(run).phases| && Last(run).phases[i] != Finished
    ensures Run(c, longer) && run <= longer && OnlyNode(i, Last(run), Last(longer))
    ensures i in Last(longer).store.doneAt
    ensures var s := Last(longer); s.phases[i] == NextGate(Gates(c.kind), s.now)
  {
    longer := CrashAndRetry(c, run, i);
    longer := GetReady(c, longer, i);
    longer := Act1(c, longer, i, WriteStart);
    longer := Act1(c, longer, i, WriteDone);
  }

  /** A fresh barrier is passed at once when all members are done. */
  lemma {:induction false} Scan(c: Cluster, run: seq<State>, i: nat) returns (longer: seq<State>)
    requires Run(c, run) && i < |Last(run).phases| && AllDone(c, Last(run).store)
    requires var p := Last(run).phases[i];
      p.Barrier? && p.since == Last(run).now && p.nextRead <= p.since && p.index <= c.size
    ensures var s := Last(run); GoesOnTo(c, run, longer,
      s.(phases := s.phases[i := Passed(s.phases[i].todo, s.now + BARRIER_SLEEP)]))
    decreases c.size - Last(run).phases[i].index
  {
    var p := Last(run).phases[i];
    longer := Act1(c, run, i, ReadBarrier);
    if p.index < c.size {
      assert Last(longer).phases == Last(run).phases[i := p.(index := p.index + 1)];
      longer := Scan(c, longer, i);
      assert Last(longer).phases == Last(run).phases[i := Passed(p.todo, Last(run).now + BARRIER_SLEEP)];
    }
  }

  lemma {:induction false} PassGates(c: Cluster, run: seq<State>, i: nat, todo: seq<Action>)
      returns (longer: seq<State>)
    requires Run(c, run) && i < |Last(run).phases| && AllDone(c, Last(run).store)
    requires Last(run).phases[i] == NextGate(todo, Last(run).now)
    ensures Run(c, longer) && run <= longer && OnlyNode(i, Last(run), Last(longer))
    ensures Last(longer).phases[i] == Finished
    decreases todo
  {
    longer := run;
    if todo != [] {
      longer := Scan(c, run, i);
      longer := Wait(c, longer, BARRIER_SLEEP);
      longer := Act1(c, longer, i, Act);
      longer := PassGates(c, longer, i, todo[1..]);
    }
  }

  lemma {:induction false} MakeDone(c: Cluster, run: seq<State>, n: nat) returns (longer: seq<State>)
    requires Run(c, run) && n <= c.size
    ensures Run(c, longer) && run <= longer && forall j :: 0 <= j < n ==> j in Last(longer).store.doneAt
  {
    hide Next;
    longer := run;
    if n > 0 {
      longer := MakeDone(c, run, n - 1);
      RunKeepsInv(c, longer, |longer| - 1);
      var s := Last(longer);
      assert NodeOk(c, n - 1, s.phases[n - 1], s.store, s.history);
      if s.phases[n - 1] != Finished {
        longer := RollAgain(c, longer, n - 1);
      }
    }
  }

  lemma {:induction false} FinishAll(c: Cluster, run: seq<State>, n: nat) returns (longer: seq<State>)
    requires Run(c, run) && n <= |Last(run).phases| && AllDone(c, Last(run).store)
    ensures Run(c, longer) && run <= longer && |Last(longer).phases| == |Last(run).phases|
    ensures AllDone(c, Last(longer).store) && forall j :: 0 <= j < n ==> Last(longer).phases[j] == Finished
  {
    hide Next, NextGate, Gates;
    longer := run;
    if n > 0 {
      longer := FinishAll(c, run, n - 1);
      if Last(longer).phases[n - 1] != Finished {
        longer := RollAgain(c, longer, n - 1);
        longer := PassGates(c, longer, n - 1, Gates(c.kind));
      }
    }
  }

  /** Every run, whatever has gone wrong in it, can go on to a state where every node has finished. */
  lemma EveryNodeCanFinish(c: Cluster, run: seq<State>) returns (longer: seq<State>)
    requires Run(c, run)
    ensures Run(c, longer) && run <= longer && |Last(longer).phases| == c.size
    ensures forall i :: 0 <= i < c.size ==> Last(longer).phases[i] == Finished
  {
    hide Next;
    longer := MakeDone(c, run, c.size);
    RunKeepsInv(c, longer, |longer| - 1);
    longer := FinishAll(c, longer, c.size);
  }

  // ----- The price of a retry -----

  ghost function Below(m: nat): (below: set<nat>)
    ensures |below| == m && forall j: nat :: j in below <==> j < m
  {
    if m == 0 then {} else Below(m - 1) + {m - 1}
  }

  /** The first `m` nodes repeat their roll, those up to `k` wait at the barrier and the others have done nothing. */
  ghost predicate Round(c: Cluster, s: State, m: nat, k: nat)
  {
    && m <= k <= |s.phases| == c.size
    && (forall j :: 0 <= j < m ==> s.phases[j].Rolling?)
    && (forall j :: m <= j < k ==> s.phases[j].Barrier?)
    && (forall j :: k <= j < c.size ==> s.phases[j] == Idle && j !in s.store.doneAt)
    && (forall j :: 0 <= j < k ==> j in s.store.doneAt && j in s.store.startAt)
    && s.history == History({}, Below(m), {})
  }

  lemma StartRoll(c: Cluster, run: seq<State>, i: nat) returns (longer: seq<State>)
    requires Run(c, run) && i < |Last(run).phases| && Last(run).phases[i] == Idle
    requires i > 0 ==> i - 1 in Last(run).store.startAt && i - 1 in Last(run).store.doneAt
    ensures Run(c, longer)
    ensures var s, s' := Last(run), Last(longer);
      && |s'.phases| == |s.phases| && s'.phases[i].Rolling? && s' == State(s.now, s.phases[i := s'.phases[i]],
        s.store.(startAt := s.store.startAt[i := s.now]),
        s.history.(rerun := s.history.rerun + if i in s.store.doneAt then {i} else {}))
  {
    longer := Act1(c, run, i, Enter);
    if i > 0 {
      longer := Act1(c, longer, i, PollStart(SHORTEST_SLEEP));
      longer := Act1(c, longer, i, PollDone(SHORTEST_SLEEP));
    }
    assert Last(longer).phases == Last(run).phases[i := Ready(Last(run).now)];
    longer := Act1(c, longer, i, WriteStart);
  }

  /** All nodes before `k` roll one after the other and go to the barrier. */
  lemma {:induction false} FirstRolls(c: Cluster, run: seq<State>, k: nat) returns (longer: seq<State>)
    requires Run(c, run) && Round(c, Last(run), 0, 0) && k <= c.size && Gates(c.kind) != []
    ensures Run(c, longer) && Round(c, Last(longer), 0, k)
  {
    hide Next, Gates, Run;
    longer := run;
    if k > 0 {
      longer := FirstRolls(c, run, k - 1);
      longer := StartRoll(c, longer, k - 1);
      longer := Act1(c, longer, k - 1, WriteDone);
    }
  }

  lemma OneMoreRolls(c: Cluster, s: State, s': State, m: nat, k: nat)
    requires Round(c, s, m, k) && m < k && |s'.phases| == |s.phases| && s'.phases[m].Rolling?
    requires s'.phases == s.phases[m := s'.phases[m]]
    requires s'.store.doneAt == s.store.doneAt && s.store.startAt.Keys <= s'.store.startAt.Keys
    requires s'.history == s.history.(rerun := s.history.rerun + {m})
    ensures Round(c, s', m + 1, k)
  {
  }

  lemma RollOnceMore(c: Cluster, run: seq<State>, m: nat, k: nat) returns (longer: seq<State>)
    requires Run(c, run) && Round(c, Last(run), m, k) && m < k
    ensures Run(c, longer) && Round(c, Last(longer), m + 1, k)
  {
    hide Next, Perform, NextStep, Below;
    var s := Last(run);
    longer := CrashAndRetry(c, run, m);
    longer := StartRoll(c, longer, m);
    var p := Last(longer).phases[m];
    assert s.phases[m := Idle][m := p] == s.phases[m := p];
    hide Run;
    OneMoreRolls(c, s, Last(longer), m, k);
  }

  /** They crash at the barrier one after the other and are started again. */
  lemma {:induction false} SecondRolls(c: Cluster, run: seq<State>, m: nat, k: nat) returns (longer: seq<State>)
    requires Run(c, run) && Round(c, Last(run), 0, k) && m <= k
    ensures Run(c, longer) && Round(c, Last(longer), m, k)
  {
    longer := run;
    if m > 0 {
      longer := SecondRolls(c, run, m - 1, k);
      longer := RollOnceMore(c, longer, m - 1, k);
    }
  }

  /**
   * The bound on rolling nodes is exact: monitors that wait for the others can all be rolling at the same time, though
   * each has seen its predecessor finish. All but the last have only to crash at the barrier and be started again.
   */
  lemma AllMonitorsRoll(c: Cluster) returns (run: seq<State>)
    requires c.size > 0 && Gates(c.kind) != []
    ensures Run(c, run)
    ensures var s := Last(run);
      && RollingNodes(s) == Below(c.size) && s.history.bypassed == {} && s.history.rerun == Below(c.size - 1)
      && |RollingNodes(s)| == c.size == 1 + |s.history.bypassed| + |s.history.rerun|
  {
    var start := State(0.0, seq(c.size, _ => Idle), Store(map[], map[], map[]), History({}, {}, {}));
    run := [start];
    run := FirstRolls(c, run, c.size - 1);
    run := SecondRolls(c, run, c.size - 1, c.size - 1);
    run := LastRoll(c, run);
  }

  lemma LastRoll(c: Cluster, run: seq<State>) returns (longer: seq<State>)
    requires Run(c, run) && c.size > 0 && Round(c, Last(run), c.size - 1, c.size - 1)
    ensures Run(c, longer)
    ensures var s := Last(longer);
      RollingNodes(s) == Below(c.size) && s.history.bypassed == {} && s.history.rerun == Below(c.size - 1)
  {
    hide Run;
    longer := StartRoll(c, run, c.size - 1);
    hide Below;
    assert forall i :: i in RollingNodes(Last(longer)) <==> 0 <= i < c.size;
  }
}
