/**
 * When does the rolling upgrade really roll one node at a time? The waits are bounded, so the answer depends
 * on how long the rolls take. A run keeps pace when nobody is late: hooks begin within a window, a poll
 * happens when its sleep is over, a rolling node kicks every two minutes and ends in time, and nothing crashes or
 * is retried after it has finished.
 */
module TimelyUpgrade {
  import opened Wrappers
  import opened WatchDog
  import opened RollingUpgrade

  /** All nodes begin within `window` seconds, and each roll takes at most `rollTime`. */
  datatype Pace = Pace(window: real, rollTime: real)

  const KICK_GAP := 120.0
  const LATEST_POLL := LONGEST_SLEEP as real

  predicate OnTime(pace: Pace, i: nat, p: Phase, now: real, store: Store)
  {
    match p
    case Idle => now <= pace.window && i !in store.doneAt
    case AwaitStart(_, nextPoll) => now <= nextPoll
    case AwaitDone(_, nextPoll) => now <= nextPoll
    case Ready(at) => now <= at
    case Rolling(began, _, lastCall) => now <= began + pace.rollTime && now <= lastCall + KICK_GAP
    case Barrier(_, _, _, nextRead) => now <= nextRead
    case _ => true
  }

  ghost predicate KeepsPace(pace: Pace, s: State)
  {
    forall i :: 0 <= i < |s.phases| ==> OnTime(pace, i, s.phases[i], s.now, s.store)
  }

  /** A step other than a crash; a monitor can still fail by the time limit of its barrier. */
  ghost predicate CrashFree(c: Cluster, s: State, s': State)
  {
    exists step :: NextStep(c, s, s', step) && (step.Do? ==> step.op != Crash)
  }

  ghost predicate TimelyRun(c: Cluster, pace: Pace, run: seq<State>)
  {
    && Run(c, run)
    && (forall k :: 0 <= k < |run| ==> KeepsPace(pace, run[k]))
    && (forall k :: 0 < k < |run| ==> CrashFree(c, run[k - 1], run[k]))
  }

  // ----- When a node can poll, and when it can start at the latest -----

  /** The whole seconds in a time, counted one by one. */
  function WholePart(x: real): real
    decreases if x < 0.0 then 0 else x.Floor
  {
    if x < 1.0 then 0.0 else WholePart(x - 1.0) + 1.0
  }

  predicate Whole(x: real)
  {
    x == WholePart(x)
  }

  /** Polls fall on whole seconds after a node's entry: at once, or after at least one sleep. */
  predicate OnGrid(pace: Pace, x: real)
  {
    0.0 <= x && (x <= pace.window || (x >= SHORTEST_SLEEP as real && x - WholePart(x) <= pace.window))
  }

  /** The latest moment up to `x` at which some node can poll. */
  function LatestPoll(pace: Pace, x: real): real
  {
    if x < SHORTEST_SLEEP as real then pace.window
    else if x - WholePart(x) <= pace.window then x
    else WholePart(x) + pace.window
  }

  /**
   * The latest moment at which node `i` writes its `start` key: its predecessor starts and rolls as late and as long
   * as it can, the node polls for the last time in vain just before that, and sleeps for 29 seconds.
   */
  function LatestStart(pace: Pace, i: nat): real
  {
    if i == 0 then pace.window else LatestPoll(pace, LatestStart(pace, i - 1) + pace.rollTime) + LATEST_POLL
  }

  predicate Sane(pace: Pace)
  {
    0.0 <= pace.window && 0.0 <= pace.rollTime
  }

  /** No wait for a start and no wait for a roll can come to its 1801st second. */
  predicate SafePace(c: Cluster, pace: Pace)
  {
    c.size <= 1 || (pace.rollTime < 1801.0 && LatestStart(pace, c.size - 2) < 1801.0)
  }

  lemma {:induction false} WholeSeconds(x: real) returns (n: nat)
    requires x >= 0.0
    ensures WholePart(x) == n as real <= x < n as real + 1.0
    decreases x.Floor
  {
    n := 0;
    if x >= 1.0 {
      n := WholeSeconds(x - 1.0);
      n := n + 1;
    }
  }

  lemma {:induction false} WholePartIs(x: real, n: nat)
    requires n as real <= x < n as real + 1.0
    ensures WholePart(x) == n as real
  {
    if n > 0 {
      WholePartIs(x - 1.0, n - 1);
    }
  }

  lemma WholePartBounds(x: real)
    requires x >= 0.0
    ensures 0.0 <= WholePart(x) <= x < WholePart(x) + 1.0
    ensures WholePart(WholePart(x)) == WholePart(x)
  {
    var n := WholeSeconds(x);
    WholePartIs(n as real, n);
  }

  lemma WholePartLater(x: real, n: nat)
    requires x >= 0.0
    ensures WholePart(x + n as real) == WholePart(x) + n as real
  {
    var m := WholeSeconds(x);
    WholePartIs(x + n as real, m + n);
  }

  /** A fraction of less than a second is cut off. */
  lemma WholePartOfSum(x: real, fraction: real)
    requires x >= 0.0 && 0.0 <= fraction < 1.0
    ensures WholePart(WholePart(x) + fraction) == WholePart(x)
  {
    var n := WholeSeconds(x);
    WholePartIs(WholePart(x) + fraction, n);
  }

  lemma WholePartGrows(x: real, y: real)
    requires 0.0 <= x <= y
    ensures WholePart(x) == WholePart(y) || WholePart(x) + 1.0 <= WholePart(y)
  {
    var m := WholeSeconds(x);
    var n := WholeSeconds(y);
    assert m <= n;
  }

  lemma NextOnGrid(pace: Pace, x: real, sleep: int)
    requires OnGrid(pace, x) && ValidSleep(sleep)
    ensures OnGrid(pace, x + sleep as real)
  {
    WholePartLater(x, sleep);
    WholePartBounds(x);
    hide WholePart;
  }

  lemma LatestPollIsLatest(pace: Pace, x: real, y: real)
    requires Sane(pace) && OnGrid(pace, y) && y <= x
    ensures y <= LatestPoll(pace, x)
  {
    WholePartGrows(y, x);
    WholePartBounds(x);
    WholePartBounds(y);
    hide WholePart;
  }

  lemma LatestPollBounds(pace: Pace, x: real)
    requires Sane(pace) && pace.window <= x
    ensures x - 5.0 <= LatestPoll(pace, x) <= x && OnGrid(pace, LatestPoll(pace, x))
  {
    WholePartBounds(x);
    if x >= SHORTEST_SLEEP as real && x - WholePart(x) > pace.window {
      WholePartOfSum(x, pace.window);
      WholePartGrows(5.0, x);
      WholePartIs(5.0, 5);
    }
    hide WholePart;
  }

  lemma {:induction false} LatestStartsGrow(pace: Pace, i: nat, j: nat)
    requires Sane(pace) && i <= j
    ensures pace.window <= LatestStart(pace, i) <= LatestStart(pace, j)
    ensures i < j ==> LatestStart(pace, i) + pace.rollTime + 24.0 <= LatestStart(pace, j)
    decreases j
  {
    if j > 0 {
      LatestStartsGrow(pace, if i < j then i else j - 1, j - 1);
      LatestPollBounds(pace, LatestStart(pace, j - 1) + pace.rollTime);
      hide LatestPoll, OnGrid;
    }
  }

  /** Every instant is a possible poll, once a sleep is over: all times are whole seconds, or the window is wide. */
  predicate FullGrid(pace: Pace)
  {
    pace.window >= 1.0 || (Whole(pace.window) && Whole(pace.rollTime))
  }

  /** `i` rounds of `d` seconds. */
  function Rounds(i: nat, d: real): real
  {
    i as real * d
  }

  lemma OneRoundMore(i: nat, d: real)
    ensures Rounds(0, d) == 0.0 && Rounds(i + 1, d) == Rounds(i, d) + d
  {
  }

  lemma {:induction false} LatestStartIsWhole(pace: Pace, i: nat, window: nat, rollTime: nat) returns (n: nat)
    requires pace.window == window as real && pace.rollTime == rollTime as real
    ensures LatestStart(pace, i) == n as real
  {
    n := window;
    if i > 0 {
      n := LatestStartIsWhole(pace, i - 1, window, rollTime);
      var x := n + rollTime;
      WholePartIs(x as real, x);
      n := (if x < 5 then window else x) + 29;
    }
  }

  /**
   * The closed form. A first roll that ends within five seconds is over before its successor can poll a second
   * time, so it does not count.
   */
  lemma {:induction false} LatestStartClosedForm(pace: Pace, i: nat)
    requires Sane(pace) && FullGrid(pace)
    ensures LatestStart(pace, i) == pace.window + Rounds(i, pace.rollTime + 29.0) -
      if i > 0 && pace.window + pace.rollTime < 5.0 then pace.rollTime else 0.0
  {
    OneRoundMore(if i > 0 then i - 1 else 0, pace.rollTime + 29.0);
    hide Rounds;
    if i > 0 {
      LatestStartClosedForm(pace, i - 1);
      LatestStartsGrow(pace, 0, i - 1);
      if pace.window < 1.0 {
        var window := WholeSeconds(pace.window);
        var rollTime := WholeSeconds(pace.rollTime);
        var n := LatestStartIsWhole(pace, i - 1, window, rollTime);
        WholePartIs((n + rollTime) as real, n + rollTime);
      } else {
        WholePartBounds(LatestStart(pace, i - 1) + pace.rollTime);
      }
      hide WholePart;
    }
  }

  // ----- What a timely run keeps -----

  /** The poll was scheduled by an earlier one. */
  ghost predicate FromGrid(pace: Pace, next: real, now: real)
  {
    exists sleep :: ValidSleep(sleep) && OnGrid(pace, next - sleep as real) && next - sleep as real <= now
  }

  /** What is known of the next poll of a waiting node. */
  ghost predicate PollTimes(pace: Pace, i: nat, since: real, next: real, now: real, store: Store)
  {
    && i > 0 && i !in store.startAt
    && 0.0 <= since <= next && Whole(next - since)
    && OnGrid(pace, next) && (next <= now || FromGrid(pace, next, now))
    && (i - 1 in store.doneAt ==> next <= LatestStart(pace, i))
  }

  ghost predicate NodeTimes(pace: Pace, i: nat, p: Phase, now: real, store: Store)
  {
    match p
    case Idle => i !in store.startAt
    case AwaitStart(since, nextPoll) => PollTimes(pace, i, since, nextPoll, now, store)
    case AwaitDone(since, nextPoll) =>
      PollTimes(pace, i, since, nextPoll, now, store) && i - 1 in store.startAt && store.startAt[i - 1] <= since
    case Ready(at) => i !in store.startAt && at <= LatestStart(pace, i)
    case Rolling(began, lastRun, lastCall) =>
      && i in store.startAt && store.startAt[i] == began && i !in store.doneAt
      && began <= lastCall <= now
      && (match lastRun
          case None => i !in store.alive && lastCall == began
          case Some(at) => i in store.alive && store.alive[i] == at && at <= lastCall <= at + KICK_INTERVAL)
    case _ => i in store.doneAt
  }

  ghost predicate KeyTimes(pace: Pace, i: nat, now: real, store: Store)
  {
    && (i in store.startAt ==> 0.0 <= store.startAt[i] <= now && store.startAt[i] <= LatestStart(pace, i))
    && (i in store.doneAt ==>
         && i in store.startAt
         && store.startAt[i] <= store.doneAt[i] <= store.startAt[i] + pace.rollTime)
    && (i in store.alive ==> i in store.startAt)
  }

  ghost predicate TInv(c: Cluster, pace: Pace, s: State)
  {
    && |s.phases| == c.size && s.now >= 0.0
    && s.history.bypassed == {} && s.history.rerun == {}
    && forall i :: 0 <= i < c.size ==>
         NodeTimes(pace, i, s.phases[i], s.now, s.store) && KeyTimes(pace, i, s.now, s.store)
  }

  /** A node that has not started yet still has time to. */
  lemma {:induction false} NotStartedIsEarly(c: Cluster, pace: Pace, s: State, j: nat)
    requires TInv(c, pace, s) && KeepsPace(pace, s) && Sane(pace)
    requires j < c.size && j !in s.store.startAt
    ensures s.now <= LatestStart(pace, j)
  {
    hide OnGrid, WholePart, FromGrid, LatestPoll;
    var p := s.phases[j];
    assert OnTime(pace, j, p, s.now, s.store) && NodeTimes(pace, j, p, s.now, s.store);
    LatestStartsGrow(pace, j, j);
    if j > 0 {
      LatestStartsGrow(pace, j - 1, j);
      LatestPollBounds(pace, LatestStart(pace, j - 1) + pace.rollTime);
      var q := s.phases[j - 1];
      assert OnTime(pace, j - 1, q, s.now, s.store) && NodeTimes(pace, j - 1, q, s.now, s.store);
      assert KeyTimes(pace, j - 1, s.now, s.store);
      if j - 1 !in s.store.startAt {
        NotStartedIsEarly(c, pace, s, j - 1);
      }
    }
  }

  lemma WholeSecondsPass(x: real)
    requires Whole(x) && x > 1800.0
    ensures x >= 1801.0
  {
    var n := WholeSeconds(x);
  }

  /** Neither wait can end otherwise than by success. */
  lemma PollsSucceed(c: Cluster, pace: Pace, s: State, i: nat)
    requires TInv(c, pace, s) && KeepsPace(pace, s) && Sane(pace) && SafePace(c, pace)
    requires 0 < i < c.size
    ensures s.phases[i].AwaitStart? && s.phases[i].nextPoll <= s.now ==>
      UntilVerdict(i - 1 in s.store.startAt, s.now, s.phases[i].since) != TimedOut
    ensures s.phases[i].AwaitDone? && s.phases[i].nextPoll <= s.now ==>
      TimedVerdict(i - 1 in s.store.doneAt, AliveOf(s.store, i - 1), s.now, s.phases[i].since) in {Proceed, KeepWaiting}
  {
    hide OnGrid, WholePart, FromGrid, LatestStart;
    var p, q := s.phases[i], s.phases[i - 1];
    assert OnTime(pace, i, p, s.now, s.store) && NodeTimes(pace, i, p, s.now, s.store);
    assert OnTime(pace, i - 1, q, s.now, s.store) && NodeTimes(pace, i - 1, q, s.now, s.store);
    if p.AwaitStart? && p.nextPoll <= s.now {
      if i - 1 !in s.store.startAt && s.now - p.since > 1800.0 {
        WholeSecondsPass(s.now - p.since);
        NotStartedIsEarly(c, pace, s, i - 1);
        LatestStartsGrow(pace, i - 1, c.size - 2);
      }
    }
    if p.AwaitDone? && p.nextPoll <= s.now && s.now - p.since > 1800.0 {
      WholeSecondsPass(s.now - p.since);
    }
  }

  /** A poll that goes on waiting schedules the next one. */
  lemma PollAgain(pace: Pace, i: nat, since: real, now: real, sleep: int, store: Store)
    requires PollTimes(pace, i, since, now, now, store) && ValidSleep(sleep) && i - 1 !in store.doneAt
    ensures PollTimes(pace, i, since, now + sleep as real, now, store)
  {
    NextOnGrid(pace, now, sleep);
    WholePartLater(now - since, sleep);
    hide WholePart, OnGrid;
    var next := now + sleep as real;
    assert ValidSleep(sleep) && next - sleep as real == now;
    assert next - since == now - since + sleep as real;
  }

  lemma WaiterKeepsTimes(c: Cluster, pace: Pace, s: State, i: nat, op: Op)
    requires TInv(c, pace, s) && KeepsPace(pace, s) && Sane(pace) && SafePace(c, pace) &&
      (op.PollStart? || op.PollDone?)
    requires i < c.size && Perform(c, i, s.phases[i], s.now, s.store, s.history, op).Some?
    ensures var o := Perform(c, i, s.phases[i], s.now, s.store, s.history, op).value;
      o.store == s.store && o.history == s.history && NodeTimes(pace, i, o.phase, s.now, o.store)
  {
    var p := s.phases[i];
    assert OnTime(pace, i, p, s.now, s.store) && NodeTimes(pace, i, p, s.now, s.store);
    assert KeyTimes(pace, i - 1, s.now, s.store);
    PollsSucceed(c, pace, s, i);
    hide OnGrid, WholePart, FromGrid;
    assert p.nextPoll == s.now && PollTimes(pace, i, p.since, s.now, s.now, s.store);
    if op.PollStart? {
      if i - 1 !in s.store.startAt {
        assert i - 1 !in s.store.doneAt;
        PollAgain(pace, i, p.since, s.now, op.sleep, s.store);
      } else {
        ZeroIsWhole(s.now);
      }
    } else if i - 1 !in s.store.doneAt {
      PollAgain(pace, i, p.since, s.now, op.sleep, s.store);
    }
  }

  lemma ZeroIsWhole(now: real)
    ensures Whole(now - now)
  {
  }

  lemma ActorKeepsTimes(c: Cluster, pace: Pace, s: State, i: nat, op: Op)
    requires TInv(c, pace, s) && KeepsPace(pace, s) && Sane(pace) && SafePace(c, pace) && op != Crash
    requires i < c.size && Perform(c, i, s.phases[i], s.now, s.store, s.history, op).Some?
    requires OnTime(pace, i, Perform(c, i, s.phases[i], s.now, s.store, s.history, op).value.phase, s.now,
                    Perform(c, i, s.phases[i], s.now, s.store, s.history, op).value.store)
    ensures var o := Perform(c, i, s.phases[i], s.now, s.store, s.history, op).value;
      && o.history.bypassed == {} && o.history.rerun == {}
      && NodeTimes(pace, i, o.phase, s.now, o.store)
      && KeyTimes(pace, i, s.now, o.store)
  {
    assert OnTime(pace, i, s.phases[i], s.now, s.store) && NodeTimes(pace, i, s.phases[i], s.now, s.store);
    assert KeyTimes(pace, i, s.now, s.store);
    if op.PollStart? || op.PollDone? {
      WaiterKeepsTimes(c, pace, s, i, op);
    } else {
      ZeroIsWhole(s.now);
      if i > 0 {
        assert KeyTimes(pace, i - 1, s.now, s.store);
      }
      LatestStartsGrow(pace, 0, i);
      hide WholePart;
    }
  }

  /** What another node reads is changed only at the actor's own keys, and only to the present time. */
  lemma OneKeyChanges(c: Cluster, i: nat, p: Phase, now: real, store: Store, history: History, op: Op)
    requires Perform(c, i, p, now, store, history, op).Some?
    ensures var o := Perform(c, i, p, now, store, history, op).value;
      && (o.store.startAt == store.startAt || (p.Ready? && o.store.startAt == store.startAt[i := now]))
      && (o.store.doneAt == store.doneAt || (p.Rolling? && o.store.doneAt == store.doneAt[i := now]))
      && (o.store.alive == store.alive || (p.Rolling? && o.store.alive == store.alive[i := now]))
  {
  }

  /** A predecessor that finishes now leaves the waiting node time for its next poll. */
  lemma PredecessorFinishes(c: Cluster, pace: Pace, s: State, j: nat, since: real, next: real)
    requires TInv(c, pace, s) && KeepsPace(pace, s) && Sane(pace) && 0 < j < c.size
    requires s.phases[j - 1].Rolling? && PollTimes(pace, j, since, next, s.now, s.store)
    ensures next <= LatestStart(pace, j)
  {
    assert OnTime(pace, j - 1, s.phases[j - 1], s.now, s.store) &&
      NodeTimes(pace, j - 1, s.phases[j - 1], s.now, s.store);
    assert KeyTimes(pace, j - 1, s.now, s.store);
    var x := LatestStart(pace, j - 1) + pace.rollTime;
    if next <= s.now {
      LatestPollIsLatest(pace, x, next);
    } else {
      var sleep :| ValidSleep(sleep) && OnGrid(pace, next - sleep as real) && next - sleep as real <= s.now;
      LatestPollIsLatest(pace, x, next - sleep as real);
    }
  }

  lemma OthersKeepTimes(c: Cluster, pace: Pace, s: State, i: nat, j: nat, store: Store)
    requires TInv(c, pace, s) && KeepsPace(pace, s) && Sane(pace) && i < c.size && j < c.size && j != i
    requires store.startAt == s.store.startAt || (s.phases[i].Ready? && store.startAt == s.store.startAt[i := s.now])
    requires store.doneAt == s.store.doneAt || (s.phases[i].Rolling? && store.doneAt == s.store.doneAt[i := s.now])
    requires store.alive == s.store.alive || (s.phases[i].Rolling? && store.alive == s.store.alive[i := s.now])
    ensures NodeTimes(pace, j, s.phases[j], s.now, store) && KeyTimes(pace, j, s.now, store)
  {
    var p := s.phases[j];
    assert NodeTimes(pace, j, p, s.now, s.store) && KeyTimes(pace, j, s.now, s.store);
    assert NodeTimes(pace, i, s.phases[i], s.now, s.store);
    hide OnGrid, FromGrid, WholePart, LatestStart;
    if (p.AwaitStart? || p.AwaitDone?) && i == j - 1 && s.phases[i].Rolling? {
      PredecessorFinishes(c, pace, s, j, p.since, p.nextPoll);
    }
  }

  lemma StepKeepsTimes(c: Cluster, pace: Pace, s: State, s': State)
    requires TInv(c, pace, s) && KeepsPace(pace, s) && KeepsPace(pace, s') && Sane(pace) && SafePace(c, pace)
    requires CrashFree(c, s, s')
    ensures TInv(c, pace, s')
  {
    hide Perform;
    var step :| NextStep(c, s, s', step) && (step.Do? ==> step.op != Crash);
    match step
    case Tick(d) =>
      forall j | 0 <= j < c.size
        ensures NodeTimes(pace, j, s'.phases[j], s'.now, s'.store) && KeyTimes(pace, j, s'.now, s'.store)
      {
        assert NodeTimes(pace, j, s.phases[j], s.now, s.store) && KeyTimes(pace, j, s.now, s.store);
      }
    case Do(i, op) =>
      assert OnTime(pace, i, s'.phases[i], s'.now, s'.store);
      ActorKeepsTimes(c, pace, s, i, op);
      OneKeyChanges(c, i, s.phases[i], s.now, s.store, s.history, op);
      forall j | 0 <= j < c.size
        ensures NodeTimes(pace, j, s'.phases[j], s'.now, s'.store) && KeyTimes(pace, j, s'.now, s'.store)
      {
        if j != i {
          OthersKeepTimes(c, pace, s, i, j, s'.store);
        }
      }
  }

  lemma {:induction false} TimelyRunKeepsTimes(c: Cluster, pace: Pace, run: seq<State>, k: nat)
    requires TimelyRun(c, pace, run) && Sane(pace) && SafePace(c, pace) && k < |run|
    ensures TInv(c, pace, run[k])
  {
    hide Next, CrashFree;
    if k > 0 {
      TimelyRunKeepsTimes(c, pace, run, k - 1);
      StepKeepsTimes(c, pace, run[k - 1], run[k]);
    }
  }

  /** No wait ever gives up, so at most one node is rolling, and it is the first that is not done. */
  lemma OneAtATime(c: Cluster, pace: Pace, run: seq<State>, k: nat)
    requires TimelyRun(c, pace, run) && Sane(pace) && SafePace(c, pace) && k < |run|
    ensures run[k].history.bypassed == {}
    ensures |RollingNodes(run[k])| <= 1
    ensures forall i, j :: i in RollingNodes(run[k]) && 0 <= j < i ==> j in run[k].store.doneAt
  {
    TimelyRunKeepsTimes(c, pace, run, k);
    UnfinishedBound(c, run, k);
    var d := DoneIsPrefix(c, run, k);
  }

  // ----- Building timely runs -----

  lemma Extend(c: Cluster, pace: Pace, run: seq<State>, step: Step, s': State) returns (run': seq<State>)
    requires TimelyRun(c, pace, run)
    requires NextStep(c, run[|run| - 1], s', step) && (step.Do? ==> step.op != Crash)
    requires KeepsPace(pace, s')
    ensures run' == run + [s'] && TimelyRun(c, pace, run') && run'[|run'| - 1] == s'
  {
    run' := run + [s'];
    forall k | 0 < k < |run'|
      ensures Next(c, run'[k - 1], run'[k]) && CrashFree(c, run'[k - 1], run'[k])
    {
      if k < |run| {
        assert Next(c, run[k - 1], run[k]) && CrashFree(c, run[k - 1], run[k]);
      }
    }
  }

  lemma Begin(c: Cluster, pace: Pace, s: State) returns (run: seq<State>)
    requires Init(c, s) && KeepsPace(pace, s)
    ensures run == [s] && TimelyRun(c, pace, run) && run[|run| - 1] == s
  {
    run := [s];
  }
}
