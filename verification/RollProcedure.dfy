/**
 * The procedure that each node follows, as it is written, and the operations of the step system that it amounts to:
 * waiting for the previous node, rolling between the `start` and `done` keys, and waiting for all monitors.
 */
module RollProcedure {
  import opened Wrappers
  import opened WatchDog
  import opened RollingUpgrade

  /** An operation of a node, with the time and the store that it finds. */
  datatype Moment = Moment(now: real, store: Store, op: Op)

  const NoHistory := History({}, {}, {})

  /** What a node has made of itself and of the history; the store is everybody's. */
  datatype Local = Local(phase: Phase, history: History)

  function ActLocally(c: Cluster, i: nat, l: Local, at: Moment): Option<Local>
  {
    match Perform(c, i, l.phase, at.now, at.store, l.history, at.op)
    case None => None
    case Some(o) => Some(Local(o.phase, o.history))
  }

  /** Where a script leads; None when the step system does not allow it. */
  function After(c: Cluster, i: nat, l: Local, script: seq<Moment>): Option<Local>
  {
    if script == [] then Some(l)
    else
      match After(c, i, l, script[..|script| - 1])
      case None => None
      case Some(before) => ActLocally(c, i, before, script[|script| - 1])
  }

  lemma OneMoreAct(c: Cluster, i: nat, l: Local, script: seq<Moment>, at: Moment)
    requires After(c, i, l, script).Some?
    ensures After(c, i, l, script + [at]) == ActLocally(c, i, After(c, i, l, script).value, at)
  {
    assert (script + [at])[..|script|] == script;
  }

  lemma LastAct(c: Cluster, i: nat, l: Local, before: seq<Moment>, at: Moment, script: seq<Moment>, mid: Local,
                end: Local)
    requires script == before + [at] && After(c, i, l, before) == Some(mid) && ActLocally(c, i, mid, at) == Some(end)
    ensures After(c, i, l, script) == Some(end)
  {
    OneMoreAct(c, i, l, before, at);
  }

  lemma {:induction false} ScriptsJoin(c: Cluster, i: nat, l: Local, first: seq<Moment>, second: seq<Moment>)
    requires After(c, i, l, first).Some?
    ensures After(c, i, l, first + second) == After(c, i, After(c, i, l, first).value, second)
  {
    if second == [] {
      assert first + second == first;
    } else {
      var n := |second| - 1;
      ScriptsJoin(c, i, l, first, second[..n]);
      assert (first + second)[..|first| + n] == first + second[..n];
    }
  }

  // ----- Waiting for the previous node -----

  /** The store and the sleep at each poll of the two phases of the wait. */
  datatype Views = Views(start: nat -> Store, startDelays: nat -> int, done: nat -> Store, doneDelays: nat -> int)

  function EnvironmentOf(i: nat, v: Views): Environment
    requires i > 0
  {
    Environment((k: nat) => i - 1 in v.start(k).startAt, v.startDelays,
                (k: nat) => i - 1 in v.done(k).doneAt, (k: nat) => AliveOf(v.done(k), i - 1), v.doneDelays)
  }

  function StartPoll(v: Views, start: real, k: nat): Moment
  {
    Moment(PollTime(start, v.startDelays, k), v.start(k), PollStart(v.startDelays(k)))
  }

  function DonePoll(v: Views, since: real, k: nat): Moment
  {
    Moment(PollTime(since, v.doneDelays, k), v.done(k), PollDone(v.doneDelays(k)))
  }

  function StartPolls(v: Views, start: real, n: nat): (script: seq<Moment>)
    ensures |script| == n
  {
    if n == 0 then [] else StartPolls(v, start, n - 1) + [StartPoll(v, start, n - 1)]
  }

  function DonePolls(v: Views, since: real, n: nat): (script: seq<Moment>)
    ensures |script| == n
  {
    if n == 0 then [] else DonePolls(v, since, n - 1) + [DonePoll(v, since, n - 1)]
  }

  /** What poll `k` does to a waiter that has come so far. */
  lemma StartPollActs(c: Cluster, i: nat, v: Views, start: real, k: nat)
    requires 0 < i && Sleeps(v.startDelays)
    ensures var now := PollTime(start, v.startDelays, k);
      ActLocally(c, i, Local(AwaitStart(start, now), NoHistory), StartPoll(v, start, k)) ==
        match UntilVerdict(EnvironmentOf(i, v).started(k), now, start)
        case Proceed => Some(Local(AwaitDone(now, now), NoHistory))
        case TimedOut => Some(Local(Ready(now), History({i}, {}, {})))
        case _ => Some(Local(AwaitStart(start, PollTime(start, v.startDelays, k + 1)), NoHistory))
  {
    assert NoHistory.bypassed + {i} == {i};
  }

  lemma DonePollActs(c: Cluster, i: nat, v: Views, since: real, k: nat, verdict: Verdict)
    requires 0 < i && Sleeps(v.doneDelays)
    requires verdict ==
      TimedVerdict(i - 1 in v.done(k).doneAt, AliveOf(v.done(k), i - 1), PollTime(since, v.doneDelays, k), since)
    ensures var now := PollTime(since, v.doneDelays, k);
      ActLocally(c, i, Local(AwaitDone(since, now), NoHistory), DonePoll(v, since, k)) == Some(
        if verdict == KeepWaiting then Local(AwaitDone(since, PollTime(since, v.doneDelays, k + 1)), NoHistory)
        else Local(Ready(now), if verdict == Proceed then NoHistory else History({i}, {}, {})))
  {
    assert NoHistory.bypassed + {i} == {i};
  }

  lemma {:induction false} StartPollsAreAllowed(c: Cluster, i: nat, v: Views, start: real, n: nat)
    requires 0 < i && Sleeps(v.startDelays) && StartPollsGoOn(EnvironmentOf(i, v), start, n)
    ensures After(c, i, Local(AwaitStart(start, start), NoHistory), StartPolls(v, start, n)) ==
      Some(Local(AwaitStart(start, PollTime(start, v.startDelays, n)), NoHistory))
  {
    if n > 0 {
      StartPollsAreAllowed(c, i, v, start, n - 1);
      assert UntilVerdict(EnvironmentOf(i, v).started(n - 1), PollTime(start, v.startDelays, n - 1), start) ==
        KeepWaiting;
      StartPollActs(c, i, v, start, n - 1);
      hide ActLocally, UntilVerdict, StartPoll, After;
      OneMoreAct(c, i, Local(AwaitStart(start, start), NoHistory), StartPolls(v, start, n - 1),
        StartPoll(v, start, n - 1));
    }
  }

  lemma {:induction false} DonePollsAreAllowed(c: Cluster, i: nat, v: Views, since: real, n: nat)
    requires 0 < i && Sleeps(v.doneDelays) && DonePollsGoOn(EnvironmentOf(i, v), since, n)
    ensures After(c, i, Local(AwaitDone(since, since), NoHistory), DonePolls(v, since, n)) ==
      Some(Local(AwaitDone(since, PollTime(since, v.doneDelays, n)), NoHistory))
  {
    if n > 0 {
      DonePollsAreAllowed(c, i, v, since, n - 1);
      var env := EnvironmentOf(i, v);
      assert TimedVerdict(env.done(n - 1), env.alive(n - 1), PollTime(since, v.doneDelays, n - 1), since) ==
        KeepWaiting;
      DonePollActs(c, i, v, since, n - 1, KeepWaiting);
      var l, script := Local(AwaitDone(since, since), NoHistory), DonePolls(v, since, n - 1);
      assert DonePolls(v, since, n) == script + [DonePoll(v, since, n - 1)];
      hide *;
      LastAct(c, i, l, script, DonePoll(v, since, n - 1), DonePolls(v, since, n),
              Local(AwaitDone(since, PollTime(since, v.doneDelays, n - 1)), NoHistory),
              Local(AwaitDone(since, PollTime(since, v.doneDelays, n)), NoHistory));
    }
  }

  /** How a wait of `n` and `m` polls leaves the node: ready, and having bypassed its predecessor or not. */
  function AfterWait(i: nat, end: WaitEnd, now: real): Local
  {
    Local(Ready(now), if end == SawDone then NoHistory else History({i}, {}, {}))
  }

  /** The operations of a whole wait. */
  function WaitScript(v: Views, start: real, n: nat, m: nat): seq<Moment>
    requires n > 0
  {
    StartPolls(v, start, n) + DonePolls(v, PollTime(start, v.startDelays, n - 1), m)
  }

  /**
   * Whatever the waiter finds in the store, its wait is a sequence of polls that the step system allows; it ends with
   * the node ready to roll, and counts as a bypass exactly when it does not end with `done` seen.
   */
  method WaitForPredecessor(c: Cluster, i: nat, v: Views, start: real)
      returns (end: WaitEnd, now: real, n: nat, m: nat)
    requires 0 < i && Sleeps(v.startDelays) && Sleeps(v.doneDelays)
    ensures start <= now <= start + 3658.0 && 0 < n && n + m <= 724
    ensures After(c, i, Local(AwaitStart(start, start), NoHistory), WaitScript(v, start, n, m)) ==
      Some(AfterWait(i, end, now))
    ensures end == SawDone <==> m > 0 && i - 1 in v.done(m - 1).doneAt
  {
    end, now, n, m := WaitOnPreviousNode(EnvironmentOf(i, v), start);
    if end == NeverStarted {
      NeverStartedWait(c, i, v, start, now, n);
    } else {
      StartedWait(c, i, v, start, end, n, m);
    }
  }

  lemma NeverStartedWait(c: Cluster, i: nat, v: Views, start: real, now: real, n: nat)
    requires 0 < i && 0 < n && Sleeps(v.startDelays) && StartPollsGoOn(EnvironmentOf(i, v), start, n - 1)
    requires now == PollTime(start, v.startDelays, n - 1) && now > start + 1800.0
    requires i - 1 !in v.start(n - 1).startAt
    ensures After(c, i, Local(AwaitStart(start, start), NoHistory), WaitScript(v, start, n, 0)) ==
      Some(AfterWait(i, NeverStarted, now))
  {
    hide ActLocally, PollTime, AfterWait;
    LastStartPollActs(c, i, v, start, now, n);
    StartPollsAreAllowed(c, i, v, start, n - 1);
    LastAct(c, i, Local(AwaitStart(start, start), NoHistory), StartPolls(v, start, n - 1), StartPoll(v, start, n - 1),
            WaitScript(v, start, n, 0), Local(AwaitStart(start, now), NoHistory), AfterWait(i, NeverStarted, now));
  }

  lemma LastStartPollActs(c: Cluster, i: nat, v: Views, start: real, now: real, n: nat)
    requires 0 < i && 0 < n && Sleeps(v.startDelays)
    requires now == PollTime(start, v.startDelays, n - 1) && now > start + 1800.0
    requires i - 1 !in v.start(n - 1).startAt
    ensures ActLocally(c, i, Local(AwaitStart(start, now), NoHistory), StartPoll(v, start, n - 1)) ==
      Some(AfterWait(i, NeverStarted, now))
  {
    StartPollActs(c, i, v, start, n - 1);
  }

  lemma StartedWait(c: Cluster, i: nat, v: Views, start: real, end: WaitEnd, n: nat, m: nat)
    requires 0 < i && 0 < n && Sleeps(v.startDelays) && StartPollsGoOn(EnvironmentOf(i, v), start, n - 1)
    requires EnvironmentOf(i, v).started(n - 1) && 0 < m && Sleeps(v.doneDelays) && end != NeverStarted
    requires var env := EnvironmentOf(i, v);
      var since := PollTime(start, v.startDelays, n - 1);
      DonePollsGoOn(env, since, m - 1) &&
      TimedVerdict(env.done(m - 1), env.alive(m - 1), PollTime(since, env.doneDelays, m - 1), since) == Cause(end)
    ensures After(c, i, Local(AwaitStart(start, start), NoHistory), WaitScript(v, start, n, m)) ==
      Some(AfterWait(i, end, PollTime(PollTime(start, v.startDelays, n - 1), v.doneDelays, m - 1)))
    ensures end == SawDone <==> i - 1 in v.done(m - 1).doneAt
  {
    var l, since := Local(AwaitStart(start, start), NoHistory), PollTime(start, v.startDelays, n - 1);
    var first := StartPolls(v, start, n);
    StartPollsAreAllowed(c, i, v, start, n - 1);
    StartPollActs(c, i, v, start, n - 1);
    OneMoreAct(c, i, l, StartPolls(v, start, n - 1), StartPoll(v, start, n - 1));
    assert After(c, i, l, first) == Some(Local(AwaitDone(since, since), NoHistory));
    LastDonePoll(c, i, v, since, end, PollTime(since, v.doneDelays, m - 1), m);
    assert Cause(end) == Proceed <==> i - 1 in v.done(m - 1).doneAt;
    hide ActLocally, After, PollTime, StartPoll, DonePolls, StartPolls, AfterWait;
    ScriptsJoin(c, i, l, first, DonePolls(v, since, m));
  }

  lemma LastDonePoll(c: Cluster, i: nat, v: Views, since: real, end: WaitEnd, now: real, m: nat)
    requires 0 < i && 0 < m && Sleeps(v.doneDelays) && DonePollsGoOn(EnvironmentOf(i, v), since, m - 1) &&
      end != NeverStarted
    requires now == PollTime(since, v.doneDelays, m - 1)
    requires TimedVerdict(i - 1 in v.done(m - 1).doneAt, AliveOf(v.done(m - 1), i - 1), now, since) == Cause(end)
    ensures After(c, i, Local(AwaitDone(since, since), NoHistory), DonePolls(v, since, m)) ==
      Some(AfterWait(i, end, now))
  {
    hide ActLocally, PollTime, AfterWait;
    LastDonePollActs(c, i, v, since, end, now, m);
    DonePollsAreAllowed(c, i, v, since, m - 1);
    LastAct(c, i, Local(AwaitDone(since, since), NoHistory), DonePolls(v, since, m - 1), DonePoll(v, since, m - 1),
            DonePolls(v, since, m), Local(AwaitDone(since, now), NoHistory), AfterWait(i, end, now));
  }

  lemma LastDonePollActs(c: Cluster, i: nat, v: Views, since: real, end: WaitEnd, now: real, m: nat)
    requires 0 < i && 0 < m && Sleeps(v.doneDelays) && end != NeverStarted
    requires now == PollTime(since, v.doneDelays, m - 1)
    requires TimedVerdict(i - 1 in v.done(m - 1).doneAt, AliveOf(v.done(m - 1), i - 1), now, since) == Cause(end)
    ensures ActLocally(c, i, Local(AwaitDone(since, now), NoHistory), DonePoll(v, since, m - 1)) ==
      Some(AfterWait(i, end, now))
  {
    DonePollActs(c, i, v, since, m - 1, Cause(end));
  }

  // ----- Rolling -----

  datatype Timed = Timed(at: real, op: Op)

  /** A node's own operations in a row, with nobody else touching the store in between. */
  function Alone(c: Cluster, i: nat, o: Outcome, ops: seq<Timed>): Option<Outcome>
  {
    if ops == [] then Some(o)
    else
      var last := ops[|ops| - 1];
      match Alone(c, i, o, ops[..|ops| - 1])
      case None => None
      case Some(before) => Perform(c, i, before.phase, last.at, before.store, before.history, last.op)
  }

  lemma OneMoreAlone(c: Cluster, i: nat, o: Outcome, ops: seq<Timed>, last: Timed, before: Outcome)
    requires Alone(c, i, o, ops) == Some(before)
    ensures Alone(c, i, o, ops + [last]) == Perform(c, i, before.phase, last.at, before.store, before.history, last.op)
  {
    assert (ops + [last])[..|ops|] == ops;
  }

  function Kicks(calls: seq<real>): seq<Timed>
  {
    if calls == [] then [] else Kicks(calls[..|calls| - 1]) + [Timed(calls[|calls| - 1], KickDog)]
  }

  function RollOps(began: real, calls: seq<real>, ended: real): seq<Timed>
  {
    [Timed(began, WriteStart)] + Kicks(calls) + [Timed(ended, WriteDone)]
  }

  /** The `alive` keys after the watchdog was called at these times. */
  function AliveAfter(alive: map<nat, real>, i: nat, calls: seq<real>): map<nat, real>
  {
    var stamps := KickAll(KICK_INTERVAL, calls).stamps;
    if stamps == [] then alive else alive[i := stamps[|stamps| - 1]]
  }

  class Monitors {
    var store: Store

    constructor (store: Store)
      ensures this.store == store
    {
      this.store := store;
    }

    /**
     * lock_and_roll: `start`, the kicks of the upgrade, `done`. The keys are what the code writes, and the whole is a
     * sequence of operations that the step system allows, with the same effect on the store.
     */
    method LockAndRoll(c: Cluster, i: nat, began: real, calls: seq<real>, ended: real)
      modifies this
      ensures store == Store(old(store).startAt[i := began], old(store).doneAt[i := ended],
                             AliveAfter(old(store).alive, i, calls))
      ensures Alone(c, i, Outcome(Ready(began), old(store), NoHistory), RollOps(began, calls, ended)) ==
        Some(Outcome(NextGate(Gates(c.kind), ended), store,
                     if i in old(store).doneAt then History({}, {i}, {}) else NoHistory))
    {
      RollIsAllowed(c, i, store, began, calls, ended);
      store := store.(startAt := store.startAt[i := began]);
      var dog := new Kicker(KICK_INTERVAL);
      hide Alone, AliveAfter;
      AliveSteps(old(store).alive, i, calls, 0);
      for k := 0 to |calls|
        invariant dog.kickInterval == KICK_INTERVAL && fresh(dog) && dog.State() == KickAll(KICK_INTERVAL, calls[..k])
        invariant store ==
          Store(old(store).startAt[i := began], old(store).doneAt, AliveAfter(old(store).alive, i, calls[..k]))
      {
        AliveSteps(old(store).alive, i, calls, k);
        assert calls[..k + 1][..k] == calls[..k];
        var kicked := dog.KickTheDog(calls[k]);
        if kicked {
          store := store.(alive := store.alive[i := calls[k]]);
        }
      }
      assert calls[..|calls|] == calls;
      store := store.(doneAt := store.doneAt[i := ended]);
    }
  }

  lemma AliveSteps(alive: map<nat, real>, i: nat, calls: seq<real>, k: nat)
    requires k <= |calls|
    ensures AliveAfter(alive, i, calls[..0]) == alive
    ensures k < |calls| ==> (AliveAfter(alive, i, calls[..k + 1]) ==
      if KickDue(KickAll(KICK_INTERVAL, calls[..k]).lastRun, KICK_INTERVAL, calls[k])
      then AliveAfter(alive, i, calls[..k])[i := calls[k]] else AliveAfter(alive, i, calls[..k]))
  {
    assert calls[..0] == [];
    if k < |calls| {
      assert calls[..k + 1][..k] == calls[..k];
    }
  }

  function LastCall(began: real, calls: seq<real>): real
  {
    if calls == [] then began else calls[|calls| - 1]
  }

  /** The kicks of a roll in the step system. */
  lemma {:induction false} KicksAlone(c: Cluster, i: nat, first: Outcome, began: real, calls: seq<real>)
    requires first == Outcome(Ready(began), first.store, NoHistory)
    ensures Alone(c, i, first, [Timed(began, WriteStart)] + Kicks(calls)) ==
      Some(Outcome(Rolling(began, KickAll(KICK_INTERVAL, calls).lastRun, LastCall(began, calls)),
                   Store(first.store.startAt[i := began], first.store.doneAt, AliveAfter(first.store.alive, i, calls)),
                   if i in first.store.doneAt then History({}, {i}, {}) else NoHistory))
  {
    if calls == [] {
      StartAlone(c, i, first, began);
      assert [Timed(began, WriteStart)] + Kicks(calls) == [Timed(began, WriteStart)];
    } else {
      var k := |calls| - 1;
      KicksAlone(c, i, first, began, calls[..k]);
      assert calls[..k + 1] == calls;
      AliveSteps(first.store.alive, i, calls, k);
      hide Alone, AliveAfter;
      var ops := [Timed(began, WriteStart)] + Kicks(calls[..k]);
      var before := Alone(c, i, first, ops).value;
      KickAlone(c, i, first, ops, calls[k], began, KickAll(KICK_INTERVAL, calls[..k]).lastRun,
                LastCall(began, calls[..k]), before.store, before.history);
      assert [Timed(began, WriteStart)] + Kicks(calls) == ops + [Timed(calls[k], KickDog)];
    }
  }

  lemma RollIsAllowed(c: Cluster, i: nat, store: Store, began: real, calls: seq<real>, ended: real)
    ensures Alone(c, i, Outcome(Ready(began), store, NoHistory), RollOps(began, calls, ended)) ==
      Some(Outcome(NextGate(Gates(c.kind), ended),
                   Store(store.startAt[i := began], store.doneAt[i := ended], AliveAfter(store.alive, i, calls)),
                   if i in store.doneAt then History({}, {i}, {}) else NoHistory))
  {
    var first := Outcome(Ready(began), store, NoHistory);
    var ops := [Timed(began, WriteStart)] + Kicks(calls);
    KicksAlone(c, i, first, began, calls);
    var before := Alone(c, i, first, ops).value;
    hide Alone, AliveAfter, Kicks;
    DoneAlone(c, i, first, ops, ended, before.store, before.history);
  }

  lemma StartAlone(c: Cluster, i: nat, first: Outcome, began: real)
    requires first == Outcome(Ready(began), first.store, NoHistory)
    ensures Alone(c, i, first, [Timed(began, WriteStart)]) ==
      Some(Outcome(Rolling(began, None, began), first.store.(startAt := first.store.startAt[i := began]),
                   if i in first.store.doneAt then History({}, {i}, {}) else NoHistory))
  {
    OneMoreAlone(c, i, first, [], Timed(began, WriteStart), first);
    assert NoHistory.rerun + {i} == {i};
    assert [] + [Timed(began, WriteStart)] == [Timed(began, WriteStart)];
  }

  lemma KickAlone(c: Cluster, i: nat, first: Outcome, ops: seq<Timed>, at: real, began: real, lastRun: Option<real>,
                  lastCall: real, store: Store, history: History)
    requires Alone(c, i, first, ops) == Some(Outcome(Rolling(began, lastRun, lastCall), store, history))
    ensures Alone(c, i, first, ops + [Timed(at, KickDog)]) ==
      Some(if KickDue(lastRun, KICK_INTERVAL, at)
           then Outcome(Rolling(began, Some(at), at), store.(alive := store.alive[i := at]), history)
           else Outcome(Rolling(began, lastRun, at), store, history))
  {
    OneMoreAlone(c, i, first, ops, Timed(at, KickDog), Outcome(Rolling(began, lastRun, lastCall), store, history));
  }

  lemma DoneAlone(c: Cluster, i: nat, first: Outcome, ops: seq<Timed>, ended: real, store: Store, history: History)
    requires Alone(c, i, first, ops).Some?
    requires var o := Alone(c, i, first, ops).value; o.phase.Rolling? && o.store == store && o.history == history
    ensures Alone(c, i, first, ops + [Timed(ended, WriteDone)]) ==
      Some(Outcome(NextGate(Gates(c.kind), ended), store.(doneAt := store.doneAt[i := ended]), history))
  {
    OneMoreAlone(c, i, first, ops, Timed(ended, WriteDone), Alone(c, i, first, ops).value);
  }

  // ----- Waiting for all monitors -----

  /** Scan `k` of the barrier finds the `done` key of every monitor. */
  ghost predicate AllFound(found: (nat, nat) -> bool, size: nat, k: nat)
  {
    forall j: nat :: j < size ==> found(k, j)
  }

  /**
   * wait_for_all_monitors_to_upgrade: `found(k, j)` tells whether scan `k` finds the key of monitor `j`. It returns
   * normally exactly when one of the first 21 scans is complete; a later complete scan comes after the time limit.
   */
  method WaitForAllMonitors(found: (nat, nat) -> bool, size: nat, start: real)
      returns (ok: bool, now: real, scans: nat)
    ensures ok <==> exists k: nat :: k < 21 && AllFound(found, size, k)
    ensures 0 < scans && now <= start + 630.0
    ensures ok ==> scans <= 21 && AllFound(found, size, scans - 1) && now == start + BARRIER_SLEEP * scans as real
    ensures ok ==> forall k: nat :: k < scans - 1 ==> !AllFound(found, size, k)
    ensures !ok ==> scans == 22
  {
    var done := false;
    now := start;
    scans := 0;
    while !done
      invariant scans <= 21 && now == start + BARRIER_SLEEP * scans as real
      invariant done ==> 0 < scans && AllFound(found, size, scans - 1)
      invariant forall k: nat :: k < scans && !(done && k == scans - 1) ==> !AllFound(found, size, k)
      decreases 22 - scans, !done
    {
      done := ScanKeys(found, size, scans);
      scans := scans + 1;
      if now > start + BARRIER_TIMEOUT {
        return false, now, scans;
      }
      now := now + BARRIER_SLEEP;
    }
    ok := true;
  }

  /** all(...) over the monitors: the first missing key ends the scan. */
  method ScanKeys(found: (nat, nat) -> bool, size: nat, k: nat) returns (all: bool)
    ensures all <==> AllFound(found, size, k)
  {
    for j := 0 to size
      invariant forall m: nat :: m < j ==> found(k, m)
    {
      if !found(k, j) {
        return false;
      }
    }
    all := true;
  }
}
