/**
 * The rolling upgrade of a cluster as a step system: the nodes act on one shared key/value store, in any
 * interleaving, with crashes, retries and arbitrary delays. Node `i` is the i-th name of the sorted member
 * list; all keys belong to one version that was fresh when the run began.
 */
module RollingUpgrade {
  import opened Wrappers
  import opened WatchDog

  /** What a monitor does once all monitors have upgraded. */
  datatype Action = BootstrapManager | EnableMsgr2

  datatype Kind = Osd | Mon(luminous: bool, nautilusOrLater: bool)

  datatype Cluster = Cluster(size: nat, kind: Kind)

  datatype Phase =
    | Idle
    | AwaitStart(since: real, nextPoll: real)
    | AwaitDone(since: real, nextPoll: real)
    | Ready(at: real)
    | Rolling(began: real, lastRun: Option<real>, lastCall: real)
    | Barrier(todo: seq<Action>, since: real, index: nat, nextRead: real)
    | Passed(todo: seq<Action>, wakeAt: real)
    | Finished
    | Failed

  /** The three key families of the shared store. */
  datatype Store = Store(startAt: map<nat, real>, doneAt: map<nat, real>, alive: map<nat, real>)

  /**
   * What has happened: which nodes went on although they had not seen their predecessor finish, which
   * nodes began a roll that they had already finished once, and which actions have run where.
   */
  datatype History = History(bypassed: set<nat>, rerun: set<nat>, acted: set<(nat, Action)>)

  datatype State = State(now: real, phases: seq<Phase>, store: Store, history: History)

  const BARRIER_TIMEOUT := 600.0
  const BARRIER_SLEEP := 30.0

  datatype Op =
    | Enter
    | PollStart(sleep: int)
    | PollDone(sleep: int)
    | WriteStart
    | KickDog
    | WriteDone
    | ReadBarrier
    | Act
    | Crash
    | Retry

  datatype Step = Tick(d: real) | Do(i: nat, op: Op)

  /** The actions that lie ahead of a node that has finished its own roll. */
  function Gates(kind: Kind): seq<Action>
  {
    match kind
    case Osd => []
    case Mon(luminous, nautilusOrLater) =>
      (if luminous then [BootstrapManager] else []) + (if nautilusOrLater then [EnableMsgr2] else [])
  }

  function NextGate(todo: seq<Action>, now: real): Phase
  {
    if todo == [] then Finished else Barrier(todo, now, 0, now)
  }

  function AliveOf(store: Store, i: nat): AliveStamp
  {
    if i in store.alive then Stamp(store.alive[i]) else NoStamp
  }

  predicate ValidSleep(sleep: int)
  {
    SHORTEST_SLEEP <= sleep <= LONGEST_SLEEP
  }

  /** What one operation of a node leaves behind. */
  datatype Outcome = Outcome(phase: Phase, store: Store, history: History)

  /** wait_until, one poll on the predecessor's `start` key. */
  function PollStartOutcome(i: nat, p: Phase, now: real, store: Store, history: History, sleep: int): Outcome
    requires p.AwaitStart? && 0 < i
  {
    match UntilVerdict(i - 1 in store.startAt, now, p.since)
    case Proceed => Outcome(AwaitDone(now, now), store, history)
    case TimedOut => Outcome(Ready(now), store, history.(bypassed := history.bypassed + {i}))
    case _ => Outcome(AwaitStart(p.since, now + sleep as real), store, history)
  }

  /** timed_wait, one poll on the predecessor's `done` and `alive` keys. */
  function PollDoneOutcome(i: nat, p: Phase, now: real, store: Store, history: History, sleep: int): Outcome
    requires p.AwaitDone? && 0 < i
  {
    match TimedVerdict(i - 1 in store.doneAt, AliveOf(store, i - 1), now, p.since)
    case Proceed => Outcome(Ready(now), store, history)
    case KeepWaiting => Outcome(AwaitDone(p.since, now + sleep as real), store, history)
    case _ => Outcome(Ready(now), store, history.(bypassed := history.bypassed + {i}))
  }

  /**
   * wait_for_all_monitors_to_upgrade: the keys are read one after another; the first missing key ends the
   * scan. The time limit is checked after every scan, even one that found all keys.
   */
  function BarrierOutcome(c: Cluster, p: Phase, now: real, store: Store, history: History): Outcome
    requires p.Barrier?
  {
    var next :=
      if p.index < c.size && p.index in store.doneAt then p.(index := p.index + 1)
      else if now > p.since + BARRIER_TIMEOUT then Failed
      else if p.index < c.size then Barrier(p.todo, p.since, 0, now + BARRIER_SLEEP)
      else Passed(p.todo, now + BARRIER_SLEEP);
    Outcome(next, store, history)
  }

  /** Node `i` at phase `p` performs `op`; None when it cannot. */
  function Perform(c: Cluster, i: nat, p: Phase, now: real, store: Store, history: History, op: Op): Option<Outcome>
  {
    match op
    case Enter =>
      if p.Idle? then Some(Outcome(if i == 0 then Ready(now) else AwaitStart(now, now), store, history)) else None
    case PollStart(sleep) =>
      if p.AwaitStart? && 0 < i && p.nextPoll <= now && ValidSleep(sleep)
      then Some(PollStartOutcome(i, p, now, store, history, sleep)) else None
    case PollDone(sleep) =>
      if p.AwaitDone? && 0 < i && p.nextPoll <= now && ValidSleep(sleep)
      then Some(PollDoneOutcome(i, p, now, store, history, sleep)) else None
    case WriteStart =>
      if p.Ready? then
        Some(Outcome(Rolling(now, None, now), store.(startAt := store.startAt[i := now]),
                     if i in store.doneAt then history.(rerun := history.rerun + {i}) else history))
      else None
    case KickDog =>
      if !p.Rolling? then None
      else if KickDue(p.lastRun, KICK_INTERVAL, now) then
        Some(Outcome(Rolling(p.began, Some(now), now), store.(alive := store.alive[i := now]), history))
      else
        Some(Outcome(Rolling(p.began, p.lastRun, now), store, history))
    case WriteDone =>
      if p.Rolling?
      then Some(Outcome(NextGate(Gates(c.kind), now), store.(doneAt := store.doneAt[i := now]), history)) else None
    case ReadBarrier =>
      if p.Barrier? && p.nextRead <= now then Some(BarrierOutcome(c, p, now, store, history)) else None
    case Act =>
      if p.Passed? && p.todo != [] && p.wakeAt <= now then
        Some(Outcome(NextGate(p.todo[1..], now), store, history.(acted := history.acted + {(i, p.todo[0])})))
      else None
    case Crash =>
      if p.Finished? then None else Some(Outcome(Failed, store, history))
    case Retry =>
      if p.Failed? then Some(Outcome(Idle, store, history)) else None
  }

  ghost predicate Init(c: Cluster, s: State)
  {
    && s.now == 0.0
    && |s.phases| == c.size && (forall i :: 0 <= i < c.size ==> s.phases[i] == Idle)
    && s.store == Store(map[], map[], map[])
    && s.history == History({}, {}, {})
  }

  predicate NextStep(c: Cluster, s: State, s': State, step: Step)
  {
    match step
    case Tick(d) => d >= 0.0 && s' == s.(now := s.now + d)
    case Do(i, op) =>
      && i < |s.phases|
      && var r := Perform(c, i, s.phases[i], s.now, s.store, s.history, op);
         r.Some? && s' == State(s.now, s.phases[i := r.value.phase], r.value.store, r.value.history)
  }

  ghost predicate Next(c: Cluster, s: State, s': State)
  {
    exists step :: NextStep(c, s, s', step)
  }

  /** A run: a non-empty sequence of states from an initial one, each followed by a possible next one. */
  ghost predicate Run(c: Cluster, run: seq<State>)
  {
    && run != [] && Init(c, run[0])
    && forall k :: 0 < k < |run| ==> Next(c, run[k - 1], run[k])
  }

  // ----- What every step keeps -----

  /** Nodes that have published `start` but not `done`. */
  function Unfinished(s: State): set<nat>
  {
    s.store.startAt.Keys - s.store.doneAt.Keys
  }

  ghost function RollingNodes(s: State): set<nat>
  {
    set i | 0 <= i < |s.phases| && s.phases[i].Rolling?
  }

  /** All members have published `done`. */
  predicate AllDone(c: Cluster, store: Store)
  {
    forall j :: 0 <= j < c.size ==> j in store.doneAt
  }

  /** A node in this situation may go on to write its `start` key. */
  predicate Cleared(i: nat, store: Store, history: History)
  {
    i == 0 || i - 1 in store.doneAt || i in history.bypassed
  }

  /** The gates still ahead are a suffix of all gates. */
  predicate GatesAhead(c: Cluster, todo: seq<Action>)
  {
    var gates := Gates(c.kind);
    0 < |todo| <= |gates| && todo == gates[|gates| - |todo|..]
  }

  ghost predicate NodeOk(c: Cluster, i: nat, p: Phase, store: Store, history: History)
  {
    match p
    case Ready(_) => Cleared(i, store, history)
    case Rolling(_, _, _) => i in store.startAt && (i in store.doneAt ==> i in history.rerun)
    case Barrier(todo, _, index, _) =>
      GatesAhead(c, todo) && index <= c.size && forall j :: 0 <= j < index ==> j in store.doneAt
    case Passed(todo, _) => GatesAhead(c, todo) && AllDone(c, store)
    case Finished => i in store.doneAt
    case _ => true
  }

  /** The part of the invariant that is about published keys only. */
  ghost predicate KeysOk(c: Cluster, store: Store, history: History)
  {
    && (forall i {:trigger Cleared(i, store, history)} :: i in store.startAt ==>
      i < c.size && Cleared(i, store, history))
    && (forall i :: i in store.doneAt ==> i in store.startAt)
  }

  ghost predicate ActionsOk(c: Cluster, store: Store, history: History)
  {
    forall i, a :: (i, a) in history.acted ==> AllDone(c, store) && a in Gates(c.kind)
  }

  ghost predicate Inv(c: Cluster, s: State)
  {
    && |s.phases| == c.size
    && (forall i :: 0 <= i < c.size ==> NodeOk(c, i, s.phases[i], s.store, s.history))
    && KeysOk(c, s.store, s.history)
    && ActionsOk(c, s.store, s.history)
  }

  /** Published keys and recorded history are never withdrawn. */
  ghost predicate Grows(store: Store, history: History, store': Store, history': History)
  {
    && (forall i :: i in store.startAt ==> i in store'.startAt)
    && (forall i :: i in store.doneAt ==> i in store'.doneAt)
    && (forall i :: i in store.alive ==> i in store'.alive)
    && history.bypassed <= history'.bypassed && history.rerun <= history'.rerun && history.acted <= history'.acted
  }

  /** One operation: what it adds, and from which phase. */
  lemma PerformFrame(c: Cluster, i: nat, p: Phase, now: real, store: Store, history: History, op: Op)
    requires Perform(c, i, p, now, store, history, op).Some?
    ensures var o := Perform(c, i, p, now, store, history, op).value;
      && Grows(store, history, o.store, o.history)
      && (forall j :: j in o.store.startAt && j !in store.startAt ==> j == i && p.Ready?)
      && (forall j :: j in o.store.doneAt && j !in store.doneAt ==> j == i && p.Rolling?)
      && (o.history.acted != history.acted ==>
        p.Passed? && p.todo != [] && o.history.acted == history.acted + {(i, p.todo[0])})
  {
  }

  lemma PerformKeepsActorOk(c: Cluster, i: nat, p: Phase, now: real, store: Store, history: History, op: Op)
    requires Perform(c, i, p, now, store, history, op).Some?
    requires i < c.size && NodeOk(c, i, p, store, history)
    ensures var o := Perform(c, i, p, now, store, history, op).value; NodeOk(c, i, o.phase, o.store, o.history)
  {
  }

  lemma OthersStayOk(c: Cluster, i: nat, p: Phase, store: Store, history: History, store': Store, history': History)
    requires NodeOk(c, i, p, store, history)
    requires Grows(store, history, store', history') && (i in store'.doneAt ==> i in store.doneAt)
    ensures NodeOk(c, i, p, store', history')
  {
  }

  lemma StepGrows(c: Cluster, s: State, s': State)
    requires Next(c, s, s')
    ensures |s'.phases| == |s.phases| && s.now <= s'.now
    ensures Grows(s.store, s.history, s'.store, s'.history)
  {
    hide Perform;
    var step :| NextStep(c, s, s', step);
    if step.Do? {
      PerformFrame(c, step.i, s.phases[step.i], s.now, s.store, s.history, step.op);
    }
  }

  lemma StepKeepsInv(c: Cluster, s: State, s': State)
    requires Inv(c, s) && Next(c, s, s')
    ensures Inv(c, s')
  {
    hide Perform;
    var step :| NextStep(c, s, s', step);
    if step.Do? {
      var i, p := step.i, s.phases[step.i];
      assert NodeOk(c, i, p, s.store, s.history);
      PerformFrame(c, i, p, s.now, s.store, s.history, step.op);
      PerformKeepsActorOk(c, i, p, s.now, s.store, s.history, step.op);
      forall j | 0 <= j < c.size && j != i
        ensures NodeOk(c, j, s'.phases[j], s'.store, s'.history)
      {
        OthersStayOk(c, j, s.phases[j], s.store, s.history, s'.store, s'.history);
      }
      forall j | j in s'.store.startAt
        ensures j < c.size && Cleared(j, s'.store, s'.history)
      {
        assert j in s.store.startAt ==> Cleared(j, s.store, s.history);
      }
    }
  }

  lemma {:induction false} RunKeepsInv(c: Cluster, run: seq<State>, k: nat)
    requires Run(c, run) && k < |run|
    ensures Inv(c, run[k])
  {
    hide Next;
    if k > 0 {
      RunKeepsInv(c, run, k - 1);
      StepKeepsInv(c, run[k - 1], run[k]);
    }
  }

  /** Keys of a fresh version are monotone over a whole run. */
  lemma {:induction false} KeysAreMonotone(c: Cluster, run: seq<State>, j: nat, k: nat)
    requires Run(c, run) && j <= k < |run|
    ensures Grows(run[j].store, run[j].history, run[k].store, run[k].history)
  {
    hide Next;
    if j < k {
      KeysAreMonotone(c, run, j, k - 1);
      StepGrows(c, run[k - 1], run[k]);
    }
  }

  // ----- Mutual exclusion, up to bypasses -----

  /** Between two nodes that are both unfinished, some node must have gone ahead without waiting. */
  lemma {:induction false} UnfinishedPairNeedsBypass(c: Cluster, s: State, i: nat, j: nat) returns (k: nat)
    requires KeysOk(c, s.store, s.history) && i in Unfinished(s) && j in s.store.startAt && i < j
    ensures i < k <= j && k in s.history.bypassed
    decreases j
  {
    assert Cleared(j, s.store, s.history);
    if j in s.history.bypassed {
      k := j;
    } else {
      assert j - 1 in s.store.doneAt;
      assert i < j - 1;
      k := UnfinishedPairNeedsBypass(c, s, i, j - 1);
    }
  }

  ghost predicate IsMax(s: set<nat>, m: nat)
  {
    m in s && forall x :: x in s ==> x <= m
  }

  lemma {:induction false} MaxExists(s: set<nat>) returns (m: nat)
    requires s != {}
    ensures IsMax(s, m)
    decreases |s|
  {
    var x :| x in s;
    var rest := s - {x};
    if rest == {} {
      m := x;
      assert s == {x};
    } else {
      var m' := MaxExists(rest);
      m := if m' < x then x else m';
      assert forall y :: y in s ==> y == x || y in rest;
    }
  }

  /** Every gap between members of `u` holds a member of `b`, so `b` has at most one member less. */
  lemma {:induction false} SeparatedSets(u: set<nat>, b: set<nat>)
    requires forall i, j :: i in u && j in u && i < j ==> exists k :: k in b && i < k <= j
    ensures |u| <= 1 + |b|
    decreases |u|
  {
    if u != {} {
      var j := MaxExists(u);
      var rest := u - {j};
      if rest != {} {
        var i := MaxExists(rest);
        var k :| k in b && i < k <= j;
        forall x, y | x in rest && y in rest && x < y
          ensures exists k' :: k' in b - {k} && x < k' <= y
        {
          var k' :| k' in b && x < k' <= y;
          assert k' in b - {k};
        }
        SeparatedSets(rest, b - {k});
        assert |u| == |rest| + 1 && |b| == |b - {k}| + 1;
      } else {
        assert u == {j};
      }
    }
  }

  /**
   * In every reachable state at most one node more than those that went ahead is unfinished, and at most
   * that many, plus the nodes that repeat a roll they had finished, are rolling.
   */
  lemma UnfinishedBound(c: Cluster, run: seq<State>, n: nat)
    requires Run(c, run) && n < |run|
    ensures var s := run[n];
      && |Unfinished(s)| <= 1 + |s.history.bypassed|
      && |RollingNodes(s)| <= 1 + |s.history.bypassed| + |s.history.rerun|
      && forall i, j :: i in Unfinished(s) && j in Unfinished(s) && i < j ==>
        exists k :: k in s.history.bypassed && i < k <= j
  {
    var s := run[n];
    RunKeepsInv(c, run, n);
    forall i, j | i in Unfinished(s) && j in Unfinished(s) && i < j
      ensures exists k :: k in s.history.bypassed && i < k <= j
    {
      var k := UnfinishedPairNeedsBypass(c, s, i, j);
    }
    SeparatedSets(Unfinished(s), s.history.bypassed);
    forall i | i in RollingNodes(s)
      ensures i in Unfinished(s) + s.history.rerun
    {
      RollingIsUnfinished(c, s, i);
    }
    SubsetSize(RollingNodes(s), Unfinished(s) + s.history.rerun);
    UnionSize(Unfinished(s), s.history.rerun);
  }

  lemma RollingIsUnfinished(c: Cluster, s: State, i: nat)
    requires Inv(c, s) && i in RollingNodes(s)
    ensures i in Unfinished(s) || i in s.history.rerun
  {
    assert NodeOk(c, i, s.phases[i], s.store, s.history);
  }

  lemma {:induction false} SubsetSize(a: set<nat>, b: set<nat>)
    requires a <= b
    ensures |a| <= |b|
    decreases |a|
  {
    if a != {} {
      var x :| x in a;
      SubsetSize(a - {x}, b - {x});
    }
  }

  lemma {:induction false} UnionSize(a: set<nat>, b: set<nat>)
    ensures |a + b| <= |a| + |b|
    decreases |b|
  {
    if b != {} {
      var x :| x in b;
      UnionSize(a, b - {x});
      assert a + b == (a + (b - {x})) + {x};
    } else {
      assert a + b == a;
    }
  }

  /**
   * As long as nobody has gone ahead, the nodes that are done are exactly the first `d` of the member list,
   * only node `d` can have started besides them, and nobody else rolls for the first time.
   */
  lemma DoneIsPrefix(c: Cluster, run: seq<State>, n: nat) returns (d: nat)
    requires Run(c, run) && n < |run| && run[n].history.bypassed == {}
    ensures var s := run[n];
      && (forall i: nat :: i in s.store.doneAt <==> i < d)
      && (forall i: nat :: i in s.store.startAt ==> i <= d)
      && RollingNodes(s) <= {d} + s.history.rerun
  {
    var s := run[n];
    RunKeepsInv(c, run, n);
    hide Next;
    hide NodeOk;
    if s.store.doneAt.Keys == {} {
      d := 0;
    } else {
      var last := MaxExists(s.store.doneAt.Keys);
      d := last + 1;
      forall i | 0 <= i < d
        ensures i in s.store.doneAt
      {
        DoneBelowStarted(c, s, i, d - 1);
      }
    }
    forall i | i in s.store.startAt
      ensures i <= d
    {
      if i > 0 {
        assert Cleared(i, s.store, s.history);
      }
    }
    forall i | i in RollingNodes(s)
      ensures i in {d} + s.history.rerun
    {
      RollingIsUnfinished(c, s, i);
    }
  }

  lemma {:induction false} DoneBelowStarted(c: Cluster, s: State, i: nat, j: nat)
    requires KeysOk(c, s.store, s.history) && s.history.bypassed == {} && j in s.store.doneAt && i <= j
    ensures i in s.store.doneAt
    decreases j
  {
    if i < j {
      assert Cleared(j, s.store, s.history);
      DoneBelowStarted(c, s, i, j - 1);
    }
  }

  // ----- The barrier -----

  /**
   * When an action has run, at that state and at every later one all members have published `done`,
   * whoever went ahead, crashed or retried; only the actions that the version calls for ever run.
   */
  lemma BarrierHolds(c: Cluster, run: seq<State>, j: nat, k: nat, i: nat, a: Action)
    requires Run(c, run) && j <= k < |run| && (i, a) in run[j].history.acted
    ensures AllDone(c, run[j].store) && AllDone(c, run[k].store)
    ensures a in Gates(c.kind)
    ensures a == BootstrapManager ==> c.kind.Mon? && c.kind.luminous
    ensures a == EnableMsgr2 ==> c.kind.Mon? && c.kind.nautilusOrLater
  {
    RunKeepsInv(c, run, j);
    KeysAreMonotone(c, run, j, k);
  }

  lemma ActionStepNeedsAllDone(c: Cluster, s: State, s': State)
    requires Inv(c, s) && Next(c, s, s') && s'.history.acted != s.history.acted
    ensures AllDone(c, s.store)
  {
    hide Perform, KeysOk, ActionsOk;
    var step :| NextStep(c, s, s', step);
    assert NodeOk(c, step.i, s.phases[step.i], s.store, s.history);
    PerformFrame(c, step.i, s.phases[step.i], s.now, s.store, s.history, step.op);
  }

  lemma BarrierStep(c: Cluster, s: State, s': State, i: nat)
    requires Next(c, s, s') && |s.phases| == |s'.phases| && i < |s.phases| && s'.phases[i].Passed?
    ensures s'.phases[i] == s.phases[i] || (s'.phases[i].wakeAt == s.now + 30.0 && s'.now == s.now)
  {
  }

  /** A monitor that has passed a barrier wakes up half a minute after a moment at which all members were done. */
  lemma {:induction false} PassedSince(c: Cluster, run: seq<State>, k: nat, i: nat) returns (j: nat)
    requires Run(c, run) && k < |run| && i < |run[k].phases| && run[k].phases[i].Passed?
    ensures j <= k && AllDone(c, run[j].store) && run[j].now + 30.0 <= run[k].phases[i].wakeAt
  {
    hide Next;
    RunKeepsInv(c, run, k);
    RunKeepsInv(c, run, k - 1);
    hide Inv;
    BarrierStep(c, run[k - 1], run[k], i);
    if run[k].phases[i] == run[k - 1].phases[i] {
      j := PassedSince(c, run, k - 1, i);
    } else {
      j := k;
      assert NodeOk(c, i, run[k].phases[i], run[k].store, run[k].history);
    }
  }

  /** An action runs half a minute or more after a moment at which every member was done. */
  lemma ActionNeedsAllDone(c: Cluster, run: seq<State>, k: nat)
    requires Run(c, run) && 0 < k < |run| && run[k].history.acted != run[k - 1].history.acted
    ensures AllDone(c, run[k - 1].store)
    ensures exists j :: 0 <= j < k && AllDone(c, run[j].store) && run[j].now + 30.0 <= run[k].now
  {
    hide Inv, AllDone;
    RunKeepsInv(c, run, k - 1);
    ActionStepNeedsAllDone(c, run[k - 1], run[k]);
    var step :| NextStep(c, run[k - 1], run[k], step);
    var j := PassedSince(c, run, k - 1, step.i);
  }

  // ----- That the actions run -----

  /** luminous bootstraps the managers, nautilus and anything later enables msgr2. */
  predicate CalledFor(kind: Kind, a: Action)
  {
    kind.Mon? && match a case BootstrapManager => kind.luminous case EnableMsgr2 => kind.nautilusOrLater
  }

  /** An action that the version calls for is still ahead or has run, and msgr2 comes after the managers. */
  ghost predicate ActsOk(c: Cluster, i: nat, p: Phase, history: History)
  {
    && (forall a :: CalledFor(c.kind, a) ==>
         (p.Barrier? ==> a in p.todo || (i, a) in history.acted) &&
         (p.Passed? ==> a in p.todo || (i, a) in history.acted) &&
         (p == Finished ==> (i, a) in history.acted))
    && (CalledFor(c.kind, BootstrapManager) && (i, EnableMsgr2) in history.acted ==>
         (i, BootstrapManager) in history.acted)
  }

  lemma PerformKeepsActs(c: Cluster, i: nat, p: Phase, now: real, store: Store, history: History, op: Op)
    requires Perform(c, i, p, now, store, history, op).Some?
    requires NodeOk(c, i, p, store, history) && ActsOk(c, i, p, history)
    ensures var o := Perform(c, i, p, now, store, history, op).value; ActsOk(c, i, o.phase, o.history)
  {
    if op.Act? {
      ActKeepsActs(c, i, p, now, store, history);
    } else if op.WriteDone? {
      forall a | CalledFor(c.kind, a)
        ensures a in Gates(c.kind)
      {
        GateIsPlanned(c.kind, a);
      }
    } else {
      hide Gates, GatesAhead;
    }
  }

  lemma GateIsPlanned(kind: Kind, a: Action)
    requires CalledFor(kind, a)
    ensures a in Gates(kind)
  {
    var gates := Gates(kind);
    if a == BootstrapManager {
      assert gates[0] == a;
    } else {
      assert gates[|gates| - 1] == a;
    }
  }

  lemma GatesAheadAre(c: Cluster, todo: seq<Action>)
    requires GatesAhead(c, todo)
    ensures todo == [BootstrapManager] || todo == [EnableMsgr2] || todo == [BootstrapManager, EnableMsgr2]
  {
    var gates := Gates(c.kind);
    assert |gates| == 2 ==> gates == [BootstrapManager, EnableMsgr2];
    assert |gates| == 1 ==> todo == gates;
  }

  lemma ActKeepsActs(c: Cluster, i: nat, p: Phase, now: real, store: Store, history: History)
    requires p.Passed? && NodeOk(c, i, p, store, history) && ActsOk(c, i, p, history)
    ensures ActsOk(c, i, NextGate(p.todo[1..], now), history.(acted := history.acted + {(i, p.todo[0])}))
  {
    GatesAheadAre(c, p.todo);
    hide GatesAhead;
    assert |p.todo| == 2 ==> p.todo[1..] == [EnableMsgr2];
  }

  ghost predicate AllActsOk(c: Cluster, s: State)
  {
    forall i :: 0 <= i < |s.phases| ==> ActsOk(c, i, s.phases[i], s.history)
  }

  lemma StepKeepsActs(c: Cluster, s: State, s': State)
    requires Inv(c, s) && AllActsOk(c, s) && Next(c, s, s')
    ensures AllActsOk(c, s')
  {
    hide Perform, KeysOk, ActionsOk, NodeOk;
    var step :| NextStep(c, s, s', step);
    if step.Do? {
      var i, p := step.i, s.phases[step.i];
      assert NodeOk(c, i, p, s.store, s.history) && ActsOk(c, i, p, s.history);
      PerformFrame(c, i, p, s.now, s.store, s.history, step.op);
      PerformKeepsActs(c, i, p, s.now, s.store, s.history, step.op);
      forall j | 0 <= j < |s.phases| && j != i
        ensures ActsOk(c, j, s'.phases[j], s'.history)
      {
        assert ActsOk(c, j, s.phases[j], s.history);
      }
    }
  }

  lemma {:induction false} RunKeepsActs(c: Cluster, run: seq<State>, k: nat)
    requires Run(c, run) && k < |run|
    ensures AllActsOk(c, run[k])
  {
    hide Next, Inv;
    if k > 0 {
      RunKeepsActs(c, run, k - 1);
      RunKeepsInv(c, run, k - 1);
      StepKeepsActs(c, run[k - 1], run[k]);
    }
  }

  /** A monitor that has finished has run every action that its version calls for. */
  lemma FinishedHasActed(c: Cluster, run: seq<State>, k: nat, i: nat)
    requires Run(c, run) && k < |run| && i < |run[k].phases| && run[k].phases[i] == Finished
    ensures c.kind.Mon? && c.kind.luminous ==> (i, BootstrapManager) in run[k].history.acted
    ensures c.kind.Mon? && c.kind.nautilusOrLater ==> (i, EnableMsgr2) in run[k].history.acted
  {
    RunKeepsActs(c, run, k);
    assert ActsOk(c, i, run[k].phases[i], run[k].history);
    assert c.kind.Mon? && c.kind.luminous ==> CalledFor(c.kind, BootstrapManager);
    assert c.kind.Mon? && c.kind.nautilusOrLater ==> CalledFor(c.kind, EnableMsgr2);
  }

  /** When a monitor of luminous enables msgr2, it has bootstrapped the managers before. */
  lemma ManagersComeFirst(c: Cluster, run: seq<State>, k: nat, i: nat)
    requires Run(c, run) && 0 < k < |run| && i < |run[k].phases| && c.kind.Mon? && c.kind.luminous
    requires (i, EnableMsgr2) in run[k].history.acted && (i, EnableMsgr2) !in run[k - 1].history.acted
    ensures (i, BootstrapManager) in run[k - 1].history.acted
  {
    hide Inv, Perform;
    RunKeepsActs(c, run, k);
    assert ActsOk(c, i, run[k].phases[i], run[k].history) && CalledFor(c.kind, BootstrapManager);
    var step :| NextStep(c, run[k - 1], run[k], step);
    var s := run[k - 1];
    if step.Do? {
      PerformFrame(c, step.i, s.phases[step.i], s.now, s.store, s.history, step.op);
    }
  }
}
