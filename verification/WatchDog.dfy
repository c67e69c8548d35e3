/**
 * The kickable timer between a node that is upgrading and the node that waits for it.
 * Times are seconds; store accesses and clock readings take no time, only sleeping does.
 */
module WatchDog {
  import opened Wrappers

  /** Configuration used by lock_and_roll and wait_on_previous_node. */
  const KICK_INTERVAL := 180.0
  const START_TIMEOUT := 1800
  const WAIT_TIME := 1800
  const COMPATIBILITY_WAIT_TIME := 600
  const MAX_KICK_INTERVAL := 300

  /** `random.randrange(5, 30)` */
  const SHORTEST_SLEEP := 5
  const LONGEST_SLEEP := 29

  // ----- The kicking side -----

  /** What the store holds under the `alive` key: nothing, a time, or text that is not a number. */
  datatype AliveStamp = NoStamp | Stamp(at: real) | Unparseable

  datatype Dog = Dog(lastRun: Option<real>, lastCall: Option<real>, stamps: seq<real>)

  const NewDog := Dog(None, None, [])

  predicate KickDue(lastRun: Option<real>, interval: real, now: real)
  {
    lastRun.None? || now - lastRun.value > interval
  }

  /** One call of kick_the_dog at time `now`. */
  function Kick(d: Dog, interval: real, now: real): Dog
  {
    if KickDue(d.lastRun, interval, now) then
      Dog(Some(now), Some(now), d.stamps + [now])
    else
      d.(lastCall := Some(now))
  }

  /** The dog after calls at the given times. */
  function KickAll(interval: real, calls: seq<real>): Dog
  {
    if calls == [] then NewDog else Kick(KickAll(interval, calls[..|calls| - 1]), interval, calls[|calls| - 1])
  }

  /** The object itself; `stamps` records when the kick function has run. */
  class Kicker {
    const kickInterval: real
    var lastRunFunc: Option<real>
    var lastKickAt: Option<real>
    ghost var stamps: seq<real>

    ghost function State(): Dog
      reads this
    {
      Dog(lastRunFunc, lastKickAt, stamps)
    }

    constructor (kickInterval: real)
      ensures this.kickInterval == kickInterval
      ensures State() == NewDog
    {
      this.kickInterval := kickInterval;
      lastRunFunc := None;
      lastKickAt := None;
      stamps := [];
    }

    method KickTheDog(now: real) returns (kicked: bool)
      modifies this
      ensures State() == Kick(old(State()), kickInterval, now)
      ensures kicked <==> stamps == old(stamps) + [now]
      ensures !kicked <==> stamps == old(stamps)
    {
      kicked := lastRunFunc.None? || now - lastRunFunc.value > kickInterval;
      if kicked {
        stamps := stamps + [now];
        lastRunFunc := Some(now);
      }
      lastKickAt := Some(now);
    }
  }

  /** Calls in the order of time, never more than `gap` apart. */
  ghost predicate Regular(calls: seq<real>, gap: real)
  {
    forall i :: 0 < i < |calls| ==> calls[i - 1] <= calls[i] <= calls[i - 1] + gap
  }

  lemma {:induction false} KickAllFacts(interval: real, calls: seq<real>, gap: real)
    requires Regular(calls, gap) && interval >= 0.0
    ensures var d := KickAll(interval, calls);
      if calls == [] then d == NewDog
      else
        && d.lastCall == Some(calls[|calls| - 1])
        && d.lastRun.Some?
        && d.stamps != [] && d.lastRun.value == d.stamps[|d.stamps| - 1]
        && d.lastRun.value <= calls[|calls| - 1] <= d.lastRun.value + interval
  {
    if calls != [] {
      KickAllFacts(interval, calls[..|calls| - 1], gap);
    }
  }

  /** However often the function is called, successive `alive` writes lie more than the interval apart. */
  lemma {:induction false} StampsAreSpaced(interval: real, calls: seq<real>, gap: real)
    requires Regular(calls, gap) && interval >= 0.0
    ensures var stamps := KickAll(interval, calls).stamps;
      forall i :: 0 < i < |stamps| ==> stamps[i] - stamps[i - 1] > interval
  {
    if calls != [] {
      var before := calls[..|calls| - 1];
      StampsAreSpaced(interval, before, gap);
      KickAllFacts(interval, before, gap);
    }
  }

  /** A waiter looks at time `now`, when the kicker has called at `calls` and its next call is not overdue. */
  ghost predicate Live(calls: seq<real>, gap: real, now: real)
  {
    calls != [] && Regular(calls, gap) && calls[|calls| - 1] <= now <= calls[|calls| - 1] + gap
  }

  /** The value under the `alive` key after those calls. */
  function AliveKey(interval: real, calls: seq<real>): AliveStamp
  {
    var d := KickAll(interval, calls);
    if d.lastRun.None? then NoStamp else Stamp(d.lastRun.value)
  }

  ghost predicate NeverPresumedDead(gap: real)
  {
    forall calls: seq<real>, now: real, since: real, done: bool ::
      Live(calls, gap, now) ==> TimedVerdict(done, AliveKey(KICK_INTERVAL, calls), now, since) != Dead
  }

  lemma LiveNodeIsNotDead(calls: seq<real>, gap: real, now: real, since: real, done: bool)
    requires Live(calls, gap, now) && gap <= 120.0
    ensures TimedVerdict(done, AliveKey(KICK_INTERVAL, calls), now, since) != Dead
  {
    KickAllFacts(KICK_INTERVAL, calls, gap);
  }

  /** Two minutes between calls is exactly what the two intervals of 180 and 300 seconds tolerate. */
  lemma TwoMinutesIsTheLimit(gap: real)
    ensures NeverPresumedDead(gap) <==> gap <= 120.0
  {
    if gap <= 120.0 {
      forall calls: seq<real>, now: real, since: real, done: bool | Live(calls, gap, now)
        ensures TimedVerdict(done, AliveKey(KICK_INTERVAL, calls), now, since) != Dead
      {
        LiveNodeIsNotDead(calls, gap, now, since, done);
      }
    } else {
      var calls := [0.0, 90.0, 180.0];
      assert calls[..2] == [0.0, 90.0] && calls[..2][..1] == [0.0] && calls[..2][..1][..0] == [];
      assert KickAll(KICK_INTERVAL, [0.0]) == Dog(Some(0.0), Some(0.0), [0.0]);
      assert KickAll(KICK_INTERVAL, [0.0, 90.0]) == Dog(Some(0.0), Some(90.0), [0.0]);
      assert AliveKey(KICK_INTERVAL, calls) == Stamp(0.0);
      assert Live(calls, gap, 180.0 + gap);
      assert TimedVerdict(false, AliveKey(KICK_INTERVAL, calls), 180.0 + gap, 0.0) == Dead;
    }
  }

  // ----- The waiting side -----

  /** What one poll decides. */
  datatype Verdict = Proceed | KeepWaiting | TimedOut | Dead | BadStamp

  /** One round of wait_until. */
  function UntilVerdict(observed: bool, now: real, since: real): Verdict
  {
    if observed then Proceed
    else if now > since + START_TIMEOUT as real then TimedOut
    else KeepWaiting
  }

  /** One round of timed_wait: completion first, then the kick, then the overall limit. */
  function TimedVerdict(complete: bool, kickedAt: AliveStamp, now: real, since: real): Verdict
  {
    if complete then Proceed
    else if kickedAt.NoStamp? && now - since > COMPATIBILITY_WAIT_TIME as real then TimedOut
    else if kickedAt.Unparseable? then BadStamp
    else if kickedAt.Stamp? && now - kickedAt.at > MAX_KICK_INTERVAL as real then Dead
    else if now - since > WAIT_TIME as real then TimedOut
    else KeepWaiting
  }

  ghost predicate Sleeps(delays: nat -> int)
  {
    forall k: nat :: SHORTEST_SLEEP <= delays(k) <= LONGEST_SLEEP
  }

  /** Seconds slept before poll number `k` (counting from 0). */
  function Elapsed(delays: nat -> int, k: nat): int
  {
    if k == 0 then 0 else Elapsed(delays, k - 1) + delays(k - 1)
  }

  lemma {:induction false} ElapsedBounds(delays: nat -> int, k: nat)
    requires Sleeps(delays)
    ensures SHORTEST_SLEEP * k <= Elapsed(delays, k) <= LONGEST_SLEEP * k
  {
    if k > 0 {
      ElapsedBounds(delays, k - 1);
    }
  }

  /** The clock at poll `k` of a wait that began at `start`. */
  function PollTime(start: real, delays: nat -> int, k: nat): real
  {
    start + Elapsed(delays, k) as real
  }

  /** A wait of which no poll can decide to go on later than `limit` seconds ends at poll 362 within 1829 seconds. */
  lemma PollBound(delays: nat -> int, last: nat)
    requires Sleeps(delays)
    requires forall k: nat :: k < last ==> Elapsed(delays, k) <= START_TIMEOUT
    ensures last < 362 && Elapsed(delays, last) <= 1829
  {
    if last > 0 {
      assert Elapsed(delays, last - 1) <= START_TIMEOUT;
      ElapsedBounds(delays, last - 1);
    }
  }

  /**
   * wait_until with the 30 minute timeout. `observed(k)` is what the awaited function answers at poll `k`
   * and `delays(k)` the sleep that follows; nothing is known about either.
   */
  method WaitUntil(observed: nat -> bool, delays: nat -> int, start: real)
      returns (verdict: Verdict, now: real, polls: nat)
    requires Sleeps(delays)
    ensures 0 < polls <= 362
    ensures now == PollTime(start, delays, polls - 1) && now <= start + 1829.0
    ensures verdict == UntilVerdict(observed(polls - 1), now, start)
    ensures verdict == Proceed || verdict == TimedOut
    ensures verdict == Proceed <==> observed(polls - 1)
    ensures verdict == TimedOut ==> now > start + 1800.0
    ensures forall k: nat :: k < polls - 1 ==>
      UntilVerdict(observed(k), PollTime(start, delays, k), start) == KeepWaiting
  {
    now := start;
    polls := 0;
    while true
      invariant now == PollTime(start, delays, polls)
      invariant forall k: nat :: k < polls ==>
        UntilVerdict(observed(k), PollTime(start, delays, k), start) == KeepWaiting
      invariant polls < 362 && now <= start + 1829.0
      decreases 362 - polls
    {
      verdict := UntilVerdict(observed(polls), now, start);
      polls := polls + 1;
      if verdict != KeepWaiting {
        return;
      }
      now := now + delays(polls - 1) as real;
      forall k: nat | k < polls
        ensures Elapsed(delays, k) <= START_TIMEOUT
      {
        assert UntilVerdict(observed(k), PollTime(start, delays, k), start) == KeepWaiting;
      }
      PollBound(delays, polls);
    }
  }

  /**
   * Why a wait for completion ends without it: ten minutes without any kick, a text that is no number, five minutes
   * since the last kick, or thirty minutes in all.
   */
  predicate GivesUpRightly(verdict: Verdict, kickedAt: AliveStamp, now: real, start: real)
  {
    match verdict
    case Proceed => true
    case KeepWaiting => false
    case BadStamp => kickedAt.Unparseable?
    case Dead => kickedAt.Stamp? && now > kickedAt.at + 300.0
    case TimedOut =>
      (kickedAt.NoStamp? && now > start + 600.0) ||
      (kickedAt.Stamp? && now <= kickedAt.at + 300.0 && now > start + 1800.0)
  }

  /** timed_wait as wait_on_previous_node calls it; `complete` and `kickedAt` answer poll by poll. */
  method TimedWait(complete: nat -> bool, kickedAt: nat -> AliveStamp, delays: nat -> int, start: real)
      returns (verdict: Verdict, now: real, polls: nat)
    requires Sleeps(delays)
    ensures 0 < polls <= 362
    ensures now == PollTime(start, delays, polls - 1) && now <= start + 1829.0
    ensures verdict == TimedVerdict(complete(polls - 1), kickedAt(polls - 1), now, start) != KeepWaiting
    ensures verdict == Proceed <==> complete(polls - 1)
    ensures GivesUpRightly(verdict, kickedAt(polls - 1), now, start)
    ensures (forall k: nat :: kickedAt(k).NoStamp?) && verdict != Proceed ==> start + 600.0 < now <= start + 629.0
    ensures forall k: nat :: k < polls - 1 ==>
      TimedVerdict(complete(k), kickedAt(k), PollTime(start, delays, k), start) == KeepWaiting
  {
    now := start;
    polls := 0;
    while true
      invariant now == PollTime(start, delays, polls)
      invariant forall k: nat :: k < polls ==>
        TimedVerdict(complete(k), kickedAt(k), PollTime(start, delays, k), start) == KeepWaiting
      invariant (forall k: nat :: kickedAt(k).NoStamp?) ==> now <= start + 629.0
      invariant polls < 362 && now <= start + 1829.0
      decreases 362 - polls
    {
      verdict := TimedVerdict(complete(polls), kickedAt(polls), now, start);
      polls := polls + 1;
      if verdict != KeepWaiting {
        return;
      }
      now := now + delays(polls - 1) as real;
      forall k: nat | k < polls
        ensures Elapsed(delays, k) <= START_TIMEOUT
      {
        assert TimedVerdict(complete(k), kickedAt(k), PollTime(start, delays, k), start) == KeepWaiting;
      }
      PollBound(delays, polls);
    }
  }

  /** How wait_on_previous_node lets its caller go on; BadStamp is the ValueError that it does not catch. */
  datatype WaitEnd = SawDone | NeverStarted | PresumedDead | TookTooLong | ValueError

  /** Everything the waiter can read from the store, poll by poll, and the sleeps between the polls. */
  datatype Environment = Environment(
    started: nat -> bool, startDelays: nat -> int,
    done: nat -> bool, alive: nat -> AliveStamp, doneDelays: nat -> int)

  /** What the last poll must have decided for this end. */
  function Cause(end: WaitEnd): Verdict
  {
    match end
    case SawDone => Proceed
    case NeverStarted => TimedOut
    case PresumedDead => Dead
    case TookTooLong => TimedOut
    case ValueError => BadStamp
  }

  /** The first `n` polls on the `start` key, and on the `done` and `alive` keys, all decide to go on waiting. */
  ghost predicate StartPollsGoOn(env: Environment, start: real, n: int)
  {
    forall k: nat :: k < n ==> UntilVerdict(env.started(k), PollTime(start, env.startDelays, k), start) == KeepWaiting
  }

  ghost predicate DonePollsGoOn(env: Environment, since: real, n: int)
  {
    forall k: nat :: k < n ==>
      TimedVerdict(env.done(k), env.alive(k), PollTime(since, env.doneDelays, k), since) == KeepWaiting
  }

  /** `n` and `m` count the polls of the two phases; the second phase begins when the first has seen `start`. */
  method WaitOnPreviousNode(env: Environment, start: real) returns (end: WaitEnd, now: real, n: nat, m: nat)
    requires Sleeps(env.startDelays) && Sleeps(env.doneDelays)
    ensures start <= now <= start + 3658.0 && n + m <= 724
    ensures 0 < n && StartPollsGoOn(env, start, n - 1)
    ensures end == NeverStarted <==> !env.started(n - 1)
    ensures end == NeverStarted ==> m == 0 && now == PollTime(start, env.startDelays, n - 1) && now > start + 1800.0
    ensures end != NeverStarted ==>
      var since := PollTime(start, env.startDelays, n - 1);
      && 0 < m && DonePollsGoOn(env, since, m - 1) && now == PollTime(since, env.doneDelays, m - 1)
      && TimedVerdict(env.done(m - 1), env.alive(m - 1), now, since) == Cause(end)
  {
    var verdict, at;
    verdict, at, n := WaitUntil(env.started, env.startDelays, start);
    ElapsedBounds(env.startDelays, n - 1);
    if verdict == TimedOut {
      return NeverStarted, at, n, 0;
    }
    verdict, now, m := TimedWait(env.done, env.alive, env.doneDelays, at);
    ElapsedBounds(env.doneDelays, m - 1);
    match verdict
    case Proceed =>
      end := SawDone;
    case Dead =>
      end := PresumedDead;
    case TimedOut =>
      end := TookTooLong;
    case _ =>
      end := ValueError;
  }
}
