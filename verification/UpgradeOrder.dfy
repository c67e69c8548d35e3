/** How the members of a cluster find their place in the upgrade queue without talking to each other. */
module UpgradeOrder {
  import opened Wrappers
  import opened Names

  /** First in line, behind a named node, or not in the list at all (the ValueError of both searches). */
  datatype Plan = First | Behind(previous: string) | NotAMember

  /** `myName` and its plan, told apart by the order of names alone. */
  ghost predicate PlanOk(members: set<string>, myName: string, plan: Plan)
  {
    match plan
    case NotAMember => myName !in members
    case First => IsLeast(members, myName)
    case Behind(previous) =>
      && myName in members && previous in members && Less(previous, myName)
      && forall x :: x in members && Less(x, myName) ==> x == previous || Less(x, previous)
  }

  ghost function NameSet(names: seq<string>): set<string>
  {
    set x | x in names
  }

  /** get_upgrade_position, and `list.index` on the monitor list: a search from the left. */
  method GetUpgradePosition(sorted: seq<string>, name: string) returns (position: Option<nat>)
    ensures position.Some? <==> name in sorted
    ensures position.Some? ==>
      var p := position.value;
      p < |sorted| && sorted[p] == name && forall j :: 0 <= j < p ==> sorted[j] != name
  {
    var index := 0;
    while index < |sorted|
      invariant index <= |sorted|
      invariant forall j :: 0 <= j < index ==> sorted[j] != name
    {
      if sorted[index] == name {
        return Some(index);
      }
      index := index + 1;
    }
    return None;
  }

  /** What a node decides from its sorted list; a host that hangs below two roots is listed twice. */
  method FindPlan(sorted: seq<string>, myName: string) returns (plan: Plan)
    requires Ascending(sorted)
    ensures PlanOk(NameSet(sorted), myName, plan)
  {
    var position := GetUpgradePosition(sorted, myName);
    if position.None? {
      return NotAMember;
    }
    var p := position.value;
    forall x | x in sorted && (Less(x, myName) || x != myName)
      ensures Less(x, myName) ==> exists j :: 0 <= j < p && sorted[j] == x
      ensures p == 0 ==> Less(myName, x)
    {
      var j :| 0 <= j < |sorted| && sorted[j] == x;
      if Less(x, myName) {
        LessAsymmetric(x, myName);
      }
    }
    plan := if p == 0 then First else Behind(sorted[p - 1]);
  }

  /**
   * The plan is fixed by the set of names: nodes whose lists come in different orders, or repeat names, agree.
   */
  lemma PlanIsUnique(members: set<string>, myName: string, plan1: Plan, plan2: Plan)
    requires PlanOk(members, myName, plan1) && PlanOk(members, myName, plan2)
    ensures plan1 == plan2
  {
    match (plan1, plan2)
    case (First, Behind(q)) =>
      LessAsymmetric(q, myName);
    case (Behind(q), First) =>
      LessAsymmetric(q, myName);
    case (Behind(q1), Behind(q2)) =>
      if q1 != q2 {
        LessAsymmetric(q1, q2);
      }
    case _ =>
  }

  /**
   * In the queue of all members, node `i` of the step system is the i-th name: the first goes first, and every other
   * one waits for the node before it and for no other.
   */
  lemma PlanOfPlace(members: set<string>, i: nat, plan: Plan)
    requires i < |SortedSet(members)|
    ensures PlanOk(members, SortedSet(members)[i], plan) <==>
      plan == if i == 0 then First else Behind(SortedSet(members)[i - 1])
  {
    var queue := SortedSet(members);
    var right := if i == 0 then First else Behind(queue[i - 1]);
    forall x | x in members && x != queue[i]
      ensures if Less(x, queue[i]) then i > 0 && (x == queue[i - 1] || Less(x, queue[i - 1])) else Less(queue[i], x)
    {
      OthersAround(queue, i, x);
    }
    assert queue[i] in queue;
    LessIrreflexive(queue[i]);
    if i > 0 {
      assert queue[i - 1] in queue && Less(queue[i - 1], queue[i]);
    }
    hide SortedSet, Less;
    assert PlanOk(members, queue[i], right);
    if PlanOk(members, queue[i], plan) {
      PlanIsUnique(members, queue[i], plan, right);
    }
  }

  lemma OthersAround(queue: seq<string>, i: nat, x: string)
    requires StrictlyAscending(queue) && i < |queue| && x in queue && x != queue[i]
    ensures if Less(x, queue[i]) then i > 0 && (x == queue[i - 1] || Less(x, queue[i - 1])) else Less(queue[i], x)
  {
    hide Less;
    var j :| 0 <= j < |queue| && queue[j] == x;
    if j > i {
      LessAsymmetric(queue[i], x);
    }
  }

  /** Monitors that list the same members in any order sort them into the same queue. */
  lemma QueuesAgree(list1: seq<string>, list2: seq<string>, queue1: seq<string>, queue2: seq<string>)
    requires multiset(list1) == multiset(list2)
    requires IsSortOf(queue1, list1) && IsSortOf(queue2, list2)
    ensures queue1 == queue2
  {
    SortIsUnique(queue1, queue2);
  }

  /** The plans form one queue: nobody shares a place, so no two nodes wait for the same predecessor. */
  lemma PlansFormAChain(members: set<string>, a: string, b: string, planA: Plan, planB: Plan)
    requires a in members && b in members && a != b
    requires PlanOk(members, a, planA) && PlanOk(members, b, planB)
    ensures planA != planB
    ensures planA == Behind(b) ==> planB != Behind(a)
  {
    LessTotal(a, b);
    if Less(a, b) {
      LessAsymmetric(a, b);
    } else {
      LessAsymmetric(b, a);
    }
    if planA.Behind? {
      LessAsymmetric(planA.previous, a);
    }
    if planB.Behind? {
      LessAsymmetric(planB.previous, b);
    }
  }

  /** Following the plans from any member leads to the first one: the position of each name is well founded. */
  lemma {:induction false} EveryMemberIsReached(members: set<string>, name: string) returns (chain: seq<string>)
    requires name in members
    ensures chain != [] && chain[|chain| - 1] == name && IsLeast(members, chain[0])
    ensures forall i :: 0 < i < |chain| ==> PlanOk(members, chain[i], Behind(chain[i - 1]))
    ensures forall x :: x in members && Less(x, name) ==> x in chain
    decreases Before(members, name)
  {
    var lower := Before(members, name);
    if lower == {} {
      chain := [name];
      forall y | y in members && y != name
        ensures Less(name, y)
      {
        LessTotal(name, y);
        assert y !in lower;
      }
      assert forall x :: x in members && Less(x, name) ==> x in lower;
    } else {
      var previous := GreatestExists(lower);
      forall x | x in Before(members, previous)
        ensures x in lower
      {
        LessTransitive(x, previous, name);
      }
      LessIrreflexive(previous);
      assert previous in lower && previous !in Before(members, previous);
      var upTo := EveryMemberIsReached(members, previous);
      chain := upTo + [name];
      forall x | x in members && Less(x, name)
        ensures x in chain
      {
        assert x in lower;
        assert x in upTo;
      }
    }
  }

  ghost function Before(members: set<string>, name: string): set<string>
  {
    set x | x in members && Less(x, name)
  }

  lemma {:induction false} GreatestExists(s: set<string>) returns (greatest: string)
    requires s != {}
    ensures greatest in s && forall x :: x in s ==> x == greatest || Less(x, greatest)
    decreases |s|
  {
    var x :| x in s;
    var rest := s - {x};
    if rest == {} {
      greatest := x;
      assert s == {x};
    } else {
      var m := GreatestExists(rest);
      LessTotal(m, x);
      greatest := if Less(m, x) then x else m;
      forall y | y in s
        ensures y == greatest || Less(y, greatest)
      {
        if y != x && Less(m, x) && y != m {
          LessTransitive(y, m, x);
        }
      }
    }
  }
}
