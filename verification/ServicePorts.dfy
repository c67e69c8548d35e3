/** The service manager: readiness events, the persisted ready set, and the ports that each service owns. */
module ServicePorts {
  import opened Wrappers

  /** A registered service; `requiredData` holds the truth value of each required item. */
  datatype Definition = Definition(ports: seq<int>, requiredData: seq<bool>)

  datatype Action =
    | DataReady(service: string)
    | DataLost(service: string)
    | Restart(service: string)
    | Stop(service: string)
    | Ports(service: string, opening: bool)

  /** What outlives a hook: port files, open ports, the ready file, and the actions performed so far. */
  datatype World = World(files: map<string, seq<int>>, open: set<int>, ready: set<string>, trace: seq<Action>)

  predicate IsReady(d: Definition)
  {
    forall i :: 0 <= i < |d.requiredData| ==> d.requiredData[i]
  }

  function Elements(ports: seq<int>): set<int>
  {
    set p | p in ports
  }

  // ----- What each call does to the world -----

  function AfterPorts(w: World, s: string, ports: seq<int>, start: bool): World
  {
    var recorded := if s in w.files then w.files[s] else [];
    var kept := w.open - (Elements(recorded) - Elements(ports));
    w.(files := w.files[s := ports],
       open := if start then kept + Elements(ports) else kept - Elements(ports),
       trace := w.trace + [Ports(s, start)])
  }

  /** The default start callbacks: the service first, then its ports. */
  function AfterStart(w: World, s: string, ports: seq<int>): World
  {
    AfterPorts(w.(trace := w.trace + [Restart(s)]), s, ports, true)
  }

  /** The default stop callbacks: the ports first, then the service. */
  function AfterStop(w: World, s: string, ports: seq<int>): World
  {
    var closed := AfterPorts(w, s, ports, false);
    closed.(trace := closed.trace + [Stop(s)])
  }

  function AfterReconfigure(w: World, s: string, d: Definition): World
  {
    if IsReady(d) then
      var started := AfterStart(w.(trace := w.trace + [DataReady(s)]), s, d.ports);
      started.(ready := started.ready + {s})
    else
      var told := if s in w.ready then w.(trace := w.trace + [DataLost(s)]) else w;
      var stopped := AfterStop(told, s, d.ports);
      stopped.(ready := stopped.ready - {s})
  }

  datatype Operation = ReconfigureServices | StopServices

  /** The targets in order, up to the first that is not registered (a KeyError). */
  function AfterTargets(w: World, op: Operation, targets: seq<string>, defs: map<string, Definition>): World
    decreases targets
  {
    if targets == [] || targets[0] !in defs then w
    else
      var s := targets[0];
      var next := if op.StopServices? then AfterStop(w, s, defs[s].ports) else AfterReconfigure(w, s, defs[s]);
      AfterTargets(next, op, targets[1..], defs)
  }

  /** A call, made by a manager that a hook has set up with its own definitions. */
  datatype Call = Call(op: Operation, names: seq<string>, order: seq<string>, defs: map<string, Definition>)

  function Targets(names: seq<string>, order: seq<string>): seq<string>
  {
    if names == [] then order else names
  }

  function AfterCall(w: World, c: Call): World
  {
    AfterTargets(w, c.op, Targets(c.names, c.order), c.defs)
  }

  function AfterCalls(w: World, calls: seq<Call>): World
  {
    if calls == [] then w else AfterCall(AfterCalls(w, calls[..|calls| - 1]), calls[|calls| - 1])
  }

  // ----- No leaked ports -----

  /** The last thing done to the service was to (re)start it. */
  predicate Up(trace: seq<Action>, s: string)
  {
    trace != [] &&
    var last := trace[|trace| - 1];
    last == Restart(s) || (last != Stop(s) && Up(trace[..|trace| - 1], s))
  }

  /** No shared ports: every port has one service that may list it, and none is in `foreign`. */
  ghost predicate NoSharing(c: Call, owner: int -> string, foreign: set<int>)
  {
    forall s, p :: s in c.defs && p in c.defs[s].ports ==> owner(p) == s && p !in foreign
  }

  /** Exactly the ports recorded for the services that are up are open, besides the foreign ones. */
  ghost predicate NoLeaks(w: World, owner: int -> string, foreign: set<int>)
  {
    && (forall s, p :: s in w.files && p in w.files[s] ==> owner(p) == s && p !in foreign)
    && (forall p :: p in w.open <==>
         p in foreign || (owner(p) in w.files && p in w.files[owner(p)] && Up(w.trace, owner(p))))
  }

  lemma UpAfter(trace: seq<Action>, a: Action, s: string)
    ensures Up(trace + [a], s) <==> a == Restart(s) || (a != Stop(s) && Up(trace, s))
  {
    assert (trace + [a])[..|trace|] == trace;
  }

  /** What a stop adds to the trace leaves the service down and the others as they were. */
  lemma UpAfterStop(trace: seq<Action>, s: string, t: string)
    ensures Up(trace + [Ports(s, false)] + [Stop(s)], t) <==> t != s && Up(trace, t)
  {
    hide Up;
    UpAfter(trace, Ports(s, false), t);
    UpAfter(trace + [Ports(s, false)], Stop(s), t);
  }

  lemma PortsFollowService(w: World, s: string, ports: seq<int>, start: bool, trace: seq<Action>,
                           owner: int -> string, foreign: set<int>)
    requires NoLeaks(w, owner, foreign)
    requires forall p :: p in ports ==> owner(p) == s && p !in foreign
    requires Up(trace, s) == start && forall t :: t != s ==> Up(trace, t) == Up(w.trace, t)
    ensures NoLeaks(AfterPorts(w, s, ports, start).(trace := trace), owner, foreign)
    ensures forall p :: owner(p) != s ==> (p in AfterPorts(w, s, ports, start).open <==> p in w.open)
  {
    hide Up;
    var v := AfterPorts(w, s, ports, start).(trace := trace);
    forall p
      ensures owner(p) != s ==> (p in v.open <==> p in w.open)
      ensures p in v.open <==> p in foreign || (owner(p) in v.files && p in v.files[owner(p)] && Up(v.trace, owner(p)))
    {
      if owner(p) != s {
        assert p !in Elements(ports);
        assert s in w.files ==> p !in Elements(w.files[s]);
      }
    }
  }

  /**
   * One service: a start leaves open exactly the ports it lists, a stop none of its ports; the ports of other
   * services and foreign ports stay as they are.
   */
  lemma ReconfigureSettlesPorts(w: World, s: string, d: Definition, owner: int -> string, foreign: set<int>)
    requires NoLeaks(w, owner, foreign) && forall p :: p in d.ports ==> owner(p) == s && p !in foreign
    ensures var v := AfterReconfigure(w, s, d);
      && NoLeaks(v, owner, foreign)
      && (forall p :: owner(p) == s && p !in foreign ==> (p in v.open <==> IsReady(d) && p in d.ports))
      && (forall p :: owner(p) != s ==> (p in v.open <==> p in w.open))
  {
    var v := AfterReconfigure(w, s, d);
    forall t
      ensures Up(v.trace, t) <==> if t == s then IsReady(d) else Up(w.trace, t)
    {
      TraceAfter(w, s, d, t);
    }
    hide Up;
    PortsFollowService(w, s, d.ports, IsReady(d), v.trace, owner, foreign);
  }

  lemma StopSettlesPorts(w: World, s: string, ports: seq<int>, owner: int -> string, foreign: set<int>)
    requires NoLeaks(w, owner, foreign) && forall p :: p in ports ==> owner(p) == s && p !in foreign
    ensures NoLeaks(AfterStop(w, s, ports), owner, foreign)
    ensures forall p :: owner(p) == s && p !in foreign ==> p !in AfterStop(w, s, ports).open
  {
    var trace := w.trace + [Ports(s, false)] + [Stop(s)];
    forall t
      ensures Up(trace, t) <==> t != s && Up(w.trace, t)
    {
      UpAfterStop(w.trace, s, t);
    }
    hide Up;
    PortsFollowService(w, s, ports, false, trace, owner, foreign);
  }

  lemma {:induction false} TargetsKeepNoLeaks(w: World, op: Operation, targets: seq<string>, c: Call,
                                              owner: int -> string, foreign: set<int>)
    requires NoLeaks(w, owner, foreign) && NoSharing(c, owner, foreign)
    ensures NoLeaks(AfterTargets(w, op, targets, c.defs), owner, foreign)
    decreases targets
  {
    if targets != [] && targets[0] in c.defs {
      var s := targets[0];
      ReconfigureSettlesPorts(w, s, c.defs[s], owner, foreign);
      StopSettlesPorts(w, s, c.defs[s].ports, owner, foreign);
      hide NoLeaks, AfterStop, AfterReconfigure;
      var w' := if op.StopServices? then AfterStop(w, s, c.defs[s].ports) else AfterReconfigure(w, s, c.defs[s]);
      TargetsKeepNoLeaks(w', op, targets[1..], c, owner, foreign);
    }
  }

  /** Over any sequence of calls, with readiness and port lists changing at will, no port is leaked. */
  lemma {:induction false} NoLeakedPorts(w: World, calls: seq<Call>, owner: int -> string, foreign: set<int>)
    requires NoLeaks(w, owner, foreign) && forall i :: 0 <= i < |calls| ==> NoSharing(calls[i], owner, foreign)
    ensures NoLeaks(AfterCalls(w, calls), owner, foreign)
  {
    if calls != [] {
      var n := |calls| - 1;
      NoLeakedPorts(w, calls[..n], owner, foreign);
      TargetsKeepNoLeaks(AfterCalls(w, calls[..n]), calls[n].op, Targets(calls[n].names, calls[n].order), calls[n],
                         owner, foreign);
    }
  }

  // ----- Whom a call reaches -----

  /** The service is as its definition has it: ready and up if all its data is there, and not otherwise. */
  ghost predicate IsSettled(w: World, s: string, d: Definition)
  {
    && (s in w.ready <==> false !in d.requiredData)
    && (Up(w.trace, s) <==> false !in d.requiredData)
    && s in w.files && w.files[s] == d.ports
  }

  ghost predicate IsUntouched(w: World, w': World, s: string)
  {
    && (s in w'.ready <==> s in w.ready) && (Up(w'.trace, s) <==> Up(w.trace, s))
    && (s in w'.files <==> s in w.files) && (s in w.files ==> w'.files[s] == w.files[s])
  }

  lemma ReconfigureSettles(w: World, s: string, d: Definition, t: string)
    ensures var v := AfterReconfigure(w, s, d); if t == s then IsSettled(v, s, d) else IsUntouched(w, v, t)
  {
    TraceAfter(w, s, d, t);
    hide Up;
    assert IsReady(d) <==> false !in d.requiredData by {
      if !IsReady(d) {
        var i :| 0 <= i < |d.requiredData| && !d.requiredData[i];
        assert d.requiredData[i] in d.requiredData;
      }
    }
    PortsAreRecorded(w, s, d, t);
  }

  lemma PortsAreRecorded(w: World, s: string, d: Definition, t: string)
    ensures var v := AfterReconfigure(w, s, d);
      && (t == s ==> s in v.files && v.files[s] == d.ports)
      && (t != s ==> (t in v.files <==> t in w.files) && (t in w.files ==> v.files[t] == w.files[t]))
  {
  }

  lemma {:induction false} TargetsSettle(w: World, targets: seq<string>, defs: map<string, Definition>, s: string)
    requires forall t :: t in targets ==> t in defs
    ensures var w' := AfterTargets(w, ReconfigureServices, targets, defs);
      if s in targets then IsSettled(w', s, defs[s]) else IsUntouched(w, w', s)
    decreases targets
  {
    if targets != [] {
      var first := targets[0];
      assert first in targets;
      ReconfigureSettles(w, first, defs[first], s);
      hide AfterReconfigure, Up;
      TargetsSettle(AfterReconfigure(w, first, defs[first]), targets[1..], defs, s);
    }
  }

  /** A call without names settles every registered service, one with names exactly those. */
  lemma CallSettles(w: World, c: Call, s: string)
    requires c.op == ReconfigureServices && (forall t :: t in c.order <==> t in c.defs)
    requires s in c.defs && forall t :: t in c.names ==> t in c.defs
    ensures if c.names == [] || s in c.names then IsSettled(AfterCall(w, c), s, c.defs[s])
            else IsUntouched(w, AfterCall(w, c), s)
  {
    TargetsSettle(w, if c.names == [] then c.order else c.names, c.defs, s);
    hide IsSettled, IsUntouched, AfterTargets;
  }

  lemma {:induction false} TargetsStop(w: World, targets: seq<string>, defs: map<string, Definition>, s: string)
    requires forall t :: t in targets ==> t in defs
    ensures var w' := AfterTargets(w, StopServices, targets, defs);
      w'.ready == w.ready && (Up(w'.trace, s) <==> s !in targets && Up(w.trace, s))
    decreases targets
  {
    if targets != [] {
      var first := targets[0];
      assert first in targets;
      UpAfterStop(w.trace, first, s);
      hide Up;
      TargetsStop(AfterStop(w, first, defs[first].ports), targets[1..], defs, s);
    }
  }

  /** A stop without names stops every registered service, one with names exactly those; readiness is kept. */
  lemma CallStops(w: World, c: Call, s: string)
    requires c.op == StopServices && (forall t :: t in c.order <==> t in c.defs)
    requires s in c.defs && forall t :: t in c.names ==> t in c.defs
    ensures AfterCall(w, c).ready == w.ready
    ensures Up(AfterCall(w, c).trace, s) <==> c.names != [] && s !in c.names && Up(w.trace, s)
  {
    TargetsStop(w, if c.names == [] then c.order else c.names, c.defs, s);
    hide Up, AfterTargets;
  }

  // ----- When port lists are safe -----

  /** The same without an owner: open are the foreign ports and those recorded for services that are up. */
  ghost predicate NothingLeaks(w: World, foreign: set<int>)
  {
    forall p :: p in w.open <==> p in foreign || exists s :: s in w.files && p in w.files[s] && Up(w.trace, s)
  }

  /** No two services list the same port, and none lists a foreign one. */
  predicate Unshared(ports: map<string, seq<int>>, foreign: set<int>)
  {
    && (forall s, t, p :: s in ports && t in ports && p in ports[s] && p in ports[t] ==> s == t)
    && (forall s, p :: s in ports && p in ports[s] ==> p !in foreign)
  }

  /** Every service is registered with its list, whatever its readiness. */
  predicate UsesLists(c: Call, ports: map<string, seq<int>>)
  {
    forall s :: s in c.defs ==> s in ports && c.defs[s].ports == ports[s]
  }

  predicate AllUseLists(calls: seq<Call>, ports: map<string, seq<int>>)
  {
    forall i :: 0 <= i < |calls| ==> UsesLists(calls[i], ports)
  }

  /** The world before any call: no port files, and only foreign ports open. */
  function Start(foreign: set<int>, ready: set<string>): World
  {
    World(map[], foreign, ready, [])
  }

  ghost predicate NeverLeaks(ports: map<string, seq<int>>, foreign: set<int>)
  {
    forall ready: set<string>, calls: seq<Call> ::
      AllUseLists(calls, ports) ==> NothingLeaks(AfterCalls(Start(foreign, ready), calls), foreign)
  }

  ghost function OwnerOf(ports: map<string, seq<int>>): int -> string
  {
    p => if exists s :: s in ports && p in ports[s] then var s :| s in ports && p in ports[s]; s else ""
  }

  lemma UnsharedNeverLeaks(ports: map<string, seq<int>>, foreign: set<int>, ready: set<string>, calls: seq<Call>)
    requires Unshared(ports, foreign) && AllUseLists(calls, ports)
    ensures NothingLeaks(AfterCalls(Start(foreign, ready), calls), foreign)
  {
    var owner := OwnerOf(ports);
    forall i | 0 <= i < |calls|
      ensures NoSharing(calls[i], owner, foreign)
    {
      assert UsesLists(calls[i], ports);
    }
    NoLeakedPorts(Start(foreign, ready), calls, owner, foreign);
    var w := AfterCalls(Start(foreign, ready), calls);
    hide AfterCalls, Up, NoSharing;
    forall p
      ensures p in w.open <==> p in foreign || exists s :: s in w.files && p in w.files[s] && Up(w.trace, s)
    {
      if s :| s in w.files && p in w.files[s] && Up(w.trace, s) {
        assert owner(p) == s;
      }
    }
  }

  function One(s: string, d: Definition): Call
  {
    Call(ReconfigureServices, [s], [s], map[s := d])
  }

  lemma AfterOne(w: World, s: string, d: Definition)
    ensures AfterCall(w, One(s, d)) == AfterReconfigure(w, s, d)
  {
    var c := One(s, d);
    assert Targets(c.names, c.order) == [s] && [s][1..] == [];
    assert AfterTargets(AfterReconfigure(w, s, d), c.op, [], c.defs) == AfterReconfigure(w, s, d);
    hide AfterReconfigure;
  }

  lemma TraceAfter(w: World, s: string, d: Definition, t: string)
    ensures Up(AfterReconfigure(w, s, d).trace, t) <==> if t == s then IsReady(d) else Up(w.trace, t)
  {
    hide Up;
    UpAfter(w.trace, DataReady(s), t);
    UpAfter(w.trace + [DataReady(s)], Restart(s), t);
    UpAfter(w.trace + [DataReady(s)] + [Restart(s)], Ports(s, true), t);
    UpAfter(w.trace, DataLost(s), t);
    UpAfterStop(w.trace + [DataLost(s)], s, t);
    UpAfterStop(w.trace, s, t);
  }

  /** With a shared port one service closes, when it stops, what another that is up still lists. */
  lemma SharedPortIsLost(w: World, a: string, b: string, portsA: seq<int>, portsB: seq<int>, p: int)
    requires a != b && p in portsA && p in portsB
    ensures var ready := AfterReconfigure(AfterReconfigure(w, a, Definition(portsA, [])), b, Definition(portsB, []));
      var v := AfterReconfigure(ready, b, Definition(portsB, [false]));
      a in v.files && p in v.files[a] && Up(v.trace, a) && p !in v.open
  {
    var lost := Definition(portsB, [false]);
    assert !lost.requiredData[0];
    var w1 := AfterReconfigure(w, a, Definition(portsA, []));
    var w2 := AfterReconfigure(w1, b, Definition(portsB, []));
    TraceAfter(w, a, Definition(portsA, []), a);
    TraceAfter(w1, b, Definition(portsB, []), a);
    TraceAfter(w2, b, lost, a);
    hide Up;
  }

  lemma SharedLists(ports: map<string, seq<int>>, foreign: set<int>, a: string, b: string, p: int)
    requires a != b && a in ports && b in ports && p in ports[a] && p in ports[b]
    ensures !NeverLeaks(ports, foreign)
  {
    var w := Start(foreign, {});
    var calls := [One(a, Definition(ports[a], [])), One(b, Definition(ports[b], [])),
      One(b, Definition(ports[b], [false]))];
    SharedPortIsLost(w, a, b, ports[a], ports[b], p);
    AfterThree(w, a, b, Definition(ports[a], []), Definition(ports[b], []), Definition(ports[b], [false]));
    assert AllUseLists(calls, ports);
    hide AfterReconfigure, AfterCalls, Up;
    assert !NothingLeaks(AfterCalls(w, calls), foreign);
  }

  lemma AfterThree(w: World, a: string, b: string, first: Definition, second: Definition, third: Definition)
    ensures AfterCalls(w, [One(a, first), One(b, second), One(b, third)]) ==
      AfterReconfigure(AfterReconfigure(AfterReconfigure(w, a, first), b, second), b, third)
  {
    var calls := [One(a, first), One(b, second), One(b, third)];
    hide AfterReconfigure, One, AfterCall;
    AfterOne(w, a, first);
    AfterOne(AfterReconfigure(w, a, first), b, second);
    AfterOne(AfterReconfigure(AfterReconfigure(w, a, first), b, second), b, third);
    assert calls[..2][..1] == calls[..1] && calls[..1][..0] == [];
    assert AfterCalls(w, calls[..1]) == AfterCall(w, calls[0]);
    assert AfterCalls(w, calls[..2]) == AfterCall(AfterCalls(w, calls[..1]), calls[1]);
  }

  /** A service that lists a foreign port closes it when it stops. */
  lemma ForeignPortIsLost(ports: map<string, seq<int>>, foreign: set<int>, a: string, p: int)
    requires a in ports && p in ports[a] && p in foreign
    ensures !NeverLeaks(ports, foreign)
  {
    var w := Start(foreign, {});
    var lost := Definition(ports[a], [false]);
    assert !lost.requiredData[0];
    var calls := [One(a, lost)];
    AfterOne(w, a, lost);
    assert calls[..0] == [] && AfterCalls(w, calls) == AfterCall(w, calls[0]);
    assert p !in AfterReconfigure(w, a, lost).open;
    assert AllUseLists(calls, ports);
    assert !NothingLeaks(AfterCalls(w, calls), foreign);
  }

  /** The registered port lists are safe, over all calls and all readiness, if and only if no port is shared. */
  lemma UnsharedExactly(ports: map<string, seq<int>>, foreign: set<int>)
    ensures NeverLeaks(ports, foreign) <==> Unshared(ports, foreign)
  {
    if Unshared(ports, foreign) {
      forall ready: set<string>, calls: seq<Call> | AllUseLists(calls, ports)
        ensures NothingLeaks(AfterCalls(Start(foreign, ready), calls), foreign)
      {
        UnsharedNeverLeaks(ports, foreign, ready, calls);
      }
    } else if s, p :| s in ports && p in ports[s] && p in foreign {
      ForeignPortIsLost(ports, foreign, s, p);
    } else {
      var s, t, p :| s in ports && t in ports && p in ports[s] && p in ports[t] && s != t;
      SharedLists(ports, foreign, s, t, p);
    }
  }

  // ----- Readiness edges -----

  /** The ready set that the events alone imply. */
  function ReadyAfter(ready: set<string>, trace: seq<Action>): set<string>
  {
    if trace == [] then ready
    else
      var before := ReadyAfter(ready, trace[..|trace| - 1]);
      match trace[|trace| - 1]
      case DataReady(s) => before + {s}
      case DataLost(s) => before - {s}
      case _ => before
  }

  /** The trace explains the persisted set, and every data_lost is a step from ready to not ready. */
  ghost predicate EdgesAreTrue(ready: set<string>, w: World)
  {
    && w.ready == ReadyAfter(ready, w.trace)
    && forall i, s :: 0 <= i < |w.trace| && w.trace[i] == DataLost(s) ==> s in ReadyAfter(ready, w.trace[..i])
  }

  lemma EdgeAfter(ready: set<string>, w: World, a: Action, readyNow: set<string>)
    requires EdgesAreTrue(ready, w)
    requires a.DataLost? ==> a.service in w.ready
    requires readyNow == match a case DataReady(s) => w.ready + {s} case DataLost(s) => w.ready - {s} case _ => w.ready
    ensures EdgesAreTrue(ready, w.(trace := w.trace + [a], ready := readyNow))
  {
    var trace := w.trace + [a];
    assert trace[..|w.trace|] == w.trace;
    forall i, s | 0 <= i < |trace| && trace[i] == DataLost(s)
      ensures s in ReadyAfter(ready, trace[..i])
    {
      if i < |w.trace| {
        assert w.trace[i] == DataLost(s) && trace[..i] == w.trace[..i];
      }
    }
  }

  lemma ReconfigureKeepsEdges(ready: set<string>, w: World, s: string, d: Definition)
    requires EdgesAreTrue(ready, w)
    ensures EdgesAreTrue(ready, AfterReconfigure(w, s, d))
  {
    if IsReady(d) {
      var told := w.(trace := w.trace + [DataReady(s)], ready := w.ready + {s});
      EdgeAfter(ready, w, DataReady(s), w.ready + {s});
      EdgeAfter(ready, told, Restart(s), w.ready + {s});
      EdgeAfter(ready, told.(trace := told.trace + [Restart(s)]), Ports(s, true), w.ready + {s});
    } else if s in w.ready {
      var told := w.(trace := w.trace + [DataLost(s)], ready := w.ready - {s});
      EdgeAfter(ready, w, DataLost(s), w.ready - {s});
      StopKeepsEdges(ready, told, s, d.ports);
    } else {
      StopKeepsEdges(ready, w, s, d.ports);
      assert w.ready - {s} == w.ready;
    }
  }

  lemma StopKeepsEdges(ready: set<string>, w: World, s: string, ports: seq<int>)
    requires EdgesAreTrue(ready, w)
    ensures EdgesAreTrue(ready, AfterStop(w, s, ports))
  {
    EdgeAfter(ready, w, Ports(s, false), w.ready);
    EdgeAfter(ready, w.(trace := w.trace + [Ports(s, false)]), Stop(s), w.ready);
  }

  lemma {:induction false} TargetsKeepEdges(ready: set<string>, w: World, op: Operation, targets: seq<string>,
                                            defs: map<string, Definition>)
    requires EdgesAreTrue(ready, w)
    ensures EdgesAreTrue(ready, AfterTargets(w, op, targets, defs))
    decreases targets
  {
    if targets != [] && targets[0] in defs {
      var s := targets[0];
      ReconfigureKeepsEdges(ready, w, s, defs[s]);
      StopKeepsEdges(ready, w, s, defs[s].ports);
      hide EdgesAreTrue, AfterStop, AfterReconfigure;
      var w' := if op.StopServices? then AfterStop(w, s, defs[s].ports) else AfterReconfigure(w, s, defs[s]);
      TargetsKeepEdges(ready, w', op, targets[1..], defs);
    }
  }

  /** Over any sequence of calls data_lost fires exactly when a service leaves the persisted ready set. */
  lemma {:induction false} DataLostFiresOnEdges(w: World, calls: seq<Call>)
    requires w.trace == []
    ensures EdgesAreTrue(w.ready, AfterCalls(w, calls))
  {
    if calls != [] {
      var n := |calls| - 1;
      DataLostFiresOnEdges(w, calls[..n]);
      TargetsKeepEdges(w.ready, AfterCalls(w, calls[..n]), calls[n].op, Targets(calls[n].names, calls[n].order),
        calls[n].defs);
    }
  }

  /** With EdgesAreTrue: a service that was ready and is not any more has a data_lost in between. */
  lemma {:induction false} LeavingNeedsDataLost(ready: set<string>, trace: seq<Action>, more: seq<Action>, s: string)
    requires s in ReadyAfter(ready, trace) && s !in ReadyAfter(ready, trace + more)
    ensures DataLost(s) in more
  {
    assert trace + [] == trace;
    if more != [] {
      var n := |more| - 1;
      assert (trace + more)[..|trace| + n] == trace + more[..n];
      if s in ReadyAfter(ready, trace + more[..n]) {
        assert more[n] == DataLost(s);
      } else {
        LeavingNeedsDataLost(ready, trace, more[..n], s);
        assert forall a :: a in more[..n] ==> a in more;
      }
    }
  }

  // ----- Ports are open only while the service runs -----

  /** A stop comes right after the closing of the service's ports, their opening right after its (re)start. */
  ghost predicate InStep(trace: seq<Action>)
  {
    && (forall i, s :: 0 <= i < |trace| && trace[i] == Stop(s) ==> i > 0 && trace[i - 1] == Ports(s, false))
    && (forall i, s :: 0 <= i < |trace| && trace[i] == Ports(s, true) ==> i > 0 && trace[i - 1] == Restart(s))
  }

  lemma ActionInStep(trace: seq<Action>, a: Action)
    requires InStep(trace)
    requires a.Stop? ==> trace != [] && trace[|trace| - 1] == Ports(a.service, false)
    requires a.Ports? && a.opening ==> trace != [] && trace[|trace| - 1] == Restart(a.service)
    ensures InStep(trace + [a])
  {
  }

  lemma StopInStep(trace: seq<Action>, s: string)
    requires InStep(trace)
    ensures InStep(trace + [Ports(s, false)] + [Stop(s)])
  {
    hide InStep;
    ActionInStep(trace, Ports(s, false));
    ActionInStep(trace + [Ports(s, false)], Stop(s));
  }

  lemma StepsInStep(w: World, s: string, d: Definition)
    requires InStep(w.trace)
    ensures InStep(AfterStop(w, s, d.ports).trace) && InStep(AfterReconfigure(w, s, d).trace)
  {
    hide InStep;
    StopInStep(w.trace, s);
    ActionInStep(w.trace, DataLost(s));
    StopInStep(w.trace + [DataLost(s)], s);
    ActionInStep(w.trace, DataReady(s));
    ActionInStep(w.trace + [DataReady(s)], Restart(s));
    ActionInStep(w.trace + [DataReady(s)] + [Restart(s)], Ports(s, true));
  }

  lemma {:induction false} TargetsStayInStep(w: World, op: Operation, targets: seq<string>,
                                             defs: map<string, Definition>)
    requires InStep(w.trace)
    ensures InStep(AfterTargets(w, op, targets, defs).trace)
    decreases targets
  {
    if targets != [] && targets[0] in defs {
      var s := targets[0];
      StepsInStep(w, s, defs[s]);
      hide AfterStop, AfterReconfigure, InStep;
      var w' := if op.StopServices? then AfterStop(w, s, defs[s].ports) else AfterReconfigure(w, s, defs[s]);
      TargetsStayInStep(w', op, targets[1..], defs);
    }
  }

  /** Over any sequence of calls ports are opened only after the service is up and closed before it goes down. */
  lemma {:induction false} PortsInStep(w: World, calls: seq<Call>)
    requires w.trace == []
    ensures InStep(AfterCalls(w, calls).trace)
  {
    if calls != [] {
      var n := |calls| - 1;
      PortsInStep(w, calls[..n]);
      TargetsStayInStep(AfterCalls(w, calls[..n]), calls[n].op, Targets(calls[n].names, calls[n].order), calls[n].defs);
    }
  }

  // ----- The objects -----

  /** The machine: files on disk and open ports. */
  class Unit {
    var portFiles: map<string, seq<int>>
    var openPorts: set<int>
    var readyFile: Option<set<string>>
    var trace: seq<Action>

    constructor ()
      ensures View() == World(map[], {}, {}, [])
    {
      portFiles, openPorts, readyFile, trace := map[], {}, None, [];
    }

    ghost function View(): World
      reads this
    {
      World(portFiles, openPorts, if readyFile.Some? then readyFile.value else {}, trace)
    }
  }

  class ServiceManager {
    const unit: Unit
    const order: seq<string>
    const services: map<string, Definition>
    /** _ready: the ready file once it has been loaded */
    var ready: Option<set<string>>

    ghost predicate Valid()
      reads this, unit
    {
      ready.Some? ==> ready.value == unit.View().ready
    }

    constructor (unit: Unit, order: seq<string>, services: map<string, Definition>)
      ensures Valid() && this.unit == unit && this.order == order && this.services == services
    {
      this.unit, this.order, this.services, ready := unit, order, services, None;
    }

    method LoadReadyFile()
      requires Valid()
      modifies this
      ensures Valid() && ready == Some(unit.View().ready)
    {
      if ready.None? {
        ready := if unit.readyFile.Some? then unit.readyFile else Some({});
      }
    }

    method SaveReady(s: string)
      requires Valid()
      modifies this, unit
      ensures Valid() && unit.View() == old(unit.View()).(ready := old(unit.View()).ready + {s})
    {
      LoadReadyFile();
      ready := Some(ready.value + {s});
      unit.readyFile := ready;
    }

    method SaveLost(s: string)
      requires Valid()
      modifies this, unit
      ensures Valid() && unit.View() == old(unit.View()).(ready := old(unit.View()).ready - {s})
    {
      LoadReadyFile();
      ready := Some(ready.value - {s});
      unit.readyFile := ready;
    }

    method WasReady(s: string) returns (was: bool)
      requires Valid()
      modifies this
      ensures Valid() && was == (s in unit.View().ready)
    {
      LoadReadyFile();
      was := s in ready.value;
    }

    method Record(a: Action)
      requires Valid()
      modifies unit
      ensures Valid() && unit.View() == old(unit.View()).(trace := old(unit.View()).trace + [a])
    {
      unit.trace := unit.trace + [a];
    }

    /** PortManagerCallback */
    method ManagePorts(s: string, start: bool)
      requires Valid() && s in services
      modifies unit
      ensures Valid() && unit.View() == AfterPorts(old(unit.View()), s, services[s].ports, start)
    {
      var newPorts := services[s].ports;
      if s in unit.portFiles {
        var recorded := unit.portFiles[s];
        for i := 0 to |recorded|
          invariant Valid() && unit.portFiles == old(unit.portFiles) && unit.readyFile == old(unit.readyFile)
          invariant unit.trace == old(unit.trace)
          invariant unit.openPorts == old(unit.openPorts) - (Elements(recorded[..i]) - Elements(newPorts))
        {
          if recorded[i] !in newPorts {
            unit.openPorts := unit.openPorts - {recorded[i]};
          }
          assert Elements(recorded[..i + 1]) == Elements(recorded[..i]) + {recorded[i]};
        }
        assert recorded[..|recorded|] == recorded;
      }
      unit.portFiles := unit.portFiles[s := newPorts];
      ghost var kept := unit.openPorts;
      for i := 0 to |newPorts|
        invariant Valid() && unit.portFiles == old(unit.portFiles)[s := newPorts]
        invariant unit.readyFile == old(unit.readyFile) && unit.trace == old(unit.trace)
        invariant unit.openPorts ==
          if start then kept + Elements(newPorts[..i]) else kept - Elements(newPorts[..i])
      {
        assert Elements(newPorts[..i + 1]) == Elements(newPorts[..i]) + {newPorts[i]};
        if start {
          unit.openPorts := unit.openPorts + {newPorts[i]};
        } else {
          unit.openPorts := unit.openPorts - {newPorts[i]};
        }
      }
      assert newPorts[..|newPorts|] == newPorts;
      Record(Ports(s, start));
    }

    /** reconfigure_services; the result is false when a name is not registered (KeyError). */
    method ReconfigureServices(names: seq<string>) returns (ok: bool)
      requires Valid()
      modifies this, unit
      ensures Valid()
      ensures unit.View() ==
        AfterTargets(old(unit.View()), Operation.ReconfigureServices, Targets(names, order), services)
      ensures ok <==> forall s :: s in Targets(names, order) ==> s in services
    {
      var targets := Targets(names, order);
      for i := 0 to |targets|
        invariant Valid() && forall j :: 0 <= j < i ==> targets[j] in services
        invariant AfterTargets(old(unit.View()), Operation.ReconfigureServices, targets, services) ==
          AfterTargets(unit.View(), Operation.ReconfigureServices, targets[i..], services)
      {
        var s := targets[i];
        assert targets[i..][1..] == targets[i + 1..];
        if s !in services {
          return false;
        }
        ghost var before := unit.View();
        if IsReady(services[s]) {
          Record(DataReady(s));
          Record(Restart(s));
          ManagePorts(s, true);
          SaveReady(s);
        } else {
          var was := WasReady(s);
          if was {
            Record(DataLost(s));
          }
          ManagePorts(s, false);
          Record(Stop(s));
          SaveLost(s);
        }
        assert unit.View() == AfterReconfigure(before, s, services[s]);
      }
      ok := true;
    }

    method StopServices(names: seq<string>) returns (ok: bool)
      requires Valid()
      modifies unit
      ensures Valid()
      ensures unit.View() == AfterTargets(old(unit.View()), Operation.StopServices, Targets(names, order), services)
      ensures ok <==> forall s :: s in Targets(names, order) ==> s in services
    {
      var targets := Targets(names, order);
      for i := 0 to |targets|
        invariant Valid() && forall j :: 0 <= j < i ==> targets[j] in services
        invariant AfterTargets(old(unit.View()), Operation.StopServices, targets, services) ==
          AfterTargets(unit.View(), Operation.StopServices, targets[i..], services)
      {
        var s := targets[i];
        assert targets[i..][1..] == targets[i + 1..];
        if s !in services {
          return false;
        }
        ManagePorts(s, false);
        Record(Stop(s));
      }
      ok := true;
    }
  }
}
