/** Flattening the CRUSH tree: one record for each path from a root down to a node of the wanted type. */
module CrushTree {
  import opened Lists
  import opened Wrappers

  datatype Node = Node(id: int, kind: string, name: string, children: seq<int>)

  datatype Attr = Name(name: string) | Identifier(id: int)

  type Record = map<string, Attr>

  /** {node['id']: node for node in nodes}: of nodes with the same id the last one is kept. */
  function LookupMap(nodes: seq<Node>): (m: map<int, Node>)
    ensures forall id :: id in m ==> m[id].id == id && m[id] in nodes
    ensures forall n :: n in nodes ==> n.id in m
  {
    if nodes == [] then map[]
    else
      assert nodes == nodes[..|nodes| - 1] + [nodes[|nodes| - 1]];
      LookupMap(nodes[..|nodes| - 1])[nodes[|nodes| - 1].id := nodes[|nodes| - 1]]
  }

  lemma LookupStep(nodes: seq<Node>)
    requires nodes != []
    ensures var n := |nodes| - 1; LookupMap(nodes) == LookupMap(nodes[..n])[nodes[n].id := nodes[n]]
  {
  }

  /** Of nodes with one id the last one is meant. */
  lemma {:induction false} LastNodeIsMeant(nodes: seq<Node>, i: nat)
    requires i < |nodes| && forall j :: i < j < |nodes| ==> nodes[j].id != nodes[i].id
    ensures nodes[i].id in LookupMap(nodes) && LookupMap(nodes)[nodes[i].id] == nodes[i]
  {
    hide LookupMap;
    var n := |nodes| - 1;
    var init := nodes[..n];
    LookupStep(nodes);
    if i < n {
      assert init[i] == nodes[i] && nodes[n].id != nodes[i].id;
      forall j | i < j < |init|
        ensures init[j].id != init[i].id
      {
        assert init[j] == nodes[j];
      }
      LastNodeIsMeant(init, i);
    }
  }

  predicate Terminal(node: Node, lookupType: string)
  {
    node.kind == lookupType || node.children == []
  }

  /** Every node is listed under its own id. */
  predicate Keyed(m: map<int, Node>)
  {
    forall id :: id in m ==> m[id].id == id
  }

  /** No way down from the node goes through more than `depth` nodes that the traversal expands. */
  ghost predicate Shallow(node: Node, m: map<int, Node>, lookupType: string, depth: nat)
    decreases depth, 1
  {
    Terminal(node, lookupType) || AllShallow(node.children, m, lookupType, depth)
  }

  ghost predicate AllShallow(children: seq<int>, m: map<int, Node>, lookupType: string, depth: nat)
    decreases depth, 0
  {
    depth > 0 && forall i :: 0 <= i < |children| && children[i] in m ==>
      Shallow(m[children[i]], m, lookupType, depth - 1)
  }

  function AddTo(base: Record, records: seq<Record>): seq<Record>
  {
    if records == [] then [] else [base + records[0]] + AddTo(base, records[1..])
  }

  /** _filter_nodes_and_set_attributes; None is the KeyError of a child that is not in the list of nodes. */
  function Flatten(node: Node, m: map<int, Node>, lookupType: string, ghost depth: nat): Option<seq<Record>>
    requires Shallow(node, m, lookupType, depth)
    decreases depth, |node.children| + 1
  {
    var attributes: Record := map[node.kind := Name(node.name)];
    if node.kind == lookupType then
      Some([attributes["name" := Name(node.name)]["identifier" := Identifier(node.id)]])
    else if node.children == [] then
      Some([attributes])
    else
      match FlattenAll(node.children, m, lookupType, depth)
      case None => None
      case Some(records) => Some(AddTo(attributes, records))
  }

  function FlattenAll(children: seq<int>, m: map<int, Node>, lookupType: string, ghost depth: nat): Option<seq<Record>>
    requires AllShallow(children, m, lookupType, depth)
    decreases depth, |children|
  {
    if children == [] then Some([])
    else if children[0] !in m then None
    else
      match (Flatten(m[children[0]], m, lookupType, depth - 1), FlattenAll(children[1..], m, lookupType, depth))
      case (Some(first), Some(rest)) => Some(first + rest)
      case _ => None
  }

  /** The traversal ends on every root of the list. */
  ghost predicate RootsShallow(list: seq<Node>, m: map<int, Node>, lookupType: string, depth: nat)
  {
    forall n :: n in list && n.kind == "root" ==> Shallow(n, m, lookupType, depth)
  }

  /** _flatten_roots */
  function FlattenRoots(nodes: seq<Node>, list: seq<Node>, lookupType: string,
                        ghost depth: nat): Option<seq<Record>>
    requires RootsShallow(list, LookupMap(nodes), lookupType, depth)
  {
    if list == [] then Some([])
    else
      match FlattenRoots(nodes, list[1..], lookupType, depth)
      case None => None
      case Some(rest) =>
        if list[0].kind != "root" then Some(rest)
        else
          match Flatten(list[0], LookupMap(nodes), lookupType, depth)
          case None => None
          case Some(first) => Some(first + rest)
  }

  // ----- Paths, defined without the traversal -----

  /** `child` is a node that the traversal visits from `parent`. */
  predicate Step(parent: Node, child: Node, m: map<int, Node>, lookupType: string)
  {
    !Terminal(parent, lookupType) && child.id in parent.children && child.id in m && m[child.id] == child
  }

  /** `p` goes from child to child through nodes that are not terminal. */
  predicate Descends(p: seq<Node>, m: map<int, Node>, lookupType: string)
  {
    |p| > 1 ==> Step(p[0], p[1], m, lookupType) && Descends(p[1..], m, lookupType)
  }

  /** A path ends at the first node of the wanted type, or at a childless one. */
  predicate IsPath(p: seq<Node>, m: map<int, Node>, lookupType: string)
  {
    p != [] && Descends(p, m, lookupType) && Terminal(p[|p| - 1], lookupType)
  }

  /** A way down to a child that is not in the list of nodes. */
  predicate IsBroken(p: seq<Node>, m: map<int, Node>, lookupType: string)
  {
    p != [] && Descends(p, m, lookupType) && !Terminal(p[|p| - 1], lookupType) &&
    exists c :: c in p[|p| - 1].children && c !in m
  }

  /** A way down of nodes that are all expanded. */
  predicate IsExpanded(p: seq<Node>, m: map<int, Node>, lookupType: string)
  {
    p != [] && Descends(p, m, lookupType) && !Terminal(p[|p| - 1], lookupType)
  }

  lemma {:induction false} DeepChild(children: seq<int>, m: map<int, Node>, lookupType: string, depth: nat)
      returns (c: int)
    requires !AllShallow(children, m, lookupType, depth) && depth > 0
    ensures c in children && c in m && !Shallow(m[c], m, lookupType, depth - 1)
    decreases |children|
  {
    c := children[0];
    if c !in m || Shallow(m[c], m, lookupType, depth - 1) {
      c := DeepChild(children[1..], m, lookupType, depth);
    }
  }

  lemma {:induction false} DeepWay(node: Node, m: map<int, Node>, lookupType: string, depth: nat) returns (p: seq<Node>)
    requires Keyed(m) && !Shallow(node, m, lookupType, depth)
    ensures |p| == depth + 1 && p[0] == node && IsExpanded(p, m, lookupType)
    decreases depth
  {
    p := [node];
    if depth > 0 {
      var c := DeepChild(node.children, m, lookupType, depth);
      var q := DeepWay(m[c], m, lookupType, depth - 1);
      p := [node] + q;
      assert p[1..] == q;
    }
  }

  lemma {:induction false} WayIsDeep(p: seq<Node>, m: map<int, Node>, lookupType: string, depth: nat)
    requires |p| == depth + 1 && IsExpanded(p, m, lookupType)
    ensures !Shallow(p[0], m, lookupType, depth)
    decreases depth
  {
    if depth > 0 {
      assert p[1..][depth - 1] == p[depth];
      WayIsDeep(p[1..], m, lookupType, depth - 1);
      var i :| 0 <= i < |p[0].children| && p[0].children[i] == p[1].id;
    }
  }

  /** The bound fails exactly when some way down goes on: without any bound the traversal would never end. */
  lemma DeepExactly(node: Node, m: map<int, Node>, lookupType: string, depth: nat)
    requires Keyed(m)
    ensures !Shallow(node, m, lookupType, depth) <==>
      exists p: seq<Node> :: |p| == depth + 1 && p[0] == node && IsExpanded(p, m, lookupType)
  {
    if !Shallow(node, m, lookupType, depth) {
      var p := DeepWay(node, m, lookupType, depth);
    } else {
      forall p: seq<Node> | |p| == depth + 1 && IsExpanded(p, m, lookupType)
        ensures p[0] != node
      {
        WayIsDeep(p, m, lookupType, depth);
      }
    }
  }

  /** The deepest node of a type on a path. */
  function DeepestName(p: seq<Node>, kind: string): Option<string>
  {
    if p == [] then None
    else if p[|p| - 1].kind == kind then Some(p[|p| - 1].name)
    else DeepestName(p[..|p| - 1], kind)
  }

  function Lookup(r: Record, key: string): Option<Attr>
  {
    if key in r then Some(r[key]) else None
  }

  /** What the record of a path must say, key by key. */
  function Expected(p: seq<Node>, lookupType: string, key: string): Option<Attr>
    requires p != []
  {
    var last := p[|p| - 1];
    if last.kind == lookupType && key == "name" then Some(Name(last.name))
    else if last.kind == lookupType && key == "identifier" then Some(Identifier(last.id))
    else
      match DeepestName(p, key)
      case None => None
      case Some(name) => Some(Name(name))
  }

  ghost predicate Describes(r: Record, p: seq<Node>, lookupType: string)
    requires p != []
  {
    forall key :: Lookup(r, key) == Expected(p, lookupType, key)
  }

  // ----- The traversal enumerates the paths -----

  function Under(node: Node, paths: seq<seq<Node>>): seq<seq<Node>>
  {
    if paths == [] then [] else [[node] + paths[0]] + Under(node, paths[1..])
  }

  function PathsFrom(node: Node, m: map<int, Node>, lookupType: string, ghost depth: nat): seq<seq<Node>>
    requires Shallow(node, m, lookupType, depth)
    decreases depth, |node.children| + 1
  {
    if Terminal(node, lookupType) then [[node]] else Under(node, PathsThrough(node.children, m, lookupType, depth))
  }

  function PathsThrough(children: seq<int>, m: map<int, Node>, lookupType: string, ghost depth: nat):
      seq<seq<Node>>
    requires AllShallow(children, m, lookupType, depth)
    decreases depth, |children|
  {
    if children == [] then []
    else
      (if children[0] in m then
         PathsFrom(m[children[0]], m, lookupType, depth - 1) else []) +
      PathsThrough(children[1..], m, lookupType, depth)
  }

  ghost predicate OnePerPath(records: seq<Record>, paths: seq<seq<Node>>, lookupType: string)
  {
    && |records| == |paths|
    && forall i :: 0 <= i < |records| ==> paths[i] != [] && Describes(records[i], paths[i], lookupType)
  }

  lemma {:induction false} DeepestOfLonger(node: Node, p: seq<Node>, kind: string)
    ensures DeepestName([node] + p, kind) ==
      if DeepestName(p, kind).Some? then DeepestName(p, kind) else if node.kind == kind then Some(node.name) else None
  {
    if p == [] {
      assert [node] + p == [node];
      assert DeepestName([node][..0], kind) == None;
    } else {
      assert ([node] + p)[..|p|] == [node] + p[..|p| - 1];
      DeepestOfLonger(node, p[..|p| - 1], kind);
    }
  }

  lemma DescribesLonger(node: Node, r: Record, p: seq<Node>, lookupType: string)
    requires p != [] && Describes(r, p, lookupType)
    ensures Describes(map[node.kind := Name(node.name)] + r, [node] + p, lookupType)
  {
    var r' := map[node.kind := Name(node.name)] + r;
    forall key
      ensures Lookup(r', key) == Expected([node] + p, lookupType, key)
    {
      DeepestOfLonger(node, p, key);
      assert Lookup(r, key) == Expected(p, lookupType, key);
    }
  }

  lemma {:induction false} AddToUnder(node: Node, records: seq<Record>, paths: seq<seq<Node>>, lookupType: string)
    requires OnePerPath(records, paths, lookupType)
    ensures OnePerPath(AddTo(map[node.kind := Name(node.name)], records), Under(node, paths), lookupType)
  {
    if records != [] {
      assert Describes(records[0], paths[0], lookupType);
      DescribesLonger(node, records[0], paths[0], lookupType);
      assert forall i :: 0 <= i < |records[1..]| ==> records[1..][i] == records[i + 1] && paths[1..][i] == paths[i + 1];
      AddToUnder(node, records[1..], paths[1..], lookupType);
    }
  }

  lemma TerminalRecord(node: Node, m: map<int, Node>, lookupType: string, depth: nat)
    requires Shallow(node, m, lookupType, depth) && Terminal(node, lookupType)
    ensures Flatten(node, m, lookupType, depth).Some?
    ensures OnePerPath(Flatten(node, m, lookupType, depth).value, [[node]], lookupType)
  {
    var records := Flatten(node, m, lookupType, depth).value;
    assert [node][..0] == [];
    forall key
      ensures Lookup(records[0], key) == Expected([node], lookupType, key)
    {
      assert DeepestName([node], key) == if node.kind == key then Some(node.name) else None;
    }
  }

  /** The records are those of the enumerated paths, in the same order. */
  lemma {:induction false} FlattenGivesPaths(node: Node, m: map<int, Node>, lookupType: string, depth: nat)
    requires Shallow(node, m, lookupType, depth) && Flatten(node, m, lookupType, depth).Some?
    ensures OnePerPath(Flatten(node, m, lookupType, depth).value, PathsFrom(node, m, lookupType, depth), lookupType)
    decreases depth, |node.children| + 1
  {
    if Terminal(node, lookupType) {
      TerminalRecord(node, m, lookupType, depth);
    } else {
      FlattenAllGivesPaths(node.children, m, lookupType, depth);
      AddToUnder(node, FlattenAll(node.children, m, lookupType, depth).value,
                 PathsThrough(node.children, m, lookupType, depth), lookupType);
    }
  }

  lemma {:induction false} FlattenAllGivesPaths(children: seq<int>, m: map<int, Node>, lookupType: string, depth: nat)
    requires AllShallow(children, m, lookupType, depth)
    requires FlattenAll(children, m, lookupType, depth).Some?
    ensures OnePerPath(FlattenAll(children, m, lookupType, depth).value,
                       PathsThrough(children, m, lookupType, depth), lookupType)
    decreases depth, |children|
  {
    if children != [] {
      assert children[0] in children;
      FlattenGivesPaths(m[children[0]], m, lookupType, depth - 1);
      FlattenAllGivesPaths(children[1..], m, lookupType, depth);
    }
  }

  // ----- Exactly the paths -----

  lemma {:induction false} UnderMembers(node: Node, paths: seq<seq<Node>>, p: seq<Node>)
    ensures p in Under(node, paths) <==> p != [] && p[0] == node && p[1..] in paths
  {
    if paths != [] {
      UnderMembers(node, paths[1..], p);
      assert p == [node] + paths[0] ==> p[1..] == paths[0];
      assert p != [] && p[0] == node && p[1..] == paths[0] ==> p == [node] + paths[0];
      assert forall q :: q in paths <==> q == paths[0] || q in paths[1..];
    }
  }

  lemma {:induction false} PathsFromMembers(node: Node, m: map<int, Node>, lookupType: string, depth: nat,
                                            p: seq<Node>)
    requires Keyed(m) && Shallow(node, m, lookupType, depth)
    ensures p in PathsFrom(node, m, lookupType, depth) <==> p != [] && p[0] == node && IsPath(p, m, lookupType)
    decreases depth, |node.children| + 1
  {
    if |p| > 1 {
      assert p[1..][|p| - 2] == p[|p| - 1];
    }
    if Terminal(node, lookupType) {
      assert p == [node] <==> p != [] && p[0] == node && |p| == 1;
    } else {
      UnderMembers(node, PathsThrough(node.children, m, lookupType, depth), p);
      if p != [] {
        PathsThroughMembers(node.children, m, lookupType, depth, p[1..]);
      }
    }
  }

  lemma {:induction false} PathsThroughMembers(children: seq<int>, m: map<int, Node>, lookupType: string,
                                               depth: nat, p: seq<Node>)
    requires Keyed(m) && AllShallow(children, m, lookupType, depth)
    ensures p in PathsThrough(children, m, lookupType, depth) <==>
      p != [] && p[0].id in children && p[0].id in m && m[p[0].id] == p[0] && IsPath(p, m, lookupType)
    decreases depth, |children|
  {
    if children != [] {
      PathsThroughMembers(children[1..], m, lookupType, depth, p);
      assert forall c :: c in children <==> c == children[0] || c in children[1..];
      if children[0] in m {
        PathsFromMembers(m[children[0]], m, lookupType, depth - 1, p);
      }
    }
  }

  function RootPaths(nodes: seq<Node>, list: seq<Node>, lookupType: string, ghost depth: nat): seq<seq<Node>>
    requires RootsShallow(list, LookupMap(nodes), lookupType, depth)
  {
    if list == [] then []
    else
      (if list[0].kind == "root" then PathsFrom(list[0], LookupMap(nodes), lookupType, depth) else []) +
      RootPaths(nodes, list[1..], lookupType, depth)
  }

  lemma {:induction false} RootPathsMembers(nodes: seq<Node>, list: seq<Node>, lookupType: string, depth: nat,
                                            p: seq<Node>)
    requires RootsShallow(list, LookupMap(nodes), lookupType, depth)
    ensures p in RootPaths(nodes, list, lookupType, depth) <==>
      IsPath(p, LookupMap(nodes), lookupType) && p[0] in list && p[0].kind == "root"
  {
    if list != [] {
      RootPathsMembers(nodes, list[1..], lookupType, depth, p);
      if list[0].kind == "root" {
        PathsFromMembers(list[0], LookupMap(nodes), lookupType, depth, p);
      }
      assert forall n :: n in list <==> n == list[0] || n in list[1..];
    }
  }

  lemma {:induction false} RootRecords(nodes: seq<Node>, list: seq<Node>, lookupType: string, depth: nat)
    requires RootsShallow(list, LookupMap(nodes), lookupType, depth)
    requires FlattenRoots(nodes, list, lookupType, depth).Some?
    ensures OnePerPath(FlattenRoots(nodes, list, lookupType, depth).value, RootPaths(nodes, list, lookupType, depth),
      lookupType)
  {
    if list != [] {
      RootRecords(nodes, list[1..], lookupType, depth);
      if list[0].kind == "root" {
        FlattenGivesPaths(list[0], LookupMap(nodes), lookupType, depth);
      }
    }
  }

  // ----- No path is taken twice -----

  lemma {:induction false} UnderDistinct(node: Node, paths: seq<seq<Node>>)
    requires Distinct(paths)
    ensures Distinct(Under(node, paths))
  {
    if paths != [] {
      assert forall i :: 0 <= i < |paths[1..]| ==> paths[1..][i] == paths[i + 1];
      UnderDistinct(node, paths[1..]);
      UnderMembers(node, paths[1..], [node] + paths[0]);
      assert ([node] + paths[0])[1..] == paths[0];
      assert paths[0] !in paths[1..];
      DistinctAppend([[node] + paths[0]], Under(node, paths[1..]));
    }
  }

  lemma {:induction false} PathsAreDistinct(node: Node, m: map<int, Node>, lookupType: string, depth: nat)
    requires Keyed(m) && Shallow(node, m, lookupType, depth) && Distinct(node.children)
    requires forall id :: id in m ==> Distinct(m[id].children)
    ensures Distinct(PathsFrom(node, m, lookupType, depth))
    decreases depth, |node.children| + 1
  {
    if !Terminal(node, lookupType) {
      PathsThroughDistinct(node.children, m, lookupType, depth);
      UnderDistinct(node, PathsThrough(node.children, m, lookupType, depth));
    }
  }

  lemma {:induction false} PathsThroughDistinct(children: seq<int>, m: map<int, Node>, lookupType: string, depth: nat)
    requires AllShallow(children, m, lookupType, depth) && Distinct(children) && Keyed(m)
    requires forall id :: id in m ==> Distinct(m[id].children)
    ensures Distinct(PathsThrough(children, m, lookupType, depth))
    decreases depth, |children|
  {
    if children != [] {
      assert forall i :: 0 <= i < |children[1..]| ==> children[1..][i] == children[i + 1];
      assert children[0] !in children[1..];
      PathsThroughDistinct(children[1..], m, lookupType, depth);
      if children[0] in m {
        var child := m[children[0]];
        PathsAreDistinct(child, m, lookupType, depth - 1);
        forall p | p in PathsFrom(child, m, lookupType, depth - 1)
          ensures p !in PathsThrough(children[1..], m, lookupType, depth)
        {
          PathsFromMembers(child, m, lookupType, depth - 1, p);
          PathsThroughMembers(children[1..], m, lookupType, depth, p);
        }
        DistinctAppend(PathsFrom(child, m, lookupType, depth - 1), PathsThrough(children[1..], m, lookupType, depth));
      }
    }
  }

  /** When no list of children repeats an id and no node is listed twice, no path has two records. */
  lemma {:induction false} RootPathsAreDistinct(nodes: seq<Node>, list: seq<Node>, lookupType: string, depth: nat)
    requires RootsShallow(list, LookupMap(nodes), lookupType, depth)
    requires Distinct(list) && forall n :: n in nodes || n in list ==> Distinct(n.children)
    ensures Distinct(RootPaths(nodes, list, lookupType, depth))
  {
    if list != [] {
      assert list[0] in list;
      assert forall i :: 0 <= i < |list[1..]| ==> list[1..][i] == list[i + 1];
      assert list[0] !in list[1..];
      RootPathsAreDistinct(nodes, list[1..], lookupType, depth);
      if list[0].kind == "root" {
        PathsAreDistinct(list[0], LookupMap(nodes), lookupType, depth);
        forall p | p in PathsFrom(list[0], LookupMap(nodes), lookupType, depth)
          ensures p !in RootPaths(nodes, list[1..], lookupType, depth)
        {
          PathsFromMembers(list[0], LookupMap(nodes), lookupType, depth, p);
          RootPathsMembers(nodes, list[1..], lookupType, depth, p);
        }
        DistinctAppend(PathsFrom(list[0], LookupMap(nodes), lookupType, depth),
          RootPaths(nodes, list[1..], lookupType, depth));
      }
    }
  }

  /**
   * The main result: whenever the traversal ends on all roots it gives, in order, one record for each path from a
   * root to the first node of the wanted type or to a childless node; the paths enumerated are exactly these, and
   * each record names for every type the deepest node of that type on its path, and the node itself when it is of
   * the wanted type.
   */
  lemma OneRecordPerPath(nodes: seq<Node>, lookupType: string, depth: nat)
    requires RootsShallow(nodes, LookupMap(nodes), lookupType, depth)
    requires FlattenRoots(nodes, nodes, lookupType, depth).Some?
    ensures var paths := RootPaths(nodes, nodes, lookupType, depth);
      && OnePerPath(FlattenRoots(nodes, nodes, lookupType, depth).value, paths, lookupType)
      && (forall p: seq<Node> :: p in paths <==>
            IsPath(p, LookupMap(nodes), lookupType) && p[0] in nodes && p[0].kind == "root")
  {
    RootRecords(nodes, nodes, lookupType, depth);
    forall p: seq<Node>
      ensures p in RootPaths(nodes, nodes, lookupType, depth) <==>
        IsPath(p, LookupMap(nodes), lookupType) && p[0] in nodes && p[0].kind == "root"
    {
      RootPathsMembers(nodes, nodes, lookupType, depth, p);
    }
  }

  /** A record carries an identifier exactly for the wanted type, unless a node's own type is called that. */
  lemma IdentifierMeansWantedType(r: Record, p: seq<Node>, lookupType: string)
    requires p != [] && Describes(r, p, lookupType)
    ensures p[|p| - 1].kind == lookupType ==>
      Lookup(r, "name") == Some(Name(p[|p| - 1].name)) && Lookup(r, "identifier") == Some(Identifier(p[|p| - 1].id))
    ensures (exists id :: Lookup(r, "identifier") == Some(Identifier(id))) <==> p[|p| - 1].kind == lookupType
    ensures p[|p| - 1].kind != lookupType && (forall n :: n in p ==> n.kind != "name") ==> Lookup(r, "name") == None
  {
    assert Lookup(r, "name") == Expected(p, lookupType, "name");
    assert Lookup(r, "identifier") == Expected(p, lookupType, "identifier");
    if forall n :: n in p ==> n.kind != "name" {
      NoneOfKind(p, "name");
    }
  }

  lemma {:induction false} NoneOfKind(p: seq<Node>, kind: string)
    requires forall n :: n in p ==> n.kind != kind
    ensures DeepestName(p, kind) == None
  {
    if p != [] {
      assert p[|p| - 1] in p;
      assert forall n :: n in p[..|p| - 1] ==> n in p;
      NoneOfKind(p[..|p| - 1], kind);
    }
  }

  // ----- When the KeyError occurs -----

  lemma {:induction false} FlattenFails(node: Node, m: map<int, Node>, lookupType: string, depth: nat)
    requires Keyed(m) && Shallow(node, m, lookupType, depth)
    ensures Flatten(node, m, lookupType, depth) == None <==>
      exists p :: p != [] && p[0] == node && IsBroken(p, m, lookupType)
    decreases depth, |node.children| + 1
  {
    if Terminal(node, lookupType) {
      forall p | p != [] && p[0] == node
        ensures !IsBroken(p, m, lookupType)
      {
        if |p| > 1 {
        }
      }
    } else {
      FlattenAllFails(node.children, m, lookupType, depth);
      if Flatten(node, m, lookupType, depth) == None {
        if c :| c in node.children && c !in m {
          assert IsBroken([node], m, lookupType);
        } else {
          var q :| IsBrokenBelow(q, node.children, m, lookupType);
          var p := [node] + q;
          assert p[1..] == q;
          assert IsBroken(p, m, lookupType);
        }
      }
      if p :| p != [] && p[0] == node && IsBroken(p, m, lookupType) {
        if |p| > 1 {
          assert p[1..][|p| - 2] == p[|p| - 1];
          assert IsBrokenBelow(p[1..], node.children, m, lookupType);
        }
      }
    }
  }

  predicate IsBrokenBelow(p: seq<Node>, children: seq<int>, m: map<int, Node>, lookupType: string)
  {
    p != [] && p[0].id in children && p[0].id in m && m[p[0].id] == p[0] && IsBroken(p, m, lookupType)
  }

  lemma {:induction false} FlattenAllFails(children: seq<int>, m: map<int, Node>, lookupType: string, depth: nat)
    requires Keyed(m) && AllShallow(children, m, lookupType, depth)
    ensures FlattenAll(children, m, lookupType, depth) == None <==>
      (exists c :: c in children && c !in m) || exists p :: IsBrokenBelow(p, children, m, lookupType)
    decreases depth, |children|
  {
    if children != [] {
      assert forall c :: c in children <==> c == children[0] || c in children[1..];
      FlattenAllFails(children[1..], m, lookupType, depth);
      forall p | IsBrokenBelow(p, children[1..], m, lookupType)
        ensures IsBrokenBelow(p, children, m, lookupType)
      {
      }
      if children[0] in m {
        var child := m[children[0]];
        FlattenFails(child, m, lookupType, depth - 1);
        forall p | p != [] && p[0] == child && IsBroken(p, m, lookupType)
          ensures IsBrokenBelow(p, children, m, lookupType)
        {
        }
        forall p | IsBrokenBelow(p, children, m, lookupType)
          ensures IsBrokenBelow(p, children[1..], m, lookupType) || p[0] == child
        {
        }
      }
    }
  }

  ghost predicate BrokenFrom(n: Node, m: map<int, Node>, lookupType: string)
  {
    exists p: seq<Node> :: p != [] && p[0] == n && IsBroken(p, m, lookupType)
  }

  /** The KeyError of the whole function: some root of the list has a way down to a child that is not listed. */
  lemma {:induction false} FlattenRootsFails(nodes: seq<Node>, list: seq<Node>, lookupType: string, depth: nat)
    requires RootsShallow(list, LookupMap(nodes), lookupType, depth)
    ensures FlattenRoots(nodes, list, lookupType, depth) == None <==>
      exists n :: n in list && n.kind == "root" && BrokenFrom(n, LookupMap(nodes), lookupType)
  {
    hide LookupMap, IsBroken;
    if list != [] {
      assert list[0] in list && forall n :: n in list <==> n == list[0] || n in list[1..];
      FlattenRootsFails(nodes, list[1..], lookupType, depth);
      if list[0].kind == "root" {
        FlattenFails(list[0], LookupMap(nodes), lookupType, depth);
      }
    }
  }
}
