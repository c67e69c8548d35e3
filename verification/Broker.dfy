/**
 * The broker's cephx bookkeeping: groups know their pools and services, services know the groups they were
 * granted a permission on, and the capabilities sent to Ceph are derived from both.
 */
module Broker {
  import opened Lists
  import opened Wrappers
  import opened Names

  datatype Group = Group(pools: seq<string>, services: seq<string>)

  /** A service as it is persisted: permission -> groups, and permission -> object prefixes. */
  datatype Service = Service(groupNames: map<string, seq<string>>, prefixPerms: map<string, seq<string>>)

  datatype Cap = PoolCap(permission: string, pool: string) | PrefixCap(permission: string, prefix: string)

  /** The monitor's key/value store, and the capabilities last sent for each client. */
  datatype Store = Store(groups: map<string, Group>, services: map<string, Service>, caps: map<string, seq<Cap>>)

  datatype Request =
    | AddPermission(service: string, group: string, namespace: Option<string>,
                    permission: Option<string>, prefixes: map<string, seq<string>>)
    | AddPool(pool: string, group: string, namespace: Option<string>)

  const EmptyGroup := Group([], [])
  const EmptyService := Service(map[], map[])

  function FullName(namespace: Option<string>, group: string): string
  {
    match namespace
    case Some(ns) => if ns == "" then group else ns + "-" + group
    case None => group
  }

  function PermissionOf(permission: Option<string>): string
  {
    if permission.None? || permission.value == "" then "rwx" else permission.value
  }

  function GetGroup(groups: map<string, Group>, name: string): Group
  {
    if name in groups then groups[name] else EmptyGroup
  }

  function GetService(services: map<string, Service>, name: string): Service
  {
    if name in services then services[name] else EmptyService
  }

  function NamesUnder(groupNames: map<string, seq<string>>, permission: string): seq<string>
  {
    if permission in groupNames then groupNames[permission] else []
  }

  ghost predicate InSomeGroup(groupNames: map<string, seq<string>>, group: string)
  {
    exists p :: p in groupNames && group in groupNames[p]
  }

  // ----- The capability list -----

  function PoolCaps(permission: string, pools: seq<string>): seq<Cap>
  {
    if pools == [] then []
    else PoolCaps(permission, pools[..|pools| - 1]) + [PoolCap(permission, pools[|pools| - 1])]
  }

  function GroupCaps(groups: map<string, Group>, permission: string, names: seq<string>): seq<Cap>
  {
    if names == [] then []
    else
      GroupCaps(groups, permission, names[..|names| - 1]) +
      PoolCaps(permission, GetGroup(groups, names[|names| - 1]).pools)
  }

  function PermissionCaps(groups: map<string, Group>, groupNames: map<string, seq<string>>,
                          perms: seq<string>): seq<Cap>
  {
    if perms == [] then []
    else
      var last := perms[|perms| - 1];
      PermissionCaps(groups, groupNames, perms[..|perms| - 1]) + GroupCaps(groups, last, NamesUnder(groupNames, last))
  }

  function PrefixCapsOf(permission: string, prefixes: seq<string>): seq<Cap>
  {
    if prefixes == [] then []
    else PrefixCapsOf(permission, prefixes[..|prefixes| - 1]) + [PrefixCap(permission, prefixes[|prefixes| - 1])]
  }

  function PrefixCaps(prefixPerms: map<string, seq<string>>, perms: seq<string>): seq<Cap>
  {
    if perms == [] then []
    else
      var last := perms[|perms| - 1];
      PrefixCaps(prefixPerms, perms[..|perms| - 1]) + PrefixCapsOf(last, NamesUnder(prefixPerms, last))
  }

  /** The list for a service whose groups are as given: permissions in order, then object prefixes. */
  ghost function CapList(groups: map<string, Group>, s: Service): seq<Cap>
  {
    PermissionCaps(groups, s.groupNames, SortedSet(s.groupNames.Keys)) +
    PrefixCaps(s.prefixPerms, SortedSet(s.prefixPerms.Keys))
  }

  /** _build_service_groups: each group of the service, looked up with the namespace put before its name. */
  ghost function Populate(groups: map<string, Group>, s: Service, namespace: Option<string>): (all: map<string, Group>)
  {
    map g | g in GroupNamesOf(s) :: GetGroup(groups, FullName(namespace, g))
  }

  ghost function GroupNamesOf(s: Service): set<string>
  {
    set p, g | p in s.groupNames && g in s.groupNames[p] :: g
  }

  ghost function CapsOf(groups: map<string, Group>, s: Service, namespace: Option<string>): seq<Cap>
  {
    CapList(Populate(groups, s, namespace), s)
  }

  // ----- The order of the list -----

  /** Every group adds the capabilities of its pools, one each, in their order, behind those of the groups before it. */
  lemma {:induction false} GroupsInOrder(groups: map<string, Group>, permission: string, names: seq<string>,
                                         more: seq<string>)
    ensures GroupCaps(groups, permission, []) == []
    ensures GroupCaps(groups, permission, names + more) ==
      GroupCaps(groups, permission, names) + GroupCaps(groups, permission, more)
  {
    if more == [] {
      assert names + more == names;
    } else {
      var n := |more| - 1;
      assert (names + more)[..|names| + n] == names + more[..n];
      GroupsInOrder(groups, permission, names, more[..n]);
    }
  }

  lemma {:induction false} PoolsInOrder(permission: string, pools: seq<string>)
    ensures |PoolCaps(permission, pools)| == |pools|
    ensures forall i :: 0 <= i < |pools| ==> PoolCaps(permission, pools)[i] == PoolCap(permission, pools[i])
  {
    if pools != [] {
      PoolsInOrder(permission, pools[..|pools| - 1]);
    }
  }

  lemma OneGroupInOrder(groups: map<string, Group>, permission: string, name: string)
    ensures var list, pools := GroupCaps(groups, permission, [name]), GetGroup(groups, name).pools;
      |list| == |pools| && forall i :: 0 <= i < |pools| ==> list[i] == PoolCap(permission, pools[i])
  {
    PoolsInOrder(permission, GetGroup(groups, name).pools);
    assert [name][..0] == [] && GroupCaps(groups, permission, []) == [];
  }

  lemma {:induction false} PrefixesInOrder(permission: string, prefixes: seq<string>)
    ensures |PrefixCapsOf(permission, prefixes)| == |prefixes|
    ensures forall i :: 0 <= i < |prefixes| ==>
      PrefixCapsOf(permission, prefixes)[i] == PrefixCap(permission, prefixes[i])
  {
    if prefixes != [] {
      PrefixesInOrder(permission, prefixes[..|prefixes| - 1]);
    }
  }

  /** Permissions come in ascending order. */
  ghost predicate InOrder(list: seq<Cap>, perms: seq<string>)
  {
    && (forall i :: 0 <= i < |list| ==> list[i].permission in perms)
    && (forall i, j :: 0 <= i < j < |list| ==>
         list[i].permission == list[j].permission || Less(list[i].permission, list[j].permission))
  }

  lemma AppendInOrder(list: seq<Cap>, perms: seq<string>, tail: seq<Cap>)
    requires perms != [] && StrictlyAscending(perms) && InOrder(list, perms[..|perms| - 1])
    requires forall i :: 0 <= i < |tail| ==> tail[i].permission == perms[|perms| - 1]
    ensures InOrder(list + tail, perms)
  {
    var n := |perms| - 1;
    forall i | 0 <= i < |list|
      ensures list[i].permission in perms && Less(list[i].permission, perms[n])
    {
      var k :| 0 <= k < n && perms[..n][k] == list[i].permission;
    }
  }

  predicate AllGrant(caps: seq<Cap>, permission: string)
  {
    forall i :: 0 <= i < |caps| ==> caps[i].PoolCap? && caps[i].permission == permission
  }

  lemma {:induction false} GroupCapsPermission(groups: map<string, Group>, permission: string, names: seq<string>)
    ensures AllGrant(GroupCaps(groups, permission, names), permission)
  {
    if names != [] {
      GroupCapsPermission(groups, permission, names[..|names| - 1]);
      PoolsInOrder(permission, GetGroup(groups, names[|names| - 1]).pools);
    }
  }

  lemma {:induction false} PermissionsInOrder(groups: map<string, Group>, groupNames: map<string, seq<string>>,
                                              perms: seq<string>)
    requires StrictlyAscending(perms)
    ensures InOrder(PermissionCaps(groups, groupNames, perms), perms)
    ensures forall c :: c in PermissionCaps(groups, groupNames, perms) ==> c.PoolCap?
  {
    if perms != [] {
      var n := |perms| - 1;
      PermissionsInOrder(groups, groupNames, perms[..n]);
      GroupCapsPermission(groups, perms[n], NamesUnder(groupNames, perms[n]));
      AppendInOrder(PermissionCaps(groups, groupNames, perms[..n]), perms,
                    GroupCaps(groups, perms[n], NamesUnder(groupNames, perms[n])));
    }
  }

  lemma {:induction false} PrefixPermissionsInOrder(prefixPerms: map<string, seq<string>>, perms: seq<string>)
    requires StrictlyAscending(perms)
    ensures InOrder(PrefixCaps(prefixPerms, perms), perms)
    ensures forall c :: c in PrefixCaps(prefixPerms, perms) ==> c.PrefixCap?
  {
    if perms != [] {
      var n := |perms| - 1;
      PrefixPermissionsInOrder(prefixPerms, perms[..n]);
      PrefixesInOrder(perms[n], NamesUnder(prefixPerms, perms[n]));
      var last := PrefixCapsOf(perms[n], NamesUnder(prefixPerms, perms[n]));
      AppendInOrder(PrefixCaps(prefixPerms, perms[..n]), perms, last);
    }
  }

  /** Pools come before object prefixes, and each in the ascending order of their permissions. */
  lemma CapsInOrder(groups: map<string, Group>, s: Service, namespace: Option<string>, i: nat, j: nat)
    requires i < j < |CapsOf(groups, s, namespace)|
    ensures var a, b := CapsOf(groups, s, namespace)[i], CapsOf(groups, s, namespace)[j];
      && (a.PrefixCap? ==> b.PrefixCap?)
      && (a.PoolCap? == b.PoolCap? ==> a.permission == b.permission || Less(a.permission, b.permission))
  {
    var all := Populate(groups, s, namespace);
    var perms, prefixes := SortedSet(s.groupNames.Keys), SortedSet(s.prefixPerms.Keys);
    PermissionsInOrder(all, s.groupNames, perms);
    PrefixPermissionsInOrder(s.prefixPerms, prefixes);
    var first, second := PermissionCaps(all, s.groupNames, perms), PrefixCaps(s.prefixPerms, prefixes);
    hide PermissionCaps, PrefixCaps, Populate, StrictlyAscending;
    assert CapsOf(groups, s, namespace) == first + second;
    assert forall k :: 0 <= k < |first| ==> first[k] in first;
    assert forall k :: 0 <= k < |second| ==> second[k] in second;
  }

  // ----- What a request does -----

  /** The capabilities of every listed service are derived anew from what is stored. */
  ghost function Refresh(groups: map<string, Group>, services: map<string, Service>, namespace: Option<string>,
                         list: seq<string>, caps: map<string, seq<Cap>>): map<string, seq<Cap>>
  {
    if list == [] then caps
    else
      var before := Refresh(groups, services, namespace, list[..|list| - 1], caps);
      var name := list[|list| - 1];
      before[name := CapsOf(groups, GetService(services, name), namespace)]
  }

  function Granting(s: Service, permission: string, group: string, prefixes: map<string, seq<string>>): Service
  {
    Service(s.groupNames[permission := AddOnce(NamesUnder(s.groupNames, permission), group)],
            if prefixes != map[] then prefixes else s.prefixPerms)
  }

  ghost function Applied(st: Store, r: Request): Store
  {
    match r
    case AddPermission(service, group, namespace, permission, prefixes) =>
      var name := FullName(namespace, group);
      var g := GetGroup(st.groups, name);
      var groups := st.groups[name := g.(services := AddOnce(g.services, service))];
      var s := Granting(GetService(st.services, service), PermissionOf(permission), name, prefixes);
      Store(groups, st.services[service := s], st.caps[service := CapsOf(groups, s, namespace)])
    case AddPool(pool, group, namespace) =>
      var name := FullName(namespace, group);
      var g := GetGroup(st.groups, name);
      var groups := st.groups[name := g.(pools := AddOnce(g.pools, pool))];
      Store(groups, st.services, Refresh(groups, st.services, namespace, g.services, st.caps))
  }

  ghost function Replay(reqs: seq<Request>): Store
  {
    if reqs == [] then Store(map[], map[], map[]) else Applied(Replay(reqs[..|reqs| - 1]), reqs[|reqs| - 1])
  }

  // ----- The code -----

  class CephBroker {
    var groups: map<string, Group>
    var services: map<string, Service>
    var caps: map<string, seq<Cap>>

    ghost function Contents(): Store
      reads this
    {
      Store(groups, services, caps)
    }

    constructor ()
      ensures Contents() == Replay([])
    {
      groups, services, caps := map[], map[], map[];
    }

    method BuildServiceGroups(s: Service, namespace: Option<string>) returns (all: map<string, Group>)
      ensures all == Populate(groups, s, namespace)
    {
      all := map[];
      var perms := s.groupNames.Keys;
      while perms != {}
        invariant perms <= s.groupNames.Keys
        invariant forall g :: g in all <==> exists p :: p in s.groupNames && p !in perms && g in s.groupNames[p]
        invariant forall g :: g in all ==> all[g] == GetGroup(groups, FullName(namespace, g))
        decreases |perms|
      {
        var p :| p in perms;
        ghost var before := all;
        var list := s.groupNames[p];
        var i := 0;
        while i < |list|
          invariant i <= |list|
          invariant forall g :: g in all <==> g in before || g in list[..i]
          invariant forall g :: g in all ==> all[g] == GetGroup(groups, FullName(namespace, g))
        {
          all := all[list[i] := GetGroup(groups, FullName(namespace, list[i]))];
          i := i + 1;
        }
        assert list[..|list|] == list;
        perms := perms - {p};
      }
    }

    method PoolPermissionList(s: Service, all: map<string, Group>) returns (list: seq<Cap>)
      ensures list == CapList(all, s)
    {
      var pools := PoolEntries(s.groupNames, all);
      var prefixes := PrefixEntries(s.prefixPerms);
      list := pools + prefixes;
    }

    method PoolEntries(groupNames: map<string, seq<string>>, all: map<string, Group>) returns (list: seq<Cap>)
      ensures list == PermissionCaps(all, groupNames, SortedSet(groupNames.Keys))
    {
      hide StrictlyAscending, PermissionCaps;
      var perms := SortKeys(groupNames.Keys);
      list := PoolEntriesInOrder(groupNames, perms, all);
    }

    method PoolEntriesInOrder(groupNames: map<string, seq<string>>, perms: seq<string>, all: map<string, Group>)
        returns (list: seq<Cap>)
      requires forall p :: p in perms ==> p in groupNames
      ensures list == PermissionCaps(all, groupNames, perms)
    {
      list := [];
      var i := 0;
      while i < |perms|
        invariant i <= |perms|
        invariant list == PermissionCaps(all, groupNames, perms[..i])
      {
        var part := GroupEntries(perms[i], groupNames[perms[i]], all);
        assert perms[..i + 1][..i] == perms[..i];
        list := list + part;
        i := i + 1;
      }
      assert perms[..|perms|] == perms;
    }

    method GroupEntries(permission: string, names: seq<string>, all: map<string, Group>) returns (list: seq<Cap>)
      ensures list == GroupCaps(all, permission, names)
    {
      list := [];
      var i := 0;
      while i < |names|
        invariant i <= |names|
        invariant list == GroupCaps(all, permission, names[..i])
      {
        var pools := GetGroup(all, names[i]).pools;
        ghost var before := list;
        var j := 0;
        while j < |pools|
          invariant j <= |pools|
          invariant list == before + PoolCaps(permission, pools[..j])
        {
          assert pools[..j + 1][..j] == pools[..j];
          list := list + [PoolCap(permission, pools[j])];
          j := j + 1;
        }
        assert pools[..|pools|] == pools;
        assert names[..i + 1][..i] == names[..i];
        i := i + 1;
      }
      assert names[..|names|] == names;
    }

    method PrefixEntries(prefixPerms: map<string, seq<string>>) returns (list: seq<Cap>)
      ensures list == PrefixCaps(prefixPerms, SortedSet(prefixPerms.Keys))
    {
      hide StrictlyAscending, PrefixCaps;
      var perms := SortKeys(prefixPerms.Keys);
      list := PrefixEntriesInOrder(prefixPerms, perms);
    }

    method PrefixEntriesInOrder(prefixPerms: map<string, seq<string>>, perms: seq<string>) returns (list: seq<Cap>)
      requires forall p :: p in perms ==> p in prefixPerms
      ensures list == PrefixCaps(prefixPerms, perms)
    {
      list := [];
      var i := 0;
      while i < |perms|
        invariant i <= |perms|
        invariant list == PrefixCaps(prefixPerms, perms[..i])
      {
        var part := PrefixPermissionList(perms[i], prefixPerms[perms[i]]);
        assert perms[..i + 1][..i] == perms[..i];
        list := list + part;
        i := i + 1;
      }
      assert perms[..|perms|] == perms;
    }

    method PrefixPermissionList(permission: string, prefixes: seq<string>) returns (list: seq<Cap>)
      ensures list == PrefixCapsOf(permission, prefixes)
    {
      list := [];
      var j := 0;
      while j < |prefixes|
        invariant j <= |prefixes|
        invariant list == PrefixCapsOf(permission, prefixes[..j])
      {
        assert prefixes[..j + 1][..j] == prefixes[..j];
        list := list + [PrefixCap(permission, prefixes[j])];
        j := j + 1;
      }
      assert prefixes[..|prefixes|] == prefixes;
    }

    /** update_service_permissions; the capabilities are assumed to reach Ceph. */
    method UpdateServicePermissions(name: string, s: Service, all: map<string, Group>)
      modifies `caps
      ensures caps == old(caps)[name := CapList(all, s)]
    {
      var list := PoolPermissionList(s, all);
      caps := caps[name := list];
    }

    /** The service's record of the grant, as the handler fills it in. */
    method RecordGrant(service: Service, permission: string, name: string, prefixes: map<string, seq<string>>)
        returns (s: Service)
      ensures s == Granting(service, permission, name, prefixes)
    {
      s := service;
      if prefixes != map[] {
        s := s.(prefixPerms := prefixes);
      }
      if permission !in s.groupNames {
        s := s.(groupNames := s.groupNames[permission := []]);
      }
      if name !in s.groupNames[permission] {
        s := s.(groupNames := s.groupNames[permission := s.groupNames[permission] + [name]]);
      }
      assert s.groupNames == Granting(service, permission, name, prefixes).groupNames;
    }

    method HandleAddPermissionsToKey(service: string, group: string, namespace: Option<string>,
                                     permission: Option<string>, prefixes: map<string, seq<string>>)
      modifies this
      ensures Contents() == Applied(old(Contents()), AddPermission(service, group, namespace, permission, prefixes))
    {
      hide CapList, Populate, Granting;
      var name := FullName(namespace, group);
      var g := GetGroup(groups, name);
      var s := RecordGrant(GetService(services, service), PermissionOf(permission), name, prefixes);
      if service !in g.services {
        g := g.(services := g.services + [service]);
      }
      groups := groups[name := g];
      services := services[service := s];
      var all := BuildServiceGroups(s, namespace);
      UpdateServicePermissions(service, s, all);
    }

    method AddPoolToGroup(pool: string, group: string, namespace: Option<string>)
      modifies this
      ensures Contents() == Applied(old(Contents()), AddPool(pool, group, namespace))
    {
      hide CapList, Populate;
      var name := FullName(namespace, group);
      var g := GetGroup(groups, name);
      if pool !in g.pools {
        g := g.(pools := g.pools + [pool]);
      }
      groups := groups[name := g];
      var i := 0;
      while i < |g.services|
        invariant i <= |g.services|
        invariant groups == old(groups)[name := g] && services == old(services)
        invariant caps == Refresh(groups, services, namespace, g.services[..i], old(caps))
      {
        var s := GetService(services, g.services[i]);
        var all := BuildServiceGroups(s, namespace);
        UpdateServicePermissions(g.services[i], s, all);
        assert g.services[..i + 1][..i] == g.services[..i];
        i := i + 1;
      }
      assert g.services[..|g.services|] == g.services;
    }
  }
}
