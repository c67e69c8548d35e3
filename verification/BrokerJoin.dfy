/**
 * What a whole history of broker requests amounts to: the two indexes agree, and the capabilities of every
 * client are the join of the permissions it was granted and the pools that were added.
 */
module BrokerJoin {
  import opened Lists
  import opened Wrappers
  import opened Names
  import opened Broker

  /** A permission is granted as it is named; a request that names none, or an empty one, means "rwx". */
  predicate Asks(named: Option<string>, permission: string)
  {
    if named.Some? && named.value != "" then permission == named.value else permission == "rwx"
  }

  /** Under a namespace a group's name is the namespace, a dash and the name; otherwise it is the name alone. */
  predicate IsNamed(namespace: Option<string>, group: string, name: string)
  {
    if namespace.None? || namespace.value == "" then name == group
    else
      var n := |namespace.value|;
      && |name| == n + 1 + |group| && name[n] == '-'
      && name[..n] == namespace.value && name[n + 1..] == group
  }

  predicate Grants(r: Request, service: string, permission: string, group: string)
  {
    r.AddPermission? && r.service == service && Asks(r.permission, permission) && IsNamed(r.namespace, r.group, group)
  }

  predicate Adds(r: Request, pool: string, group: string)
  {
    r.AddPool? && r.pool == pool && IsNamed(r.namespace, r.group, group)
  }

  /** The names that the operations compute are these. */
  lemma NamesAreMeant(named: Option<string>, permission: string, namespace: Option<string>, group: string, name: string)
    ensures Asks(named, permission) <==> permission == PermissionOf(named)
    ensures IsNamed(namespace, group, name) <==> name == FullName(namespace, group)
  {
    if namespace.Some? && namespace.value != "" && IsNamed(namespace, group, name) {
      var n := |namespace.value|;
      assert name == name[..n] + [name[n]] + name[n + 1..];
    }
  }

  ghost predicate Granted(reqs: seq<Request>, service: string, permission: string, group: string)
  {
    exists r :: r in reqs && Grants(r, service, permission, group)
  }

  ghost predicate GrantedSome(reqs: seq<Request>, service: string, group: string)
  {
    exists p :: Granted(reqs, service, p, group)
  }

  ghost predicate Added(reqs: seq<Request>, pool: string, group: string)
  {
    exists r :: r in reqs && Adds(r, pool, group)
  }

  ghost predicate IsClient(reqs: seq<Request>, service: string)
  {
    exists r :: r in reqs && r.AddPermission? && r.service == service
  }

  /** The object prefixes of the latest request of this service that named any. */
  function LatestPrefixes(reqs: seq<Request>, service: string): map<string, seq<string>>
  {
    if reqs == [] then map[]
    else
      var r := reqs[|reqs| - 1];
      if r.AddPermission? && r.service == service && r.prefixes != map[] then r.prefixes
      else LatestPrefixes(reqs[..|reqs| - 1], service)
  }

  predicate NoNamespace(r: Request)
  {
    r.namespace.None? || r.namespace.value == ""
  }

  predicate Plain(reqs: seq<Request>)
  {
    forall r :: r in reqs ==> NoNamespace(r)
  }

  // ----- The indexes -----

  function PoolsOf(st: Store, group: string): seq<string>
  {
    GetGroup(st.groups, group).pools
  }

  function ServicesOf(st: Store, group: string): seq<string>
  {
    GetGroup(st.groups, group).services
  }

  function GrantsOf(st: Store, service: string, permission: string): seq<string>
  {
    NamesUnder(GetService(st.services, service).groupNames, permission)
  }

  /** Both indexes as relations over the history, with or without namespaces. */
  ghost predicate IndexesOk(reqs: seq<Request>, st: Store)
  {
    && (forall s, p, g :: g in GrantsOf(st, s, p) <==> Granted(reqs, s, p, g))
    && (forall x, g :: x in PoolsOf(st, g) <==> Added(reqs, x, g))
    && (forall s, g :: s in ServicesOf(st, g) <==> GrantedSome(reqs, s, g))
    && (forall s :: s in st.services <==> IsClient(reqs, s))
    && (forall s :: GetService(st.services, s).prefixPerms == LatestPrefixes(reqs, s))
  }

  lemma StepGrants(st: Store, r: Request, s: string, p: string, g: string)
    ensures g in GrantsOf(Applied(st, r), s, p) <==> g in GrantsOf(st, s, p) || Grants(r, s, p, g)
  {
    NamesAreMeant(if r.AddPermission? then r.permission else None, p, r.namespace, r.group, g);
    hide FullName, PermissionOf, IsNamed, Asks;
  }

  lemma StepPools(st: Store, r: Request, x: string, g: string)
    ensures x in PoolsOf(Applied(st, r), g) <==> x in PoolsOf(st, g) || Adds(r, x, g)
  {
    NamesAreMeant(None, "", r.namespace, r.group, g);
    hide FullName, IsNamed;
  }

  lemma StepServices(st: Store, r: Request, s: string, g: string)
    ensures s in ServicesOf(Applied(st, r), g) <==>
      s in ServicesOf(st, g) || exists p :: Grants(r, s, p, g)
  {
    if r.AddPermission? {
      NamesAreMeant(r.permission, PermissionOf(r.permission), r.namespace, r.group, g);
    } else {
      NamesAreMeant(None, "", r.namespace, r.group, g);
    }
    hide FullName, PermissionOf, IsNamed, Asks;
    if r.AddPermission? && r.service == s && IsNamed(r.namespace, r.group, g) {
      assert Grants(r, s, PermissionOf(r.permission), g);
    }
  }

  lemma StepClients(st: Store, r: Request, s: string)
    ensures s in Applied(st, r).services <==> s in st.services || (r.AddPermission? && r.service == s)
    ensures GetService(Applied(st, r).services, s).prefixPerms ==
      if r.AddPermission? && r.service == s && r.prefixes != map[] then r.prefixes
      else GetService(st.services, s).prefixPerms
  {
  }

  lemma SnocMember(reqs: seq<Request>, r: Request)
    requires reqs != []
    ensures r in reqs <==> r in reqs[..|reqs| - 1] || r == reqs[|reqs| - 1]
  {
    assert reqs == reqs[..|reqs| - 1] + [reqs[|reqs| - 1]];
  }

  lemma GrantedSnoc(reqs: seq<Request>, s: string, p: string, g: string)
    requires reqs != []
    ensures Granted(reqs, s, p, g) <==>
      Granted(reqs[..|reqs| - 1], s, p, g) || Grants(reqs[|reqs| - 1], s, p, g)
  {
    forall r
      ensures r in reqs <==> r in reqs[..|reqs| - 1] || r == reqs[|reqs| - 1]
    {
      SnocMember(reqs, r);
    }
  }

  lemma AddedSnoc(reqs: seq<Request>, x: string, g: string)
    requires reqs != []
    ensures Added(reqs, x, g) <==> Added(reqs[..|reqs| - 1], x, g) || Adds(reqs[|reqs| - 1], x, g)
  {
    forall r
      ensures r in reqs <==> r in reqs[..|reqs| - 1] || r == reqs[|reqs| - 1]
    {
      SnocMember(reqs, r);
    }
  }

  lemma ClientSnoc(reqs: seq<Request>, s: string)
    requires reqs != []
    ensures var r := reqs[|reqs| - 1];
      IsClient(reqs, s) <==> IsClient(reqs[..|reqs| - 1], s) || (r.AddPermission? && r.service == s)
  {
    forall r
      ensures r in reqs <==> r in reqs[..|reqs| - 1] || r == reqs[|reqs| - 1]
    {
      SnocMember(reqs, r);
    }
  }

  lemma NothingGranted()
    ensures IndexesOk([], Replay([]))
  {
  }

  /** After any history the stored indexes are exactly the relations of the history. */
  lemma {:induction false} IndexesAgree(reqs: seq<Request>)
    ensures IndexesOk(reqs, Replay(reqs))
  {
    hide Applied, Granted, Added, GrantedSome, IsClient;
    if reqs == [] {
      NothingGranted();
    } else {
      var before, r := reqs[..|reqs| - 1], reqs[|reqs| - 1];
      var st := Replay(before);
      IndexesAgree(before);
      assert Replay(reqs) == Applied(st, r);
      forall s, p, g
        ensures g in GrantsOf(Replay(reqs), s, p) <==> Granted(reqs, s, p, g)
      {
        StepGrants(st, r, s, p, g);
        GrantedSnoc(reqs, s, p, g);
      }
      forall x, g
        ensures x in PoolsOf(Replay(reqs), g) <==> Added(reqs, x, g)
      {
        StepPools(st, r, x, g);
        AddedSnoc(reqs, x, g);
      }
      forall s, g
        ensures s in ServicesOf(Replay(reqs), g) <==> GrantedSome(reqs, s, g)
      {
        ServicesSnoc(reqs, s, g);
      }
      forall s
        ensures s in Replay(reqs).services <==> IsClient(reqs, s)
        ensures GetService(Replay(reqs).services, s).prefixPerms == LatestPrefixes(reqs, s)
      {
        StepClients(st, r, s);
        ClientSnoc(reqs, s);
      }
    }
  }

  lemma GrantFacts(reqs: seq<Request>, s: string, p: string, g: string)
    ensures g in GrantsOf(Replay(reqs), s, p) <==> Granted(reqs, s, p, g)
    ensures s in ServicesOf(Replay(reqs), g) <==> GrantedSome(reqs, s, g)
  {
    IndexesAgree(reqs);
  }

  lemma PoolFacts(reqs: seq<Request>, x: string, g: string)
    ensures x in PoolsOf(Replay(reqs), g) <==> Added(reqs, x, g)
  {
    IndexesAgree(reqs);
  }

  lemma ClientFacts(reqs: seq<Request>, s: string)
    ensures s in Replay(reqs).services <==> IsClient(reqs, s)
    ensures GetService(Replay(reqs).services, s).prefixPerms == LatestPrefixes(reqs, s)
  {
    IndexesAgree(reqs);
  }

  lemma ServicesSnoc(reqs: seq<Request>, s: string, g: string)
    requires reqs != []
    requires s in ServicesOf(Replay(reqs[..|reqs| - 1]), g) <==> GrantedSome(reqs[..|reqs| - 1], s, g)
    ensures s in ServicesOf(Replay(reqs), g) <==> GrantedSome(reqs, s, g)
  {
    var before, r := reqs[..|reqs| - 1], reqs[|reqs| - 1];
    StepServices(Replay(before), r, s, g);
    assert Replay(reqs) == Applied(Replay(before), r);
    hide Applied, Grants, Replay, ServicesOf, Granted;
    forall p
      ensures Granted(reqs, s, p, g) <==> Granted(before, s, p, g) || Grants(r, s, p, g)
    {
      GrantedSnoc(reqs, s, p, g);
    }
  }

  /** A group lists a service exactly when the service lists the group under some permission. */
  lemma GroupAndServiceAgree(reqs: seq<Request>, service: string, group: string)
    ensures var st := Replay(reqs);
      service in ServicesOf(st, group) <==> InSomeGroup(GetService(st.services, service).groupNames, group)
  {
    hide Replay;
    var st := Replay(reqs);
    forall p
      ensures group in GrantsOf(st, service, p) <==> Granted(reqs, service, p, group)
      ensures service in ServicesOf(st, group) <==> GrantedSome(reqs, service, group)
    {
      GrantFacts(reqs, service, p, group);
    }
    if service in ServicesOf(st, group) {
      GrantFacts(reqs, service, "", group);
      var p :| Granted(reqs, service, p, group);
      assert group in GrantsOf(st, service, p);
    }
    if InSomeGroup(GetService(st.services, service).groupNames, group) {
      GrantFacts(reqs, service, "", group);
      var p :| p in GetService(st.services, service).groupNames &&
        group in GetService(st.services, service).groupNames[p];
      assert group in GrantsOf(st, service, p);
    }
  }

  // ----- No duplicates -----

  ghost predicate ListsDistinct(st: Store)
  {
    && (forall g :: Distinct(PoolsOf(st, g)) && Distinct(ServicesOf(st, g)))
    && (forall s, p :: Distinct(GrantsOf(st, s, p)))
  }

  lemma StepKeepsDistinct(st: Store, r: Request, s: string, p: string, g: string)
    requires Distinct(PoolsOf(st, g)) && Distinct(ServicesOf(st, g)) && Distinct(GrantsOf(st, s, p))
    ensures var st' := Applied(st, r);
      Distinct(PoolsOf(st', g)) && Distinct(ServicesOf(st', g)) && Distinct(GrantsOf(st', s, p))
  {
    hide CapsOf, Refresh, AddOnce, Distinct;
    match r
    case AddPermission(service, group, namespace, permission, _) =>
      AddOnceDistinct(ServicesOf(st, g), service);
      AddOnceDistinct(GrantsOf(st, s, p), FullName(namespace, group));
    case AddPool(pool, group, namespace) =>
      AddOnceDistinct(PoolsOf(st, g), pool);
  }

  lemma {:induction false} NoDuplicates(reqs: seq<Request>)
    ensures ListsDistinct(Replay(reqs))
  {
    hide Applied;
    if reqs != [] {
      var st, r := Replay(reqs[..|reqs| - 1]), reqs[|reqs| - 1];
      NoDuplicates(reqs[..|reqs| - 1]);
      forall g
        ensures Distinct(PoolsOf(Applied(st, r), g)) && Distinct(ServicesOf(Applied(st, r), g))
      {
        assert Distinct(PoolsOf(st, g)) && Distinct(ServicesOf(st, g)) && Distinct(GrantsOf(st, "", ""));
        StepKeepsDistinct(st, r, "", "", g);
      }
      forall s, p
        ensures Distinct(GrantsOf(Applied(st, r), s, p))
      {
        assert Distinct(PoolsOf(st, "")) && Distinct(ServicesOf(st, "")) && Distinct(GrantsOf(st, s, p));
        StepKeepsDistinct(st, r, s, p, "");
      }
    }
  }

  // ----- The capability list as a set -----

  lemma {:induction false} PoolCapsMembers(permission: string, pools: seq<string>, c: Cap)
    ensures c in PoolCaps(permission, pools) <==> c.PoolCap? && c.permission == permission && c.pool in pools
  {
    if pools != [] {
      PoolCapsMembers(permission, pools[..|pools| - 1], c);
      assert pools == pools[..|pools| - 1] + [pools[|pools| - 1]];
    }
  }

  lemma {:induction false} GroupCapsMembers(groups: map<string, Group>, permission: string, names: seq<string>, c: Cap)
    ensures c in GroupCaps(groups, permission, names) <==>
      c.PoolCap? && c.permission == permission && exists g :: g in names && c.pool in GetGroup(groups, g).pools
  {
    if names != [] {
      var init, last := names[..|names| - 1], names[|names| - 1];
      GroupCapsMembers(groups, permission, init, c);
      PoolCapsMembers(permission, GetGroup(groups, last).pools, c);
      assert forall g :: g in names <==> g in init || g == last by {
        assert names == init + [last];
      }
    }
  }

  lemma {:induction false} PermissionCapsMembers(groups: map<string, Group>, groupNames: map<string, seq<string>>,
                                                 perms: seq<string>, c: Cap)
    ensures c in PermissionCaps(groups, groupNames, perms) <==>
      c.PoolCap? && c.permission in perms &&
      exists g :: g in NamesUnder(groupNames, c.permission) && c.pool in GetGroup(groups, g).pools
  {
    if perms != [] {
      var init, last := perms[..|perms| - 1], perms[|perms| - 1];
      PermissionCapsMembers(groups, groupNames, init, c);
      GroupCapsMembers(groups, last, NamesUnder(groupNames, last), c);
      assert forall p :: p in perms <==> p in init || p == last by {
        assert perms == init + [last];
      }
    }
  }

  lemma {:induction false} PrefixCapsOfMembers(permission: string, prefixes: seq<string>, c: Cap)
    ensures c in PrefixCapsOf(permission, prefixes) <==>
      c.PrefixCap? && c.permission == permission && c.prefix in prefixes
  {
    if prefixes != [] {
      PrefixCapsOfMembers(permission, prefixes[..|prefixes| - 1], c);
      assert prefixes == prefixes[..|prefixes| - 1] + [prefixes[|prefixes| - 1]];
    }
  }

  lemma {:induction false} PrefixCapsMembers(prefixPerms: map<string, seq<string>>, perms: seq<string>, c: Cap)
    ensures c in PrefixCaps(prefixPerms, perms) <==>
      c.PrefixCap? && c.permission in perms && c.prefix in NamesUnder(prefixPerms, c.permission)
  {
    if perms != [] {
      var init, last := perms[..|perms| - 1], perms[|perms| - 1];
      PrefixCapsMembers(prefixPerms, init, c);
      PrefixCapsOfMembers(last, NamesUnder(prefixPerms, last), c);
      assert forall p :: p in perms <==> p in init || p == last by {
        assert perms == init + [last];
      }
    }
  }

  /** What the list for a service contains; a group name is looked up behind the namespace of the request. */
  lemma CapsMembers(groups: map<string, Group>, s: Service, namespace: Option<string>, c: Cap)
    ensures c in CapsOf(groups, s, namespace) <==>
      match c
      case PoolCap(permission, pool) =>
        exists g :: g in NamesUnder(s.groupNames, permission) && pool in GetGroup(groups, FullName(namespace, g)).pools
      case PrefixCap(permission, prefix) => prefix in NamesUnder(s.prefixPerms, permission)
  {
    var all := Populate(groups, s, namespace);
    PermissionCapsMembers(all, s.groupNames, SortedSet(s.groupNames.Keys), c);
    PrefixCapsMembers(s.prefixPerms, SortedSet(s.prefixPerms.Keys), c);
    if c.PoolCap? {
      forall g | g in NamesUnder(s.groupNames, c.permission)
        ensures GetGroup(all, g) == GetGroup(groups, FullName(namespace, g))
      {
        assert g in GroupNamesOf(s);
      }
    }
  }

  // ----- The join -----

  /** Every client's last list is the one that a fresh derivation would give. */
  ghost predicate CapsCurrent(st: Store)
  {
    && st.caps.Keys == st.services.Keys
    && forall s :: s in st.services ==> st.caps[s] == CapsOf(st.groups, st.services[s], None)
  }

  lemma {:induction false} GroupCapsFrame(groups: map<string, Group>, groups': map<string, Group>, permission: string,
                                          names: seq<string>)
    requires forall g :: g in names ==> GetGroup(groups, g).pools == GetGroup(groups', g).pools
    ensures GroupCaps(groups, permission, names) == GroupCaps(groups', permission, names)
  {
    if names != [] {
      GroupCapsFrame(groups, groups', permission, names[..|names| - 1]);
    }
  }

  lemma {:induction false} PermissionCapsFrame(groups: map<string, Group>, groups': map<string, Group>,
                                               groupNames: map<string, seq<string>>, perms: seq<string>)
    requires forall p, g :: p in groupNames && g in groupNames[p] ==>
      GetGroup(groups, g).pools == GetGroup(groups', g).pools
    ensures PermissionCaps(groups, groupNames, perms) == PermissionCaps(groups', groupNames, perms)
  {
    if perms != [] {
      PermissionCapsFrame(groups, groups', groupNames, perms[..|perms| - 1]);
      var last := perms[|perms| - 1];
      GroupCapsFrame(groups, groups', last, NamesUnder(groupNames, last));
    }
  }

  /** A list depends on the pools of the service's own groups only. */
  lemma CapsFrame(groups: map<string, Group>, groups': map<string, Group>, s: Service, ns: Option<string>,
                  ns': Option<string>)
    requires forall p, g :: p in s.groupNames && g in s.groupNames[p] ==>
      GetGroup(groups, FullName(ns, g)).pools == GetGroup(groups', FullName(ns', g)).pools
    ensures CapsOf(groups, s, ns) == CapsOf(groups', s, ns')
  {
    var all, all' := Populate(groups, s, ns), Populate(groups', s, ns');
    forall p, g | p in s.groupNames && g in s.groupNames[p]
      ensures GetGroup(all, g).pools == GetGroup(all', g).pools
    {
      assert g in GroupNamesOf(s);
    }
    PermissionCapsFrame(all, all', s.groupNames, SortedSet(s.groupNames.Keys));
  }

  lemma {:induction false} RefreshMeaning(groups: map<string, Group>, services: map<string, Service>,
                                          ns: Option<string>,
                                          list: seq<string>, caps: map<string, seq<Cap>>)
    ensures var after := Refresh(groups, services, ns, list, caps);
      && (forall s :: s in after <==> s in caps || s in list)
      && (forall s :: s in list ==> after[s] == CapsOf(groups, GetService(services, s), ns))
      && (forall s :: s in caps && s !in list ==> after[s] == caps[s])
  {
    hide CapsOf;
    if list != [] {
      RefreshMeaning(groups, services, ns, list[..|list| - 1], caps);
      assert list == list[..|list| - 1] + [list[|list| - 1]];
    }
  }

  lemma PermissionKeepsCurrent(st: Store, r: Request)
    requires CapsCurrent(st) && r.AddPermission? && NoNamespace(r)
    ensures CapsCurrent(Applied(st, r))
  {
    hide CapsOf;
    var st' := Applied(st, r);
    assert FullName(r.namespace, r.group) == r.group;
    forall s | s in st'.services
      ensures st'.caps[s] == CapsOf(st'.groups, st'.services[s], None)
    {
      if s == r.service {
        CapsFrame(st'.groups, st'.groups, st'.services[s], r.namespace, None);
      } else {
        CapsFrame(st.groups, st'.groups, st.services[s], None, None);
      }
    }
  }

  /** Services that a new pool does not refresh cannot depend on its group. */
  lemma PoolKeepsCurrent(st: Store, r: Request)
    requires CapsCurrent(st) && r.AddPool? && NoNamespace(r)
    requires forall s :: s in ServicesOf(st, r.group) <==> InSomeGroup(GetService(st.services, s).groupNames, r.group)
    ensures CapsCurrent(Applied(st, r))
  {
    hide CapsOf;
    var st' := Applied(st, r);
    var list := ServicesOf(st, r.group);
    assert FullName(r.namespace, r.group) == r.group;
    RefreshMeaning(st'.groups, st.services, r.namespace, list, st.caps);
    forall s | s in list
      ensures s in st.services
    {
      assert InSomeGroup(GetService(st.services, s).groupNames, r.group);
    }
    forall s | s in st'.services
      ensures st'.caps[s] == CapsOf(st'.groups, st'.services[s], None)
    {
      if s in list {
        CapsFrame(st'.groups, st'.groups, st'.services[s], r.namespace, None);
      } else {
        assert !InSomeGroup(st.services[s].groupNames, r.group);
        CapsFrame(st.groups, st'.groups, st.services[s], None, None);
      }
    }
  }

  lemma {:induction false} CapsStayCurrent(reqs: seq<Request>)
    requires Plain(reqs)
    ensures CapsCurrent(Replay(reqs))
  {
    if reqs != [] {
      var before, r := reqs[..|reqs| - 1], reqs[|reqs| - 1];
      CapsStayCurrent(before);
      if r.AddPermission? {
        PermissionKeepsCurrent(Replay(before), r);
      } else {
        forall s
          ensures s in ServicesOf(Replay(before), r.group) <==>
            InSomeGroup(GetService(Replay(before).services, s).groupNames, r.group)
        {
          GroupAndServiceAgree(before, s, r.group);
        }
        PoolKeepsCurrent(Replay(before), r);
      }
    }
  }

  /**
   * Exactly the clients have a capability list, and it holds exactly the join of grants and pools and the latest
   * object prefixes.
   */
  ghost predicate IsJoin(reqs: seq<Request>, service: string, c: Cap)
  {
    var caps := Replay(reqs).caps;
    && (service in caps <==> IsClient(reqs, service))
    && (service in caps ==>
         (c in caps[service] <==>
           match c
           case PoolCap(permission, pool) =>
             exists g :: Granted(reqs, service, permission, g) && Added(reqs, pool, g)
           case PrefixCap(permission, prefix) => prefix in NamesUnder(LatestPrefixes(reqs, service), permission)))
  }

  /** The main result: this holds after any sequence of requests without a namespace, in any order. */
  lemma CapsAreTheJoin(reqs: seq<Request>, service: string, c: Cap)
    requires Plain(reqs)
    ensures IsJoin(reqs, service, c)
  {
    hide Replay, CapsOf;
    var st := Replay(reqs);
    ClientFacts(reqs, service);
    CapsStayCurrent(reqs);
    if service in st.services {
      var s := st.services[service];
      CapsMembers(st.groups, s, None, c);
      if c.PoolCap? {
        forall g
          ensures g in NamesUnder(s.groupNames, c.permission) <==> Granted(reqs, service, c.permission, g)
          ensures c.pool in GetGroup(st.groups, FullName(None, g)).pools <==> Added(reqs, c.pool, g)
        {
          GrantFacts(reqs, service, c.permission, g);
          PoolFacts(reqs, c.pool, g);
        }
      }
    }
  }

  // ----- Replaying -----

  lemma GrantingAgain(s: Service, permission: string, group: string, prefixes: map<string, seq<string>>)
    requires group in NamesUnder(s.groupNames, permission)
    requires prefixes == map[] || prefixes == s.prefixPerms
    ensures Granting(s, permission, group, prefixes) == s
  {
    assert s.groupNames[permission := s.groupNames[permission]] == s.groupNames;
  }

  lemma GrantingTwice(s: Service, permission: string, group: string, prefixes: map<string, seq<string>>)
    ensures var s' := Granting(s, permission, group, prefixes); Granting(s', permission, group, prefixes) == s'
  {
    GrantingAgain(Granting(s, permission, group, prefixes), permission, group, prefixes);
  }

  lemma RepeatedGrantIsIdle(st: Store, r: Request)
    requires r.AddPermission?
    ensures Applied(Applied(st, r), r) == Applied(st, r)
  {
    hide CapsOf, Granting;
    var st1 := Applied(st, r);
    var st2 := Applied(st1, r);
    var name, p := FullName(r.namespace, r.group), PermissionOf(r.permission);
    GrantingTwice(GetService(st.services, r.service), p, name, r.prefixes);
    assert st2.groups == st1.groups;
    assert st2.services == st1.services;
    assert st2.caps == st1.caps;
  }

  lemma RepeatedPoolIsIdle(st: Store, r: Request)
    requires r.AddPool?
    ensures Applied(Applied(st, r), r) == Applied(st, r)
  {
    hide CapsOf, Refresh;
    var st1 := Applied(st, r);
    var st2 := Applied(st1, r);
    assert st2.groups == st1.groups;
    var list := ServicesOf(st, FullName(r.namespace, r.group));
    RefreshMeaning(st1.groups, st.services, r.namespace, list, st.caps);
    RefreshMeaning(st1.groups, st.services, r.namespace, list, st1.caps);
    assert st2.caps == st1.caps;
  }

  /** Repeating a request at once changes nothing, not even the order of the emitted list; namespaces included. */
  lemma RepeatIsIdle(st: Store, r: Request)
    ensures Applied(Applied(st, r), r) == Applied(st, r)
  {
    hide Applied;
    if r.AddPermission? {
      RepeatedGrantIsIdle(st, r);
    } else {
      RepeatedPoolIsIdle(st, r);
    }
  }

  /** The request names no object prefixes, or those that its service named last. */
  predicate PrefixesCurrent(reqs: seq<Request>, r: Request)
  {
    r.AddPermission? ==> r.prefixes == map[] || r.prefixes == LatestPrefixes(reqs, r.service)
  }

  /** Repeating any earlier request changes nothing if and only if its object prefixes are not out of date. */
  lemma ReplayIsIdle(reqs: seq<Request>, r: Request)
    requires Plain(reqs) && r in reqs
    ensures Applied(Replay(reqs), r) == Replay(reqs) <==> PrefixesCurrent(reqs, r)
  {
    if PrefixesCurrent(reqs, r) {
      CurrentRequestIsIdle(reqs, r);
    } else {
      hide CapsOf, Replay;
      ClientFacts(reqs, r.service);
      assert GetService(Applied(Replay(reqs), r).services, r.service).prefixPerms == r.prefixes;
    }
  }

  function GrantWith(service: string, group: string, prefix: string): Request
  {
    AddPermission(service, group, None, None, map["r" := [prefix]])
  }

  lemma OneGrantMore(reqs: seq<Request>, service: string, group: string, prefix: string)
    ensures var all := reqs + [GrantWith(service, group, prefix)];
      && IsClient(all, service) && LatestPrefixes(all, service) == map["r" := [prefix]]
      && Replay(all) == Applied(Replay(reqs), GrantWith(service, group, prefix))
  {
    var r := GrantWith(service, group, prefix);
    var all := reqs + [r];
    assert all[..|reqs|] == reqs && all[|reqs|] == r;
    assert map["r" := [prefix]] != map[] by {
      assert "r" in map["r" := [prefix]];
    }
    hide Applied;
    assert r in all && r.AddPermission? && r.service == service;
  }

  /** After a last request with a prefix, the client has that prefix and no other. */
  lemma LastPrefixOnly(reqs: seq<Request>, service: string, group: string, prefix: string, other: string)
    requires Plain(reqs)
    ensures var all := reqs + [GrantWith(service, group, prefix)];
      && Plain(all) && service in Replay(all).caps
      && (PrefixCap("r", other) in Replay(all).caps[service] <==> other == prefix)
      && Replay(all) == Applied(Replay(reqs), GrantWith(service, group, prefix))
  {
    var all := reqs + [GrantWith(service, group, prefix)];
    OneGrantMore(reqs, service, group, prefix);
    hide Replay, Applied, LatestPrefixes, Granted, Added, IsClient;
    CapsAreTheJoin(all, service, PrefixCap("r", other));
  }

  /** An out-of-date request brings its prefix back: the store and the emitted list are not what they were. */
  lemma StalePrefixesComeBack(service: string, group: string, stale: string, latest: string)
    requires stale != latest
    ensures var reqs := [GrantWith(service, group, stale), GrantWith(service, group, latest)];
      var before, after := Replay(reqs), Applied(Replay(reqs), reqs[0]);
      && after != before && service in before.caps && service in after.caps
      && PrefixCap("r", stale) !in before.caps[service] && PrefixCap("r", stale) in after.caps[service]
  {
    var reqs := [GrantWith(service, group, stale), GrantWith(service, group, latest)];
    assert [GrantWith(service, group, stale)] + [GrantWith(service, group, latest)] == reqs;
    hide GrantWith, Replay, Applied;
    LastPrefixOnly([], service, group, stale, stale);
    assert [] + [GrantWith(service, group, stale)] == [GrantWith(service, group, stale)];
    LastPrefixOnly([GrantWith(service, group, stale)], service, group, latest, stale);
    LastPrefixOnly(reqs, service, group, stale, stale);
  }

  lemma CurrentRequestIsIdle(reqs: seq<Request>, r: Request)
    requires Plain(reqs) && r in reqs && PrefixesCurrent(reqs, r)
    ensures Applied(Replay(reqs), r) == Replay(reqs)
  {
    hide CapsOf, Replay;
    var st := Replay(reqs);
    var st' := Applied(st, r);
    CapsStayCurrent(reqs);
    assert FullName(r.namespace, r.group) == r.group;
    if r.AddPermission? {
      var p := PermissionOf(r.permission);
      assert Grants(r, r.service, p, r.group);
      assert Granted(reqs, r.service, p, r.group);
      GrantFacts(reqs, r.service, p, r.group);
      ClientFacts(reqs, r.service);
      assert st'.groups == st.groups;
      GrantingAgain(GetService(st.services, r.service), p, r.group, r.prefixes);
      assert st'.services == st.services;
      CapsFrame(st.groups, st.groups, st.services[r.service], r.namespace, None);
      assert st'.caps == st.caps;
    } else {
      assert Adds(r, r.pool, r.group);
      PoolFacts(reqs, r.pool, r.group);
      assert st'.groups == st.groups;
      var list := ServicesOf(st, r.group);
      RefreshMeaning(st.groups, st.services, r.namespace, list, st.caps);
      forall s | s in list
        ensures s in st.services && CapsOf(st.groups, st.services[s], r.namespace) == st.caps[s]
      {
        GroupAndServiceAgree(reqs, s, r.group);
        CapsFrame(st.groups, st.groups, st.services[s], r.namespace, None);
      }
      assert st'.caps == st.caps;
    }
  }

  // ----- Namespaces -----

  /**
   * With a namespace the prefix is put before a group name that already carries it, so the pools of the group
   * are missed: after a grant and a pool for the same group, the client may use the pool exactly when the
   * namespace is empty.
   */
  lemma NamespaceMissesThePool(service: string, group: string, ns: string, pool: string)
    ensures var reqs := [AddPermission(service, group, Some(ns), None, map[]), AddPool(pool, group, Some(ns))];
      var name := FullName(Some(ns), group);
      && Granted(reqs, service, "rwx", name) && Added(reqs, pool, name)
      && service in Replay(reqs).caps
      && (PoolCap("rwx", pool) in Replay(reqs).caps[service] <==> ns == "")
  {
    var r0, r1 := AddPermission(service, group, Some(ns), None, map[]), AddPool(pool, group, Some(ns));
    var reqs := [r0, r1];
    var name := FullName(Some(ns), group);
    assert r0 in reqs && r1 in reqs;
    assert Grants(r0, service, "rwx", name) && Adds(r1, pool, name);
    if ns == "" {
      assert Plain(reqs);
      assert r0.AddPermission? && r0.service == service;
      CapsAreTheJoin(reqs, service, PoolCap("rwx", pool));
    } else {
      NamespaceIsDoubled(service, group, ns, pool);
    }
  }

  lemma NamespaceIsDoubled(service: string, group: string, ns: string, pool: string)
    requires ns != ""
    ensures var reqs := [AddPermission(service, group, Some(ns), None, map[]), AddPool(pool, group, Some(ns))];
      service in Replay(reqs).caps && PoolCap("rwx", pool) !in Replay(reqs).caps[service]
  {
    hide CapsOf;
    var r0, r1 := AddPermission(service, group, Some(ns), None, map[]), AddPool(pool, group, Some(ns));
    var name := FullName(Some(ns), group);
    assert [r0, r1][..1] == [r0] && [r0][..0] == [];
    var st := Applied(Replay([]), r0);
    assert Replay([r0]) == st;
    var st' := Applied(st, r1);
    assert Replay([r0, r1]) == st';
    var s := Service(map["rwx" := [name]], map[]);
    assert AddOnce([], name) == [name];
    assert st.services[service] == s;
    assert st.groups.Keys == {name} && ServicesOf(st, name) == [service];
    RefreshMeaning(st'.groups, st.services, Some(ns), [service], st.caps);
    CapsMembers(st'.groups, s, Some(ns), PoolCap("rwx", pool));
    assert |FullName(Some(ns), name)| > |name|;
    assert st'.groups.Keys == {name};
  }

  predicate AllUse(reqs: seq<Request>, ns: Option<string>)
  {
    forall r :: r in reqs ==> r.namespace == ns
  }

  lemma NamespaceBreaksTheJoin(ns: Option<string>) returns (reqs: seq<Request>)
    requires ns.Some? && ns.value != ""
    ensures AllUse(reqs, ns) && !IsJoin(reqs, "s", PoolCap("rwx", "p"))
  {
    reqs := [AddPermission("s", "g", ns, None, map[]), AddPool("p", "g", ns)];
    NamespaceMissesThePool("s", "g", ns.value, "p");
    hide Replay, Granted, Added, IsClient;
  }

  /** When all requests use one namespace, every history gives the join if and only if that namespace is empty. */
  lemma JoinNeedsEmptyNamespace(ns: Option<string>)
    ensures (forall reqs, service, c :: AllUse(reqs, ns) ==> IsJoin(reqs, service, c)) <==> ns.None? || ns.value == ""
  {
    if ns.None? || ns.value == "" {
      hide IsJoin;
      forall reqs, service, c | AllUse(reqs, ns)
        ensures IsJoin(reqs, service, c)
      {
        CapsAreTheJoin(reqs, service, c);
      }
    } else {
      hide IsJoin, AllUse;
      var reqs := NamespaceBreaksTheJoin(ns);
    }
  }
}
