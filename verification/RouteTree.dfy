/** Observation of a route's resources beneath a Gateway: what the listing calls
    return, the checks every resource must pass, and the resulting graph. */
module RouteTree {
  import opened Ownership
  import opened Octavia
  import opened RouteModel

  /** The authenticated project, address handling, and the identity in whose
      name the provider acts. */
  datatype Env = Env(project: string, net: Net, own: Owner)

  /** The load balancer and listener of the route's Gateway; the listener is ""
      when it does not exist. */
  datatype Site = Site(loadBalancer: Id, listener: Id)

  // ----- per-resource checks -----

  predicate PoolOk(env: Env, lb: Id, pool: Pool)
  {
    OptionalProjectOk(env.project, pool.project) &&
    env.own.discoversRoute(pool.tags, PoolRole) && env.own.exactRoute(pool.tags, PoolRole) &&
    AllEqual(pool.reported, lb)
  }

  predicate MemberOk(env: Env, pool: Id, member: Member)
  {
    OptionalProjectOk(env.project, member.project) &&
    env.own.exactRoute(member.tags, MemberRole) &&
    (member.reported == "" || member.reported == pool) &&
    env.net.parse(member.address).Some? && PortOk(member.port)
  }

  predicate MonitorOk(env: Env, pool: Id, monitor: Monitor)
  {
    OptionalProjectOk(env.project, monitor.project) &&
    env.own.exactRoute(monitor.tags, MonitorRole) && AllEqual(monitor.reported, pool)
  }

  /** The first of two candidate roles that the tags match exactly; a mere
      discovery match before that is a conflict. */
  function RoleAmong(own: Owner, tags: Tags, first: Role, second: Role): (r: Option<Role>)
  {
    if own.exactRoute(tags, first) then Some(first)
    else if own.discoversRoute(tags, first) then None
    else if own.exactRoute(tags, second) then Some(second)
    else None
  }

  function RolePolicy(own: Owner, tags: Tags): Option<Role>
  {
    RoleAmong(own, tags, PolicyExact, PolicyPrefix)
  }

  function RoleRule(own: Owner, tags: Tags): Option<Role>
  {
    RoleAmong(own, tags, RulePath, RuleHost)
  }

  predicate PolicyOk(env: Env, listener: Id, policy: Policy)
  {
    OptionalProjectOk(env.project, policy.project) && RolePolicy(env.own, policy.tags).Some? &&
    (policy.reported == "" || policy.reported == listener)
  }

  predicate RuleOk(env: Env, rule: Rule)
  {
    OptionalProjectOk(env.project, rule.project) && RoleRule(env.own, rule.tags).Some?
  }

  function CanonicalAddress(net: Net, member: Member): string
  {
    var a := net.parse(member.address);
    if a.Some? then a.value else member.address
  }

  /** The `address:port` text by which members are compared. */
  function MemberText(net: Net, member: Member): string
  {
    net.join(CanonicalAddress(net, member), member.port)
  }

  // ----- the tree a valid observation requires -----

  ghost predicate MembersOk(env: Env, members: Members, pool: Id)
  {
    (forall m :: m in MembersOf(members, pool) ==> MemberOk(env, pool, members[m])) &&
    (forall m, n :: m in MembersOf(members, pool) && n in MembersOf(members, pool) && m != n ==>
      MemberText(env.net, members[m]) != MemberText(env.net, members[n]))
  }

  ghost predicate MonitorsOk(env: Env, monitors: Monitors, pool: Id)
  {
    (forall m :: m in MonitorsOf(monitors, pool) ==> MonitorOk(env, pool, monitors[m])) &&
    (forall m, n :: m in MonitorsOf(monitors, pool) && n in MonitorsOf(monitors, pool) ==> m == n)
  }

  ghost predicate PoolTreeOk(env: Env, pools: Pools, members: Members, monitors: Monitors, lb: Id)
  {
    (forall p :: p in PoolsOf(pools, lb) ==> PoolOk(env, lb, pools[p])) &&
    (forall p, q :: p in PoolsOf(pools, lb) && q in PoolsOf(pools, lb) ==> p == q) &&
    (forall p :: p in PoolsOf(pools, lb) ==> MembersOk(env, members, p) && MonitorsOk(env, monitors, p))
  }

  ghost predicate RulesOk(env: Env, rules: Rules, policy: Id)
  {
    (forall r :: r in RulesOf(rules, policy) ==> RuleOk(env, rules[r])) &&
    (forall r, s :: r in RulesOf(rules, policy) && s in RulesOf(rules, policy) && r != s ==>
      RoleRule(env.own, rules[r].tags) != RoleRule(env.own, rules[s].tags))
  }

  ghost predicate PolicyTreeOk(env: Env, policies: Policies, rules: Rules, listener: Id)
  {
    listener != "" ==>
      (forall p :: p in PoliciesOf(policies, listener) ==>
        PolicyOk(env, listener, policies[p]) && RulesOk(env, rules, p)) &&
      (forall p, q :: p in PoliciesOf(policies, listener) && q in PoliciesOf(policies, listener) && p != q ==>
        RolePolicy(env.own, policies[p].tags) != RolePolicy(env.own, policies[q].tags))
  }

  /** Every resource of the tree belongs to the route, and each logical resource
      exists at most once. */
  ghost predicate TreeOk(env: Env, st: Store, site: Site)
  {
    PoolTreeOk(env, st.pools, st.members, st.monitors, site.loadBalancer) &&
    PolicyTreeOk(env, st.policies, st.rules, site.listener)
  }

  // ----- the observed graph -----

  datatype ObservedPool = ObservedPool(id: Id, pool: Pool)
  datatype ObservedMember = ObservedMember(id: Id, member: Member)
  datatype ObservedMonitor = ObservedMonitor(id: Id, monitor: Monitor)
  datatype ObservedRule = ObservedRule(id: Id, role: Role, rule: Rule)
  datatype ObservedPolicy = ObservedPolicy(id: Id, role: Role, policy: Policy, rules: seq<ObservedRule>)

  datatype RouteGraph = RouteGraph(
    pool: Option<ObservedPool>, members: seq<ObservedMember>, monitor: Option<ObservedMonitor>,
    policies: seq<ObservedPolicy>)

  function ObserveMember(net: Net, members: Members, id: Id): ObservedMember
    requires id in members
  {
    ObservedMember(id, members[id].(address := CanonicalAddress(net, members[id])))
  }

  function ObservedMembers(net: Net, members: Members, ids: seq<Id>): (r: seq<ObservedMember>)
    requires forall id :: id in ids ==> id in members
    ensures |r| == |ids| && forall i :: 0 <= i < |r| ==> r[i] == ObserveMember(net, members, ids[i])
  {
    seq(|ids|, i requires 0 <= i < |ids| => ObserveMember(net, members, ids[i]))
  }

  function ObserveRule(own: Owner, rules: Rules, id: Id): ObservedRule
    requires id in rules && RoleRule(own, rules[id].tags).Some?
  {
    ObservedRule(id, RoleRule(own, rules[id].tags).value, rules[id])
  }

  function ObservedRules(own: Owner, rules: Rules, ids: seq<Id>): (r: seq<ObservedRule>)
    requires forall id :: id in ids ==> id in rules && RoleRule(own, rules[id].tags).Some?
    ensures |r| == |ids| && forall i :: 0 <= i < |r| ==> r[i] == ObserveRule(own, rules, ids[i])
  {
    seq(|ids|, i requires 0 <= i < |ids| => ObserveRule(own, rules, ids[i]))
  }

  ghost predicate Readable(own: Owner, policies: Policies, rules: Rules, id: Id)
  {
    id in policies && RolePolicy(own, policies[id].tags).Some? &&
    forall r :: r in RulesOf(rules, id) ==> RoleRule(own, rules[r].tags).Some?
  }

  ghost function ObservePolicy(own: Owner, policies: Policies, rules: Rules, id: Id): ObservedPolicy
    requires Readable(own, policies, rules, id)
  {
    ObservedPolicy(id, RolePolicy(own, policies[id].tags).value, policies[id],
                   ObservedRules(own, rules, SortedIds(RulesOf(rules, id))))
  }

  ghost predicate IsObservedAs(own: Owner, policies: Policies, rules: Rules, id: Id, o: ObservedPolicy)
  {
    Readable(own, policies, rules, id) && o == ObservePolicy(own, policies, rules, id)
  }

  ghost function ObservedPolicies(own: Owner, policies: Policies, rules: Rules, ids: seq<Id>): (r: seq<ObservedPolicy>)
    requires forall id :: id in ids ==> Readable(own, policies, rules, id)
    ensures |r| == |ids| && forall i :: 0 <= i < |r| ==> r[i] == ObservePolicy(own, policies, rules, ids[i])
  {
    seq(|ids|, i requires 0 <= i < |ids| => ObservePolicy(own, policies, rules, ids[i]))
  }

  ghost function PoolAt(pools: Pools, lb: Id): (r: Option<Id>)
    ensures r.Some? ==> r.value in PoolsOf(pools, lb)
    ensures r.None? ==> PoolsOf(pools, lb) == {}
  {
    if PoolsOf(pools, lb) == {} then None
    else
      var p :| p in PoolsOf(pools, lb);
      Some(p)
  }

  ghost function MonitorAt(monitors: Monitors, pool: Id): (r: Option<Id>)
    ensures r.Some? ==> r.value in MonitorsOf(monitors, pool)
    ensures r.None? ==> MonitorsOf(monitors, pool) == {}
  {
    if MonitorsOf(monitors, pool) == {} then None
    else
      var m :| m in MonitorsOf(monitors, pool);
      Some(m)
  }

  ghost function PoliciesSeen(env: Env, st: Store, listener: Id): seq<ObservedPolicy>
    requires PolicyTreeOk(env, st.policies, st.rules, listener)
  {
    if listener == "" then []
    else ObservedPolicies(env.own, st.policies, st.rules, SortedPolicies(st.policies, listener))
  }

  ghost function GraphOf(env: Env, st: Store, site: Site): RouteGraph
    requires TreeOk(env, st, site)
  {
    var pool := PoolAt(st.pools, site.loadBalancer);
    var policies := PoliciesSeen(env, st, site.listener);
    if pool.None? then RouteGraph(None, [], None, policies)
    else
      var p := pool.value;
      var monitor := MonitorAt(st.monitors, p);
      RouteGraph(
        Some(ObservedPool(p, st.pools[p])),
        ObservedMembers(env.net, st.members, SortedMembers(st.members, p)),
        if monitor.None? then None else Some(ObservedMonitor(monitor.value, st.monitors[monitor.value])),
        policies)
  }

  /** The observation of a route graph: a conflict anywhere yields None. */
  ghost function Observe(env: Env, st: Store, site: Site): Option<RouteGraph>
  {
    if TreeOk(env, st, site) then Some(GraphOf(env, st, site)) else None
  }

  // ----- the observation as the provider performs it -----

  method ObserveRoutePool(env: Env, pools: Pools, lb: Id) returns (ok: bool, pool: Option<Id>)
    ensures ok <==> (forall p :: p in PoolsOf(pools, lb) ==> PoolOk(env, lb, pools[p])) &&
                    (forall p, q :: p in PoolsOf(pools, lb) && q in PoolsOf(pools, lb) ==> p == q)
    ensures ok ==> pool == PoolAt(pools, lb)
  {
    var ids := ListIds(PoolsOf(pools, lb));
    pool := None;
    for i := 0 to |ids|
      invariant forall j :: 0 <= j < i ==> PoolOk(env, lb, pools[ids[j]])
      invariant i == 0 ==> pool == None
      invariant i == 1 ==> pool == Some(ids[0])
      invariant i <= 1
    {
      if !PoolOk(env, lb, pools[ids[i]]) {
        return false, None;
      }
      if pool.Some? {
        return false, None;
      }
      pool := Some(ids[i]);
    }
    assert forall p :: p in PoolsOf(pools, lb) ==> p in ids;
    ok := true;
  }

  /** No key occurs twice. */
  predicate Distinct<T(==)>(keys: seq<T>)
  {
    forall i, j :: 0 <= i < j < |keys| ==> keys[i] != keys[j]
  }

  /** The lookup table of keys already seen, kept while a listing is scanned. */
  method HasDuplicate<T(==)>(keys: seq<T>) returns (duplicate: bool)
    ensures duplicate <==> !Distinct(keys)
  {
    var seen: set<T> := {};
    for i := 0 to |keys|
      invariant forall k :: k in seen <==> k in keys[..i]
      invariant Distinct(keys[..i])
    {
      if keys[i] in seen {
        ghost var j :| 0 <= j < i && keys[..i][j] == keys[i];
        assert keys[j] == keys[i];
        return true;
      }
      seen := seen + {keys[i]};
    }
    assert keys[..|keys|] == keys;
    duplicate := false;
  }

  function Texts(net: Net, members: Members, ids: seq<Id>): (r: seq<string>)
    requires forall i :: 0 <= i < |ids| ==> ids[i] in members
    ensures |r| == |ids| && forall i :: 0 <= i < |r| ==> r[i] == MemberText(net, members[ids[i]])
  {
    seq(|ids|, i requires 0 <= i < |ids| => MemberText(net, members[ids[i]]))
  }

  lemma MembersOkByListing(env: Env, members: Members, pool: Id)
    ensures var ids := SortedMembers(members, pool);
            MembersOk(env, members, pool) <==>
            (forall i :: 0 <= i < |ids| ==> MemberOk(env, pool, members[ids[i]])) && Distinct(Texts(env.net, members, ids))
  {
    hide MemberOk, MemberText;
    var ids := SortedMembers(members, pool);
    var texts := Texts(env.net, members, ids);
    if (forall i :: 0 <= i < |ids| ==> MemberOk(env, pool, members[ids[i]])) && Distinct(texts) {
      forall m | m in MembersOf(members, pool) ensures MemberOk(env, pool, members[m]) {
        var i :| 0 <= i < |ids| && ids[i] == m;
      }
      forall m, n | m in MembersOf(members, pool) && n in MembersOf(members, pool) && m != n
        ensures MemberText(env.net, members[m]) != MemberText(env.net, members[n])
      {
        var i :| 0 <= i < |ids| && ids[i] == m;
        var j :| 0 <= j < |ids| && ids[j] == n;
        assert texts[i] != texts[j];
      }
    }
  }

  method ObserveRouteMembers(env: Env, members: Members, pool: Id) returns (r: Option<seq<ObservedMember>>)
    ensures r.Some? <==> MembersOk(env, members, pool)
    ensures r.Some? ==> r.value == ObservedMembers(env.net, members, SortedMembers(members, pool))
  {
    hide MembersOk, MemberOk, Distinct;
    var ids := ListMembers(members, pool);
    MembersOkByListing(env, members, pool);
    for i := 0 to |ids|
      invariant forall j :: 0 <= j < i ==> MemberOk(env, pool, members[ids[j]])
    {
      if !MemberOk(env, pool, members[ids[i]]) {
        return None;
      }
    }
    var duplicate := HasDuplicate(Texts(env.net, members, ids));
    if duplicate {
      return None;
    }
    r := Some(ObservedMembers(env.net, members, ids));
  }

  method ObserveRouteMonitor(env: Env, monitors: Monitors, pool: Id) returns (ok: bool, monitor: Option<Id>)
    ensures ok <==> MonitorsOk(env, monitors, pool)
    ensures ok ==> monitor == MonitorAt(monitors, pool)
  {
    var ids := ListIds(MonitorsOf(monitors, pool));
    monitor := None;
    for i := 0 to |ids|
      invariant forall j :: 0 <= j < i ==> MonitorOk(env, pool, monitors[ids[j]])
      invariant i == 0 ==> monitor == None
      invariant i == 1 ==> monitor == Some(ids[0])
      invariant i <= 1
    {
      if !MonitorOk(env, pool, monitors[ids[i]]) {
        return false, None;
      }
      if monitor.Some? {
        return false, None;
      }
      monitor := Some(ids[i]);
    }
    assert forall m :: m in MonitorsOf(monitors, pool) ==> m in ids;
    ok := true;
  }

  function RuleRoles(own: Owner, rules: Rules, ids: seq<Id>): (r: seq<Option<Role>>)
    requires forall i :: 0 <= i < |ids| ==> ids[i] in rules
    ensures |r| == |ids| && forall i :: 0 <= i < |r| ==> r[i] == RoleRule(own, rules[ids[i]].tags)
  {
    seq(|ids|, i requires 0 <= i < |ids| => RoleRule(own, rules[ids[i]].tags))
  }

  lemma RulesOkByListing(env: Env, rules: Rules, policy: Id)
    ensures var ids := SortedIds(RulesOf(rules, policy));
            RulesOk(env, rules, policy) <==>
            (forall i :: 0 <= i < |ids| ==> RuleOk(env, rules[ids[i]])) && Distinct(RuleRoles(env.own, rules, ids))
  {
    hide RoleRule, RuleOk;
    var ids := SortedIds(RulesOf(rules, policy));
    var roles := RuleRoles(env.own, rules, ids);
    if (forall i :: 0 <= i < |ids| ==> RuleOk(env, rules[ids[i]])) && Distinct(roles) {
      forall r | r in RulesOf(rules, policy) ensures RuleOk(env, rules[r]) {
        var i :| 0 <= i < |ids| && ids[i] == r;
      }
      forall r, q | r in RulesOf(rules, policy) && q in RulesOf(rules, policy) && r != q
        ensures RoleRule(env.own, rules[r].tags) != RoleRule(env.own, rules[q].tags)
      {
        var i :| 0 <= i < |ids| && ids[i] == r;
        var j :| 0 <= j < |ids| && ids[j] == q;
        assert roles[i] != roles[j];
      }
    }
  }

  method ObserveRules(env: Env, rules: Rules, policy: Id) returns (r: Option<seq<ObservedRule>>)
    ensures r.Some? <==> RulesOk(env, rules, policy)
    ensures r.Some? ==> r.value == ObservedRules(env.own, rules, SortedIds(RulesOf(rules, policy)))
  {
    hide RoleAmong, Distinct;
    var ids := ListIds(RulesOf(rules, policy));
    RulesOkByListing(env, rules, policy);
    for i := 0 to |ids|
      invariant forall j :: 0 <= j < i ==> RuleOk(env, rules[ids[j]])
    {
      if !RuleOk(env, rules[ids[i]]) {
        return None;
      }
    }
    var duplicate := HasDuplicate(RuleRoles(env.own, rules, ids));
    if duplicate {
      return None;
    }
    r := Some(ObservedRules(env.own, rules, ids));
  }

  method ObserveRoutePolicy(env: Env, policies: Policies, rules: Rules, listener: Id, id: Id)
    returns (r: Option<ObservedPolicy>)
    requires id in policies
    ensures r.Some? <==> PolicyOk(env, listener, policies[id]) && RulesOk(env, rules, id)
    ensures r.Some? ==> IsObservedAs(env.own, policies, rules, id, r.value)
  {
    var policy := policies[id];
    if !OptionalProjectOk(env.project, policy.project) {
      return None;
    }
    var role := RolePolicy(env.own, policy.tags);
    if role.None? {
      return None;
    }
    if policy.reported != "" && policy.reported != listener {
      return None;
    }
    var observedRules := ObserveRules(env, rules, id);
    if observedRules.None? {
      return None;
    }
    r := Some(ObservedPolicy(id, role.value, policy, observedRules.value));
  }

  lemma ObservedInOrder(own: Owner, policies: Policies, rules: Rules, ids: seq<Id>, observed: seq<ObservedPolicy>)
    requires |observed| == |ids|
    requires forall j :: 0 <= j < |ids| ==> IsObservedAs(own, policies, rules, ids[j], observed[j])
    ensures forall id :: id in ids ==> Readable(own, policies, rules, id)
    ensures observed == ObservedPolicies(own, policies, rules, ids)
  {
    forall id | id in ids ensures Readable(own, policies, rules, id) {
      var j :| 0 <= j < |ids| && ids[j] == id;
      assert IsObservedAs(own, policies, rules, ids[j], observed[j]);
    }
  }

  function PolicyRoles(own: Owner, policies: Policies, ids: seq<Id>): (r: seq<Option<Role>>)
    requires forall i :: 0 <= i < |ids| ==> ids[i] in policies
    ensures |r| == |ids| && forall i :: 0 <= i < |r| ==> r[i] == RolePolicy(own, policies[ids[i]].tags)
  {
    seq(|ids|, i requires 0 <= i < |ids| => RolePolicy(own, policies[ids[i]].tags))
  }

  lemma PolicyTreeOkByListing(env: Env, policies: Policies, rules: Rules, listener: Id)
    requires listener != ""
    ensures var ids := SortedPolicies(policies, listener);
            PolicyTreeOk(env, policies, rules, listener) <==>
            (forall i :: 0 <= i < |ids| ==> PolicyOk(env, listener, policies[ids[i]]) && RulesOk(env, rules, ids[i])) &&
            Distinct(PolicyRoles(env.own, policies, ids))
  {
    hide RolePolicy, PolicyOk, RulesOk;
    var ids := SortedPolicies(policies, listener);
    var roles := PolicyRoles(env.own, policies, ids);
    if (forall i :: 0 <= i < |ids| ==> PolicyOk(env, listener, policies[ids[i]]) && RulesOk(env, rules, ids[i])) &&
       Distinct(roles)
    {
      forall p | p in PoliciesOf(policies, listener)
        ensures PolicyOk(env, listener, policies[p]) && RulesOk(env, rules, p)
      {
        var i :| 0 <= i < |ids| && ids[i] == p;
      }
      forall p, q | p in PoliciesOf(policies, listener) && q in PoliciesOf(policies, listener) && p != q
        ensures RolePolicy(env.own, policies[p].tags) != RolePolicy(env.own, policies[q].tags)
      {
        var i :| 0 <= i < |ids| && ids[i] == p;
        var j :| 0 <= j < |ids| && ids[j] == q;
        assert roles[i] != roles[j];
      }
    }
  }

  method ObserveRoutePolicies(env: Env, policies: Policies, rules: Rules, listener: Id)
    returns (r: Option<seq<ObservedPolicy>>)
    requires listener != ""
    ensures r.Some? <==> PolicyTreeOk(env, policies, rules, listener)
    ensures r.Some? ==> r.value == ObservedPolicies(env.own, policies, rules, SortedPolicies(policies, listener))
  {
    hide RulesOk, PolicyOk, RoleAmong, IsObservedAs, Distinct;
    var ids := ListPolicies(policies, listener);
    PolicyTreeOkByListing(env, policies, rules, listener);
    var observed: seq<ObservedPolicy> := [];
    for i := 0 to |ids|
      invariant |observed| == i
      invariant forall j :: 0 <= j < i ==> PolicyOk(env, listener, policies[ids[j]]) && RulesOk(env, rules, ids[j])
      invariant forall j :: 0 <= j < i ==> IsObservedAs(env.own, policies, rules, ids[j], observed[j])
    {
      var policy := ObserveRoutePolicy(env, policies, rules, listener, ids[i]);
      if policy.None? {
        return None;
      }
      observed := observed + [policy.value];
    }
    var duplicate := HasDuplicate(PolicyRoles(env.own, policies, ids));
    if duplicate {
      return None;
    }
    ObservedInOrder(env.own, policies, rules, ids, observed);
    r := Some(observed);
  }

  /** Any failed check anywhere in the tree makes the whole observation fail. */
  method ObserveRouteGraph(env: Env, st: Store, site: Site) returns (r: Option<RouteGraph>)
    ensures r == Observe(env, st, site)
  {
    var ok, pool := ObserveRoutePool(env, st.pools, site.loadBalancer);
    if !ok {
      return None;
    }
    var graph := RouteGraph(None, [], None, []);
    if pool.Some? {
      var p := pool.value;
      var members := ObserveRouteMembers(env, st.members, p);
      if members.None? {
        return None;
      }
      var monitorOk, monitor := ObserveRouteMonitor(env, st.monitors, p);
      if !monitorOk {
        return None;
      }
      graph := RouteGraph(
        Some(ObservedPool(p, st.pools[p])), members.value,
        if monitor.None? then None else Some(ObservedMonitor(monitor.value, st.monitors[monitor.value])), []);
    }
    assert PoolTreeOk(env, st.pools, st.members, st.monitors, site.loadBalancer);
    if site.listener != "" {
      var policies := ObserveRoutePolicies(env, st.policies, st.rules, site.listener);
      if policies.None? {
        return None;
      }
      graph := graph.(policies := policies.value);
    }
    r := Some(graph);
  }
}
