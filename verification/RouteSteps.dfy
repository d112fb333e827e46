/** What one executed mutation does to the store, when a mutation is justified,
    and how far a store is from the desired route. */
module RouteSteps {
  import opened Ownership
  import opened Octavia
  import opened RouteModel
  import opened RouteTree
  import opened RoutePlan

  // ----- execution -----

  function NewPool(env: Env, lb: Id): Pool
  {
    Pool(lb, [lb], env.project, env.own.routeTags(PoolRole), HTTP, RoundRobin, true)
  }

  function NewMember(env: Env, d: Desired, pool: Id, e: Endpoint): Member
  {
    Member(pool, pool, env.project, env.own.routeTags(MemberRole), e.address, e.port, d.spec.memberSubnet, true)
  }

  function NewMonitor(env: Env, d: Desired, pool: Id): Monitor
  {
    Monitor(pool, [pool], env.project, env.own.routeTags(MonitorRole), HTTPMonitor, MONITOR_DELAY, MONITOR_TIMEOUT,
            MONITOR_MAX_RETRIES, MONITOR_MAX_RETRIES_DOWN, d.healthPath, GET, MONITOR_EXPECTED_CODES, true)
  }

  function RepairedMonitor(d: Desired, monitor: Monitor): Monitor
  {
    monitor.(delay := MONITOR_DELAY, timeout := MONITOR_TIMEOUT, maxRetries := MONITOR_MAX_RETRIES,
             maxRetriesDown := MONITOR_MAX_RETRIES_DOWN, urlPath := d.healthPath, httpMethod := GET,
             expectedCodes := MONITOR_EXPECTED_CODES, up := true)
  }

  function NewPolicy(env: Env, listener: Id, pool: Id, w: DesiredPolicy): Policy
  {
    Policy(listener, listener, env.project, env.own.routeTags(w.role), RedirectToPool, pool, w.position, false)
  }

  function RepairedPolicy(policy: Policy, pool: Id, w: DesiredPolicy): Policy
  {
    policy.(action := RedirectToPool, redirectPool := pool, position := w.position, up := false)
  }

  function NewRule(env: Env, policy: Id, w: DesiredRule): Rule
  {
    Rule(policy, env.project, env.own.routeTags(w.role), w.ruleType, w.compareType, w.value, false, true)
  }

  function RepairedRule(rule: Rule, w: DesiredRule): Rule
  {
    rule.(ruleType := w.ruleType, compareType := w.compareType, value := w.value, invert := false, up := true)
  }

  /** One mutation is one atomic write of exactly the named fields; `id` is the
      ID the cloud assigns when the mutation creates something. An update of a
      resource that no longer exists fails and a deletion of one succeeds; both
      leave the store unchanged. */
  function Execute(env: Env, d: Desired, site: Site, st: Store, m: Mutation, id: Id): Store
  {
    match m
    case CreatePool => st.(pools := st.pools[id := NewPool(env, site.loadBalancer)])
    case UpdatePool(p) =>
      if p in st.pools then st.(pools := st.pools[p := st.pools[p].(lbMethod := RoundRobin, up := true)]) else st
    case DeleteMember(x, _) => st.(members := st.members - {x})
    case CreateMember(p, e) => st.(members := st.members[id := NewMember(env, d, p, e)])
    case UpdateMember(x, _) =>
      if x in st.members then st.(members := st.members[x := st.members[x].(up := true)]) else st
    case CreateMonitor(p) => st.(monitors := st.monitors[id := NewMonitor(env, d, p)])
    case UpdateMonitor(x, _) =>
      if x in st.monitors then st.(monitors := st.monitors[x := RepairedMonitor(d, st.monitors[x])]) else st
    case DisablePolicy(p) =>
      if p in st.policies then st.(policies := st.policies[p := st.policies[p].(up := false)]) else st
    case DeleteRule(r, _) => st.(rules := st.rules - {r})
    case DeletePolicy(p) => st.(policies := st.policies - {p})
    case CreatePolicy(p, w) => st.(policies := st.policies[id := NewPolicy(env, site.listener, p, w)])
    case UpdatePolicy(x, p, w) =>
      if x in st.policies then st.(policies := st.policies[x := RepairedPolicy(st.policies[x], p, w)]) else st
    case CreateRule(p, w) => st.(rules := st.rules[id := NewRule(env, p, w)])
    case UpdateRule(r, _, w) =>
      if r in st.rules then st.(rules := st.rules[r := RepairedRule(st.rules[r], w)]) else st
    case EnablePolicy(p) =>
      if p in st.policies then st.(policies := st.policies[p := st.policies[p].(up := true)]) else st
    case DeleteMonitor(x, _) => st.(monitors := st.monitors - {x})
    case DeletePool(p) => st.(pools := st.pools - {p})
  }

  // ----- distance of pool, members and monitor from the desired route -----

  ghost predicate Stale(env: Env, d: Desired, member: Member)
  {
    MemberText(env.net, member) !in ByKey(env.net, d.members) || member.subnet != d.spec.memberSubnet
  }

  ghost function StaleMembers(env: Env, d: Desired, members: Members, pool: Id): set<Id>
  {
    set m | m in MembersOf(members, pool) && Stale(env, d, members[m])
  }

  ghost function DownMembers(env: Env, d: Desired, members: Members, pool: Id): set<Id>
  {
    set m | m in MembersOf(members, pool) && !Stale(env, d, members[m]) && !members[m].up
  }

  ghost predicate Covered(env: Env, d: Desired, members: Members, pool: Id, key: string)
  {
    exists m :: m in MembersOf(members, pool) && !Stale(env, d, members[m]) && MemberText(env.net, members[m]) == key
  }

  ghost function MissingKeys(env: Env, d: Desired, members: Members, pool: Id): set<string>
  {
    set k | k in ByKey(env.net, d.members) && !Covered(env, d, members, pool, k)
  }

  ghost function MemberCost(env: Env, d: Desired, members: Members, pool: Id): nat
  {
    |StaleMembers(env, d, members, pool)| + |DownMembers(env, d, members, pool)| + |MissingKeys(env, d, members, pool)|
  }

  ghost function MonitorCost(d: Desired, monitors: Monitors, pool: Id): nat
  {
    var m := MonitorAt(monitors, pool);
    if m.Some? && MonitorSettled(d, monitors[m.value]) then 0 else 1
  }

  /** Differences outside the L7 policies. */
  ghost function NonPolicyCost(env: Env, d: Desired, pools: Pools, members: Members, monitors: Monitors, lb: Id): nat
  {
    var p := PoolAt(pools, lb);
    if p.None? then 1
    else
      (if PoolSettled(pools[p.value]) then 0 else 1) + MemberCost(env, d, members, p.value) +
      MonitorCost(d, monitors, p.value)
  }

  lemma SetRemove<T>(s: set<T>, t: set<T>, x: T)
    requires x in s && t == s - {x}
    ensures |t| == |s| - 1
  {
  }

  lemma DeleteMemberStep(env: Env, d: Desired, members: Members, pool: Id, x: Id)
    requires MembersOk(env, members, pool) && x in StaleMembers(env, d, members, pool)
    ensures MembersOk(env, members - {x}, pool)
    ensures MemberCost(env, d, members - {x}, pool) == MemberCost(env, d, members, pool) - 1
  {
    hide MemberOk, MemberText, ByKey;
    var members' := members - {x};
    assert MembersOf(members', pool) == MembersOf(members, pool) - {x};
    SetRemove(StaleMembers(env, d, members, pool), StaleMembers(env, d, members', pool), x);
    assert DownMembers(env, d, members', pool) == DownMembers(env, d, members, pool);
    forall k ensures Covered(env, d, members', pool, k) <==> Covered(env, d, members, pool, k) {
      if Covered(env, d, members, pool, k) {
        var m :| m in MembersOf(members, pool) && !Stale(env, d, members[m]) && MemberText(env.net, members[m]) == k;
        assert m in MembersOf(members', pool);
      }
    }
    assert MissingKeys(env, d, members', pool) == MissingKeys(env, d, members, pool);
  }

  lemma UpdateMemberStep(env: Env, d: Desired, members: Members, pool: Id, x: Id)
    requires MembersOk(env, members, pool) && x in DownMembers(env, d, members, pool)
    ensures var members' := members[x := members[x].(up := true)];
            MembersOk(env, members', pool) &&
            MemberCost(env, d, members', pool) == MemberCost(env, d, members, pool) - 1
  {
    hide ByKey;
    var members' := members[x := members[x].(up := true)];
    assert MembersOf(members', pool) == MembersOf(members, pool);
    assert forall m :: m in MembersOf(members, pool) ==>
      MemberText(env.net, members'[m]) == MemberText(env.net, members[m]) &&
      (Stale(env, d, members'[m]) <==> Stale(env, d, members[m]));
    assert StaleMembers(env, d, members', pool) == StaleMembers(env, d, members, pool);
    SetRemove(DownMembers(env, d, members, pool), DownMembers(env, d, members', pool), x);
    assert forall k :: Covered(env, d, members', pool, k) <==> Covered(env, d, members, pool, k);
    assert MissingKeys(env, d, members', pool) == MissingKeys(env, d, members, pool);
  }

  lemma NewMemberOk(env: Env, d: Desired, pool: Id, e: Endpoint)
    requires LawfulOwner(env.own) && DesiredOk(env.net, d) && e in d.members
    ensures var member := NewMember(env, d, pool, e);
            MemberOk(env, pool, member) && MemberText(env.net, member) == KeyOf(env.net, e)
  {
  }

  lemma CreateMemberStep(env: Env, d: Desired, members: Members, pool: Id, member: Member, id: Id)
    requires member.parent == pool && member.subnet == d.spec.memberSubnet && member.up
    requires MemberOk(env, pool, member) && MemberText(env.net, member) in MissingKeys(env, d, members, pool)
    requires MembersOk(env, members, pool) && StaleMembers(env, d, members, pool) == {} && id !in members
    ensures MembersOk(env, members[id := member], pool)
    ensures MemberCost(env, d, members[id := member], pool) == MemberCost(env, d, members, pool) - 1
  {
    hide ByKey, MemberOk, MemberText;
    var members' := members[id := member];
    var key := MemberText(env.net, member);
    assert MembersOf(members', pool) == MembersOf(members, pool) + {id};
    forall m | m in MembersOf(members, pool) ensures MemberText(env.net, members[m]) != key {
      assert m !in StaleMembers(env, d, members, pool);
      assert !Covered(env, d, members, pool, key);
    }
    assert !Stale(env, d, member);
    assert StaleMembers(env, d, members', pool) == StaleMembers(env, d, members, pool);
    assert DownMembers(env, d, members', pool) == DownMembers(env, d, members, pool);
    forall k ensures Covered(env, d, members', pool, k) <==> k == key || Covered(env, d, members, pool, k) {
      if k == key {
        assert id in MembersOf(members', pool);
      } else if Covered(env, d, members, pool, k) {
        var m :| m in MembersOf(members, pool) && !Stale(env, d, members[m]) && MemberText(env.net, members[m]) == k;
        assert m in MembersOf(members', pool);
      }
    }
    SetRemove(MissingKeys(env, d, members, pool), MissingKeys(env, d, members', pool), key);
  }
}
