/** The OpenStack resources visible to the authenticated project, as one store.
    Every resource is filed under its true parent; `reported` is what the API
    response says about the parent, which the provider checks separately. */
module Octavia {
  import opened Order
  import opened Ownership

  type Id = string

  datatype Protocol = HTTP | OtherProtocol(protocolName: string)
  datatype Method = RoundRobin | OtherMethod(methodName: string)
  datatype MonitorType = HTTPMonitor | OtherMonitor(monitorName: string)
  datatype HTTPMethod = GET | OtherHTTPMethod(httpMethodName: string)
  datatype Action = RedirectToPool | OtherAction(actionName: string)
  datatype RuleType = PathType | HostNameType | OtherRuleType(ruleTypeName: string)
  datatype CompareType = EqualTo | StartsWith | OtherCompare(compareName: string)
  datatype Status = Active | Pending(pendingName: string) | Broken(brokenName: string)

  datatype LoadBalancer = LoadBalancer(
    project: string, tags: Tags, provider: string, vipSubnet: string, vipPort: Id, status: Status, up: bool)
  datatype Listener = Listener(
    parent: Id, reported: seq<Id>, project: string, tags: Tags, protocol: Protocol, port: int, up: bool)
  datatype Pool = Pool(
    parent: Id, reported: seq<Id>, project: string, tags: Tags, protocol: Protocol, lbMethod: Method, up: bool)
  datatype Member = Member(
    parent: Id, reported: Id, project: string, tags: Tags, address: string, port: int, subnet: string, up: bool)
  datatype Monitor = Monitor(
    parent: Id, reported: seq<Id>, project: string, tags: Tags, monitorType: MonitorType, delay: int, timeout: int,
    maxRetries: int, maxRetriesDown: int, urlPath: string, httpMethod: HTTPMethod, expectedCodes: string, up: bool)
  datatype Policy = Policy(
    parent: Id, reported: Id, project: string, tags: Tags, action: Action, redirectPool: Id, position: int, up: bool)
  datatype Rule = Rule(
    parent: Id, project: string, tags: Tags, ruleType: RuleType, compareType: CompareType, value: string,
    invert: bool, up: bool)
  datatype FloatingIP = FloatingIP(
    port: Id, reported: Id, project: string, tenant: string, description: string, network: Id)

  type Pools = map<Id, Pool>
  type Members = map<Id, Member>
  type Monitors = map<Id, Monitor>
  type Policies = map<Id, Policy>
  type Rules = map<Id, Rule>

  datatype Store = Store(
    loadBalancers: map<Id, LoadBalancer>,
    listeners: map<Id, Listener>,
    floatingIPs: map<Id, FloatingIP>,
    pools: Pools,
    members: Members,
    monitors: Monitors,
    policies: Policies,
    rules: Rules)

  /** Resource IDs the store already uses. */
  ghost function UsedIds(st: Store): set<Id>
  {
    st.loadBalancers.Keys + st.listeners.Keys + st.floatingIPs.Keys + st.pools.Keys + st.members.Keys +
    st.monitors.Keys + st.policies.Keys + st.rules.Keys
  }

  /** An ID the cloud may give to a new resource: unused, and not mentioned
      anywhere as a parent or redirect target. */
  ghost predicate Fresh(st: Store, id: Id)
  {
    id != "" && id !in UsedIds(st) &&
    (forall l :: l in st.listeners ==> st.listeners[l].parent != id) &&
    (forall p :: p in st.pools ==> st.pools[p].parent != id) &&
    (forall m :: m in st.members ==> st.members[m].parent != id) &&
    (forall m :: m in st.monitors ==> st.monitors[m].parent != id) &&
    (forall p :: p in st.policies ==> st.policies[p].parent != id && st.policies[p].redirectPool != id) &&
    (forall r :: r in st.rules ==> st.rules[r].parent != id)
  }

  // What the list calls return.

  function ListenersOf(listeners: map<Id, Listener>, lb: Id): set<Id>
  {
    set l | l in listeners && listeners[l].parent == lb
  }

  function FloatingIPsOf(floatingIPs: map<Id, FloatingIP>, port: Id): set<Id>
  {
    set f | f in floatingIPs && floatingIPs[f].port == port
  }

  function PoolsOf(pools: Pools, lb: Id): set<Id>
  {
    set p | p in pools && pools[p].parent == lb
  }

  function MembersOf(members: Members, pool: Id): set<Id>
  {
    set m | m in members && members[m].parent == pool
  }

  function MonitorsOf(monitors: Monitors, pool: Id): set<Id>
  {
    set m | m in monitors && monitors[m].parent == pool
  }

  function PoliciesOf(policies: Policies, listener: Id): set<Id>
  {
    set p | p in policies && policies[p].parent == listener
  }

  function RulesOf(rules: Rules, policy: Id): set<Id>
  {
    set r | r in rules && rules[r].parent == policy
  }

  // The keys by which the provider sorts those lists.

  function IdKey(id: Id): SortKey
  {
    SortKey("", 0, id)
  }

  function IdKeys(ids: set<Id>): set<SortKey>
  {
    set i | i in ids :: IdKey(i)
  }

  function MemberKey(id: Id, member: Member): SortKey
  {
    SortKey(member.address, member.port, id)
  }

  function PolicyKey(id: Id, policy: Policy): SortKey
  {
    SortKey("", policy.position, id)
  }

  function MemberKeys(members: Members, pool: Id): set<SortKey>
  {
    set m | m in MembersOf(members, pool) :: MemberKey(m, members[m])
  }

  function PolicyKeys(policies: Policies, listener: Id): set<SortKey>
  {
    set p | p in PoliciesOf(policies, listener) :: PolicyKey(p, policies[p])
  }

  function Ids(keys: seq<SortKey>): (r: seq<Id>)
    ensures |r| == |keys| && forall i :: 0 <= i < |r| ==> r[i] == keys[i].id
  {
    seq(|keys|, i requires 0 <= i < |keys| => keys[i].id)
  }

  /** IDs in ascending order. */
  ghost function SortedIds(ids: set<Id>): (r: seq<Id>)
    ensures forall id :: id in r <==> id in ids
    ensures forall i :: 0 <= i < |r| ==> r[i] in ids
    ensures forall i, j :: 0 <= i < j < |r| ==> r[i] != r[j]
    ensures ids == {} <==> r == []
  {
    var keys := IdKeys(ids);
    IdsListed(ids);
    Ids(Sorted(keys))
  }

  /** Member IDs beneath a pool, by address, then port, then ID. */
  ghost function SortedMembers(members: Members, pool: Id): (r: seq<Id>)
    ensures forall id :: id in r <==> id in MembersOf(members, pool)
    ensures forall i :: 0 <= i < |r| ==> r[i] in MembersOf(members, pool)
    ensures forall i, j :: 0 <= i < j < |r| ==> r[i] != r[j]
    ensures MembersOf(members, pool) == {} <==> r == []
  {
    var keys := MemberKeys(members, pool);
    MembersListed(members, pool);
    Ids(Sorted(keys))
  }

  /** Policy IDs beneath a listener, by position, then ID. */
  ghost function SortedPolicies(policies: Policies, listener: Id): (r: seq<Id>)
    ensures forall id :: id in r <==> id in PoliciesOf(policies, listener)
    ensures forall i :: 0 <= i < |r| ==> r[i] in PoliciesOf(policies, listener)
    ensures forall i, j :: 0 <= i < j < |r| ==> r[i] != r[j]
    ensures PoliciesOf(policies, listener) == {} <==> r == []
  {
    var keys := PolicyKeys(policies, listener);
    PoliciesListed(policies, listener);
    Ids(Sorted(keys))
  }

  /** Sorting by keys that carry distinct IDs lists each ID once. */
  lemma ListedIds(keys: set<SortKey>, ids: set<Id>)
    requires forall k, l :: k in keys && l in keys && k.id == l.id ==> k == l
    requires forall k :: k in keys ==> k.id in ids
    requires forall id :: id in ids ==> exists k :: k in keys && k.id == id
    ensures forall id :: id in Ids(Sorted(keys)) <==> id in ids
    ensures var r := Ids(Sorted(keys)); forall i, j :: 0 <= i < j < |r| ==> r[i] != r[j]
    ensures ids == {} <==> Ids(Sorted(keys)) == []
  {
    var r := Sorted(keys);
    SortedElements(keys);
    SortedDistinct(keys);
    forall id | id in ids ensures id in Ids(r) {
      var k :| k in keys && k.id == id;
      var i :| 0 <= i < |r| && r[i] == k;
      assert Ids(r)[i] == id;
    }
    forall i, j | 0 <= i < j < |r| ensures Ids(r)[i] != Ids(r)[j] {
      assert r[i] in keys && r[j] in keys && r[i] != r[j];
    }
    forall id | id in Ids(r) ensures id in ids {
      var i :| 0 <= i < |r| && Ids(r)[i] == id;
      assert r[i] in keys;
    }
    if ids != {} {
      var id :| id in ids;
      assert id in Ids(r);
    }
  }

  lemma IdsListed(ids: set<Id>)
    ensures var r := Ids(Sorted(IdKeys(ids)));
            (forall id :: id in r <==> id in ids) && (forall i, j :: 0 <= i < j < |r| ==> r[i] != r[j]) &&
            (ids == {} <==> r == [])
  {
    var keys := IdKeys(ids);
    forall id | id in ids ensures exists k :: k in keys && k.id == id {
      assert IdKey(id) in keys;
    }
    ListedIds(keys, ids);
  }

  lemma MembersListed(members: Members, pool: Id)
    ensures var r := Ids(Sorted(MemberKeys(members, pool)));
            (forall id :: id in r <==> id in MembersOf(members, pool)) &&
            (forall i, j :: 0 <= i < j < |r| ==> r[i] != r[j]) && (MembersOf(members, pool) == {} <==> r == [])
  {
    var keys := MemberKeys(members, pool);
    forall m | m in MembersOf(members, pool) ensures exists k :: k in keys && k.id == m {
      assert MemberKey(m, members[m]) in keys;
    }
    ListedIds(keys, MembersOf(members, pool));
  }

  lemma PoliciesListed(policies: Policies, listener: Id)
    ensures var r := Ids(Sorted(PolicyKeys(policies, listener)));
            (forall id :: id in r <==> id in PoliciesOf(policies, listener)) &&
            (forall i, j :: 0 <= i < j < |r| ==> r[i] != r[j]) && (PoliciesOf(policies, listener) == {} <==> r == [])
  {
    var keys := PolicyKeys(policies, listener);
    forall p | p in PoliciesOf(policies, listener) ensures exists k :: k in keys && k.id == p {
      assert PolicyKey(p, policies[p]) in keys;
    }
    ListedIds(keys, PoliciesOf(policies, listener));
  }

  /** A listing begins with the least ID. */
  lemma IdsLeast(ids: set<Id>)
    requires ids != {}
    ensures forall id :: id in ids && id != SortedIds(ids)[0] ==> StrLess(SortedIds(ids)[0], id)
  {
    var keys := IdKeys(ids);
    var x :| x in ids;
    assert IdKey(x) in keys;
    SortedLeast(keys);
    forall id | id in ids && id != SortedIds(ids)[0] ensures StrLess(SortedIds(ids)[0], id) {
      assert IdKey(id) in keys;
    }
  }

  /** IDs are listed in dictionary order. */
  lemma IdsIncreasing(ids: set<Id>)
    ensures forall i, j :: 0 <= i < j < |SortedIds(ids)| ==> StrLess(SortedIds(ids)[i], SortedIds(ids)[j])
  {
    var keys := IdKeys(ids);
    SortedIncreasing(keys);
    SortedElements(keys);
    forall i, j | 0 <= i < j < |SortedIds(ids)| ensures StrLess(SortedIds(ids)[i], SortedIds(ids)[j]) {
      assert Sorted(keys)[i] in Sorted(keys) && Sorted(keys)[j] in Sorted(keys);
    }
  }

  // The list calls followed by the provider's sorts.

  method ListIds(ids: set<Id>) returns (r: seq<Id>)
    ensures r == SortedIds(ids)
  {
    var keys := ListSorted(IdKeys(ids));
    r := Ids(keys);
  }

  method ListMembers(members: Members, pool: Id) returns (r: seq<Id>)
    ensures r == SortedMembers(members, pool)
  {
    var keys := ListSorted(MemberKeys(members, pool));
    r := Ids(keys);
  }

  method ListPolicies(policies: Policies, listener: Id) returns (r: seq<Id>)
    ensures r == SortedPolicies(policies, listener)
  {
    var keys := ListSorted(PolicyKeys(policies, listener));
    r := Ids(keys);
  }

  lemma IdsTail(keys: seq<SortKey>)
    requires keys != []
    ensures Ids(keys[1..]) == Ids(keys)[1..]
  {
  }

  /** Removing the first ID of a listing leaves the rest of the listing. */
  lemma SortedIdsTail(ids: set<Id>)
    requires ids != {}
    ensures SortedIds(ids - {SortedIds(ids)[0]}) == SortedIds(ids)[1..]
  {
    var keys := IdKeys(ids);
    var first := SortedIds(ids)[0];
    assert IdKey(first) in keys;
    SortedHead(keys);
    assert Sorted(keys)[0] == IdKey(first);
    assert IdKeys(ids - {first}) == keys - {IdKey(first)};
    IdsTail(Sorted(keys));
  }

  lemma MemberKeysRemove(members: Members, pool: Id, first: Id)
    requires first in MembersOf(members, pool)
    ensures MemberKeys(members - {first}, pool) == MemberKeys(members, pool) - {MemberKey(first, members[first])}
  {
    var members' := members - {first};
    assert MembersOf(members', pool) == MembersOf(members, pool) - {first};
    forall x | x in MemberKeys(members, pool) && x != MemberKey(first, members[first])
      ensures x in MemberKeys(members', pool)
    {
      var m :| m in MembersOf(members, pool) && x == MemberKey(m, members[m]);
      assert m in MembersOf(members', pool) && members'[m] == members[m];
    }
    forall x | x in MemberKeys(members', pool)
      ensures x in MemberKeys(members, pool) && x != MemberKey(first, members[first])
    {
      var m :| m in MembersOf(members', pool) && x == MemberKey(m, members'[m]);
      assert m in MembersOf(members, pool) && members'[m] == members[m];
    }
  }

  lemma PolicyKeysRemove(policies: Policies, listener: Id, first: Id)
    requires first in PoliciesOf(policies, listener)
    ensures PolicyKeys(policies - {first}, listener) == PolicyKeys(policies, listener) - {PolicyKey(first, policies[first])}
  {
    var policies' := policies - {first};
    assert PoliciesOf(policies', listener) == PoliciesOf(policies, listener) - {first};
    forall x | x in PolicyKeys(policies, listener) && x != PolicyKey(first, policies[first])
      ensures x in PolicyKeys(policies', listener)
    {
      var p :| p in PoliciesOf(policies, listener) && x == PolicyKey(p, policies[p]);
      assert p in PoliciesOf(policies', listener) && policies'[p] == policies[p];
    }
    forall x | x in PolicyKeys(policies', listener)
      ensures x in PolicyKeys(policies, listener) && x != PolicyKey(first, policies[first])
    {
      var p :| p in PoliciesOf(policies', listener) && x == PolicyKey(p, policies'[p]);
      assert p in PoliciesOf(policies, listener) && policies'[p] == policies[p];
    }
  }

  lemma SortedMembersTail(members: Members, pool: Id)
    requires MembersOf(members, pool) != {}
    ensures SortedMembers(members - {SortedMembers(members, pool)[0]}, pool) == SortedMembers(members, pool)[1..]
  {
    var keys := MemberKeys(members, pool);
    var first := SortedMembers(members, pool)[0];
    assert first in SortedMembers(members, pool);
    SortedHead(keys);
    assert Sorted(keys)[0] == MemberKey(first, members[first]);
    MemberKeysRemove(members, pool, first);
    IdsTail(Sorted(keys));
  }

  lemma SortedPoliciesTail(policies: Policies, listener: Id)
    requires PoliciesOf(policies, listener) != {}
    ensures SortedPolicies(policies - {SortedPolicies(policies, listener)[0]}, listener) ==
            SortedPolicies(policies, listener)[1..]
  {
    var keys := PolicyKeys(policies, listener);
    var first := SortedPolicies(policies, listener)[0];
    assert first in SortedPolicies(policies, listener);
    SortedHead(keys);
    assert Sorted(keys)[0] == PolicyKey(first, policies[first]);
    PolicyKeysRemove(policies, listener, first);
    IdsTail(Sorted(keys));
  }

  /** The project checks for resources that may omit their project. */
  predicate OptionalProjectOk(project: string, reported: string)
  {
    reported == "" || reported == project
  }

  predicate FloatingIPProjectOk(project: string, f: FloatingIP)
  {
    (if f.project == "" then f.tenant else f.project) == project
  }

  predicate AllEqual(reported: seq<Id>, id: Id)
  {
    forall i :: 0 <= i < |reported| ==> reported[i] == id
  }
}
