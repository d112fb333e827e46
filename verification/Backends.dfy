/** NodePort members from EndpointSlices and Nodes, and the event filters that
    decide which updates are worth a reconciliation. */
module Backends {
  import opened Order
  import opened Ownership
  import opened Octavia
  import opened RouteBinding

  datatype EndpointState = EndpointState(ready: Option<bool>, terminating: Option<bool>, node: Option<string>)

  datatype Slice = Slice(service: string, endpoints: seq<EndpointState>, deleting: bool)

  datatype Address = Address(kind: string, text: string)

  datatype Condition = Condition(kind: string, status: string)

  datatype Node = Node(
    name: string, addresses: seq<Address>, conditions: seq<Condition>, unschedulable: bool, deleting: bool)

  /** Whether a text is an IP address. */
  type Parser = string -> bool

  // ----- what the member list is computed from -----

  predicate EndpointReady(e: EndpointState)
  {
    !(e.terminating == Some(true)) && (e.ready.None? || e.ready.value)
  }

  predicate HasReady(slice: Slice)
  {
    exists i :: 0 <= i < |slice.endpoints| && EndpointReady(slice.endpoints[i])
  }

  function ReadyNodes(slice: Slice): set<string>
  {
    set i | 0 <= i < |slice.endpoints| && EndpointReady(slice.endpoints[i]) && slice.endpoints[i].node.Some? ::
      slice.endpoints[i].node.value
  }

  function ReadyCondition(conditions: seq<Condition>): Option<string>
  {
    if conditions == [] then None
    else if conditions[0].kind == "Ready" then Some(conditions[0].status)
    else ReadyCondition(conditions[1..])
  }

  function NodeAddress(parses: Parser, addresses: seq<Address>, kind: string): string
  {
    if addresses == [] then ""
    else if addresses[0].kind == kind && parses(addresses[0].text) then addresses[0].text
    else NodeAddress(parses, addresses[1..], kind)
  }

  predicate ReadyNode(node: Node)
  {
    !node.deleting && !node.unschedulable && ReadyCondition(node.conditions) == Some("True")
  }

  // ----- the member list -----

  /** Why there is no member list yet. */
  datatype Pending = NoReadyEndpoints | NodesUnknown | NoReadyNodes

  datatype MemberResult = NotYet(reason: Pending) | MembersAt(addresses: seq<string>)

  predicate AnyReady(slices: seq<Slice>, service: string)
  {
    exists i :: 0 <= i < |slices| && slices[i].service == service && HasReady(slices[i])
  }

  ghost predicate IsLocal(slices: seq<Slice>, service: string, name: string)
  {
    exists i :: 0 <= i < |slices| && slices[i].service == service && name in ReadyNodes(slices[i])
  }

  ghost predicate Contributes(
    parses: Parser, slices: seq<Slice>, service: string, local: bool, kind: string, node: Node, address: string)
  {
    ReadyNode(node) && (local ==> IsLocal(slices, service, node.name)) &&
    NodeAddress(parses, node.addresses, kind) == address && address != ""
  }

  ghost predicate IsMember(
    parses: Parser, slices: seq<Slice>, nodes: seq<Node>, service: string, local: bool, kind: string, address: string)
  {
    exists i :: 0 <= i < |nodes| && Contributes(parses, slices, service, local, kind, nodes[i], address)
  }

  /** The result the route controller computes: the sorted distinct addresses, or
      the reason why there are none. */
  ghost predicate IsResult(
    parses: Parser, slices: seq<Slice>, nodes: seq<Node>, service: string, local: bool, kind: string, r: MemberResult)
  {
    if !AnyReady(slices, service) then r == NotYet(NoReadyEndpoints)
    else if local && forall name :: !IsLocal(slices, service, name) then r == NotYet(NodesUnknown)
    else if forall a :: !IsMember(parses, slices, nodes, service, local, kind, a) then r == NotYet(NoReadyNodes)
    else
      exists addresses ::
        MembersAre(parses, slices, nodes, service, local, kind, addresses) && r == MembersAt(SortedIds(addresses))
  }

  ghost predicate MembersAre(
    parses: Parser, slices: seq<Slice>, nodes: seq<Node>, service: string, local: bool, kind: string, addresses: set<string>)
  {
    forall a :: a in addresses <==> IsMember(parses, slices, nodes, service, local, kind, a)
  }

  // ----- computing it -----

  method CollectReady(slices: seq<Slice>, service: string) returns (ready: bool, local: set<string>)
    ensures ready == AnyReady(slices, service)
    ensures forall name :: name in local <==> IsLocal(slices, service, name)
  {
    ready, local := false, {};
    for i := 0 to |slices|
      invariant ready == AnyReady(slices[..i], service)
      invariant forall name :: name in local <==> IsLocal(slices[..i], service, name)
    {
      assert forall j :: 0 <= j < i ==> slices[..i + 1][j] == slices[..i][j];
      assert slices[..i + 1][i] == slices[i];
      if slices[i].service == service {
        ready := ready || HasReady(slices[i]);
        local := local + ReadyNodes(slices[i]);
      }
    }
    assert slices[..|slices|] == slices;
  }

  predicate Offers(parses: Parser, node: Node, restrict: bool, local: set<string>, kind: string, address: string)
  {
    ReadyNode(node) && (restrict ==> node.name in local) && NodeAddress(parses, node.addresses, kind) == address && address != ""
  }

  method CollectAddresses(parses: Parser, nodes: seq<Node>, restrict: bool, local: set<string>, kind: string)
    returns (addresses: set<string>)
    ensures forall a :: a in addresses <==> exists i :: 0 <= i < |nodes| && Offers(parses, nodes[i], restrict, local, kind, a)
  {
    addresses := {};
    for i := 0 to |nodes|
      invariant forall a :: a in addresses <==> exists j :: 0 <= j < i && Offers(parses, nodes[j], restrict, local, kind, a)
    {
      if !ReadyNode(nodes[i]) || (restrict && nodes[i].name !in local) {
        continue;
      }
      var address := NodeAddress(parses, nodes[i].addresses, kind);
      if address == "" {
        continue;
      }
      assert Offers(parses, nodes[i], restrict, local, kind, address);
      addresses := addresses + {address};
    }
  }

  method NodePortMembers(parses: Parser, slices: seq<Slice>, nodes: seq<Node>, service: string, local: bool, kind: string)
    returns (r: MemberResult)
    ensures IsResult(parses, slices, nodes, service, local, kind, r)
  {
    hide AnyReady, IsLocal, ReadyNode;
    var ready, localNodes := CollectReady(slices, service);
    if !ready {
      return NotYet(NoReadyEndpoints);
    }
    if local && localNodes == {} {
      return NotYet(NodesUnknown);
    }
    var addresses := CollectAddresses(parses, nodes, local, localNodes, kind);
    forall a ensures a in addresses <==> IsMember(parses, slices, nodes, service, local, kind, a) {
      assert forall i :: 0 <= i < |nodes| ==>
        (Offers(parses, nodes[i], local, localNodes, kind, a) <==>
         Contributes(parses, slices, service, local, kind, nodes[i], a));
    }
    if local {
      var name :| name in localNodes;
      assert IsLocal(slices, service, name);
    }
    if addresses == {} {
      return NotYet(NoReadyNodes);
    }
    var a :| a in addresses;
    assert IsMember(parses, slices, nodes, service, local, kind, a);
    assert MembersAre(parses, slices, nodes, service, local, kind, addresses);
    var sorted := ListIds(addresses);
    r := MembersAt(sorted);
  }

  // ----- the member list, field by field -----

  /** The first address of the kind that parses. */
  predicate FirstAddress(parses: Parser, addresses: seq<Address>, kind: string, j: int)
  {
    0 <= j < |addresses| && addresses[j].kind == kind && parses(addresses[j].text) &&
    forall k :: 0 <= k < j ==> addresses[k].kind != kind || !parses(addresses[k].text)
  }

  /** The first Ready condition is "True". */
  predicate FirstReadyIsTrue(conditions: seq<Condition>, j: int)
  {
    0 <= j < |conditions| && conditions[j] == Condition("Ready", "True") && forall k :: 0 <= k < j ==> conditions[k].kind != "Ready"
  }

  lemma {:induction false} AddressExactly(parses: Parser, addresses: seq<Address>, kind: string, address: string)
    requires address != ""
    ensures NodeAddress(parses, addresses, kind) == address <==>
            exists j :: FirstAddress(parses, addresses, kind, j) && addresses[j].text == address
  {
    if addresses != [] {
      if addresses[0].kind == kind && parses(addresses[0].text) {
        assert FirstAddress(parses, addresses, kind, 0);
      } else {
        AddressExactly(parses, addresses[1..], kind, address);
        if j :| FirstAddress(parses, addresses[1..], kind, j) && addresses[1..][j].text == address {
          assert FirstAddress(parses, addresses, kind, j + 1);
        }
        if j :| FirstAddress(parses, addresses, kind, j) && addresses[j].text == address {
          assert forall k :: 0 <= k < |addresses| - 1 ==> addresses[1..][k] == addresses[k + 1];
          assert FirstAddress(parses, addresses[1..], kind, j - 1);
        }
      }
    }
  }

  lemma {:induction false} ReadyConditionExactly(conditions: seq<Condition>)
    ensures ReadyCondition(conditions) == Some("True") <==> exists j :: FirstReadyIsTrue(conditions, j)
  {
    if conditions != [] {
      if conditions[0].kind == "Ready" {
        assert conditions[0].status == "True" ==> FirstReadyIsTrue(conditions, 0);
      } else {
        ReadyConditionExactly(conditions[1..]);
        if j :| FirstReadyIsTrue(conditions[1..], j) {
          assert FirstReadyIsTrue(conditions, j + 1);
        }
        if j :| FirstReadyIsTrue(conditions, j) {
          assert forall k :: 0 <= k < |conditions| - 1 ==> conditions[1..][k] == conditions[k + 1];
          assert FirstReadyIsTrue(conditions[1..], j - 1);
        }
      }
    }
  }

  /** A live, schedulable Node whose first Ready condition is "True" and whose first
      parsable address of the kind is this one. */
  ghost predicate Offered(parses: Parser, node: Node, kind: string, address: string)
  {
    !node.deleting && !node.unschedulable && (exists j :: FirstReadyIsTrue(node.conditions, j)) &&
    exists j :: FirstAddress(parses, node.addresses, kind, j) && node.addresses[j].text == address
  }

  /** A ready endpoint of the Service on the named Node: not terminating, and not
      reported as unready. */
  ghost predicate EndpointOn(slices: seq<Slice>, service: string, name: string, i: int, j: int)
  {
    0 <= i < |slices| && slices[i].service == service && 0 <= j < |slices[i].endpoints| &&
    var e := slices[i].endpoints[j]; e.node == Some(name) && e.ready != Some(false) && e.terminating != Some(true)
  }

  lemma LocalExactly(slices: seq<Slice>, service: string, name: string)
    ensures IsLocal(slices, service, name) <==> exists i, j :: EndpointOn(slices, service, name, i, j)
  {
    if IsLocal(slices, service, name) {
      var i :| 0 <= i < |slices| && slices[i].service == service && name in ReadyNodes(slices[i]);
      var j :| 0 <= j < |slices[i].endpoints| && EndpointReady(slices[i].endpoints[j]) && slices[i].endpoints[j].node == Some(name);
      assert EndpointOn(slices, service, name, i, j);
    }
    if i, j :| EndpointOn(slices, service, name, i, j) {
      assert EndpointReady(slices[i].endpoints[j]);
      assert name in ReadyNodes(slices[i]);
    }
  }

  ghost predicate MemberFrom(
    parses: Parser, slices: seq<Slice>, nodes: seq<Node>, service: string, local: bool, kind: string, address: string, n: int)
  {
    0 <= n < |nodes| && Offered(parses, nodes[n], kind, address) &&
    (local ==> exists i, j :: EndpointOn(slices, service, nodes[n].name, i, j))
  }

  lemma MemberExactly(
    parses: Parser, slices: seq<Slice>, nodes: seq<Node>, service: string, local: bool, kind: string, address: string)
    requires address != ""
    ensures IsMember(parses, slices, nodes, service, local, kind, address) <==>
            exists n :: MemberFrom(parses, slices, nodes, service, local, kind, address, n)
  {
    hide NodeAddress, ReadyCondition, IsLocal, FirstReadyIsTrue, FirstAddress, EndpointOn;
    forall n | 0 <= n < |nodes|
      ensures Contributes(parses, slices, service, local, kind, nodes[n], address) <==>
              MemberFrom(parses, slices, nodes, service, local, kind, address, n)
    {
      AddressExactly(parses, nodes[n].addresses, kind, address);
      ReadyConditionExactly(nodes[n].conditions);
      LocalExactly(slices, service, nodes[n].name);
    }
  }

  /** The members of a Service: in dictionary order, exactly the addresses of the
      Nodes that are ready, schedulable and, for a local traffic policy, carry a
      ready endpoint. */
  lemma MembersExactly(
    parses: Parser, slices: seq<Slice>, nodes: seq<Node>, service: string, local: bool, kind: string, addresses: seq<string>)
    requires IsResult(parses, slices, nodes, service, local, kind, MembersAt(addresses))
    ensures forall a :: a != "" ==>
              (a in addresses <==> exists n :: MemberFrom(parses, slices, nodes, service, local, kind, a, n))
    ensures "" !in addresses && addresses != []
    ensures forall i, j :: 0 <= i < j < |addresses| ==> StrLess(addresses[i], addresses[j])
  {
    hide MemberFrom, AnyReady, IsLocal;
    var all :| MembersAre(parses, slices, nodes, service, local, kind, all) && addresses == SortedIds(all);
    IdsIncreasing(all);
    forall a | a != "" ensures a in addresses <==> exists n :: MemberFrom(parses, slices, nodes, service, local, kind, a, n) {
      MemberExactly(parses, slices, nodes, service, local, kind, a);
    }
  }

  /** There is a member list exactly when some ready endpoint exists, for a local
      traffic policy on a named Node, and some address contributes; otherwise the
      first of these that fails is the reason. */
  lemma PendingExactly(
    parses: Parser, slices: seq<Slice>, nodes: seq<Node>, service: string, local: bool, kind: string, r: MemberResult)
    requires IsResult(parses, slices, nodes, service, local, kind, r)
    ensures r == NotYet(NoReadyEndpoints) <==>
            forall i, j :: 0 <= i < |slices| && slices[i].service == service && 0 <= j < |slices[i].endpoints| ==>
              slices[i].endpoints[j].ready == Some(false) || slices[i].endpoints[j].terminating == Some(true)
    ensures r == NotYet(NodesUnknown) <==>
            r != NotYet(NoReadyEndpoints) && local && forall name, i, j :: !EndpointOn(slices, service, name, i, j)
    ensures r == NotYet(NoReadyNodes) <==>
            r != NotYet(NoReadyEndpoints) && r != NotYet(NodesUnknown) &&
            forall a, n :: a != "" ==> !MemberFrom(parses, slices, nodes, service, local, kind, a, n)
  {
    AnyReadyExactly(slices, service);
    hide AnyReady, IsLocal, IsMember, MemberFrom, EndpointOn;
    forall name ensures IsLocal(slices, service, name) ==> exists i, j :: EndpointOn(slices, service, name, i, j) {
      LocalExactly(slices, service, name);
    }
    forall name, i, j | EndpointOn(slices, service, name, i, j) ensures IsLocal(slices, service, name) {
      LocalExactly(slices, service, name);
    }
    NoEmptyMember(parses, slices, nodes, service, local, kind);
    forall a | IsMember(parses, slices, nodes, service, local, kind, a)
      ensures a != "" && exists n :: MemberFrom(parses, slices, nodes, service, local, kind, a, n)
    {
      MemberExactly(parses, slices, nodes, service, local, kind, a);
    }
    forall a, n | a != "" && MemberFrom(parses, slices, nodes, service, local, kind, a, n)
      ensures IsMember(parses, slices, nodes, service, local, kind, a)
    {
      MemberExactly(parses, slices, nodes, service, local, kind, a);
    }
  }

  lemma NoEmptyMember(parses: Parser, slices: seq<Slice>, nodes: seq<Node>, service: string, local: bool, kind: string)
    ensures !IsMember(parses, slices, nodes, service, local, kind, "")
  {
  }

  lemma AnyReadyExactly(slices: seq<Slice>, service: string)
    ensures !AnyReady(slices, service) <==>
            forall i, j :: 0 <= i < |slices| && slices[i].service == service && 0 <= j < |slices[i].endpoints| ==>
              slices[i].endpoints[j].ready == Some(false) || slices[i].endpoints[j].terminating == Some(true)
  {
    if forall i, j :: 0 <= i < |slices| && slices[i].service == service && 0 <= j < |slices[i].endpoints| ==>
      slices[i].endpoints[j].ready == Some(false) || slices[i].endpoints[j].terminating == Some(true)
    {
      assert forall i :: 0 <= i < |slices| && slices[i].service == service ==> !HasReady(slices[i]);
    } else {
      var i, j :| 0 <= i < |slices| && slices[i].service == service && 0 <= j < |slices[i].endpoints| &&
        !(slices[i].endpoints[j].ready == Some(false) || slices[i].endpoints[j].terminating == Some(true));
      assert EndpointReady(slices[i].endpoints[j]);
      assert HasReady(slices[i]);
    }
  }

  // ----- the event filters -----

  /** Names joined by NUL. */
  function JoinNul(names: seq<string>): string
  {
    if names == [] then "" else if |names| == 1 then names[0] else names[0] + [NUL] + JoinNul(names[1..])
  }

  datatype SliceState = SliceState(service: string, hasReady: bool, readyNodes: string, deleting: bool)

  ghost function SliceBackendState(slice: Slice): SliceState
  {
    SliceState(slice.service, HasReady(slice), JoinNul(SortedIds(ReadyNodes(slice))), slice.deleting)
  }

  method ComputeSliceState(slice: Slice) returns (r: SliceState)
    ensures r == SliceBackendState(slice)
  {
    var nodes: set<string> := {};
    var hasReady := false;
    for i := 0 to |slice.endpoints|
      invariant hasReady == exists j :: 0 <= j < i && EndpointReady(slice.endpoints[j])
      invariant nodes == set j | 0 <= j < i && EndpointReady(slice.endpoints[j]) && slice.endpoints[j].node.Some? ::
                           slice.endpoints[j].node.value
    {
      if !EndpointReady(slice.endpoints[i]) {
        continue;
      }
      hasReady := true;
      if slice.endpoints[i].node.Some? {
        nodes := nodes + {slice.endpoints[i].node.value};
      }
    }
    var readyNodes := ListIds(nodes);
    r := SliceState(slice.service, hasReady, JoinNul(readyNodes), slice.deleting);
  }

  datatype NodeState = NodeState(address: string, ready: Option<string>, unschedulable: bool, deleting: bool)

  function NodeBackendState(parses: Parser, node: Node, kind: string): NodeState
  {
    NodeState(NodeAddress(parses, node.addresses, kind), ReadyCondition(node.conditions), node.unschedulable, node.deleting)
  }

  /** Node names as Kubernetes allows them. */
  predicate GoodNames(names: seq<string>)
  {
    forall i :: 0 <= i < |names| ==> names[i] != "" && NUL !in names[i]
  }

  predicate GoodSlice(slice: Slice)
  {
    forall name :: name in ReadyNodes(slice) ==> name != "" && NUL !in name
  }

  lemma OneHasNoNul(names: seq<string>)
    requires GoodNames(names) && names != []
    ensures JoinNul(names) != "" && (NUL in JoinNul(names) <==> |names| > 1)
  {
    if |names| > 1 {
      assert JoinNul(names)[|names[0]|] == NUL;
    }
  }

  /** Joined good names determine the list. */
  lemma {:induction false} JoinUnique(a: seq<string>, b: seq<string>)
    requires GoodNames(a) && GoodNames(b) && JoinNul(a) == JoinNul(b)
    ensures a == b
  {
    if a != [] && b != [] {
      OneHasNoNul(a);
      OneHasNoNul(b);
      if |a| > 1 {
        SplitAtNul(a[0], JoinNul(a[1..]), b[0], JoinNul(b[1..]));
        JoinUnique(a[1..], b[1..]);
        assert a == [a[0]] + a[1..] && b == [b[0]] + b[1..];
      }
    } else if a != [] {
      OneHasNoNul(a);
    } else if b != [] {
      OneHasNoNul(b);
    }
  }

  /** An unchanged projected state means unchanged readiness and ready nodes. */
  lemma SameSliceState(a: Slice, b: Slice)
    requires GoodSlice(a) && GoodSlice(b) && SliceBackendState(a) == SliceBackendState(b)
    ensures a.service == b.service && HasReady(a) == HasReady(b) && ReadyNodes(a) == ReadyNodes(b)
  {
    hide HasReady, ReadyNodes;
    var x, y := SortedIds(ReadyNodes(a)), SortedIds(ReadyNodes(b));
    JoinUnique(x, y);
    assert forall name :: name in ReadyNodes(a) <==> name in x;
    assert forall name :: name in ReadyNodes(b) <==> name in y;
  }

  /** Filtered EndpointSlice updates cannot matter: a slice update with the same
      projected state leaves the member list, or the reason for not having one,
      exactly as it was. */
  lemma SliceFilterSound(
    parses: Parser, slices: seq<Slice>, i: nat, updated: Slice, nodes: seq<Node>, service: string, local: bool, kind: string,
    r: MemberResult)
    requires i < |slices| && GoodSlice(slices[i]) && GoodSlice(updated)
    requires SliceBackendState(slices[i]) == SliceBackendState(updated)
    ensures IsResult(parses, slices, nodes, service, local, kind, r) <==>
            IsResult(parses, slices[i := updated], nodes, service, local, kind, r)
  {
    SameSliceState(slices[i], updated);
    hide SliceBackendState, HasReady, ReadyNodes, GoodSlice, ReadyNode;
    var slices' := slices[i := updated];
    assert forall j :: 0 <= j < |slices| ==>
      slices'[j].service == slices[j].service && HasReady(slices'[j]) == HasReady(slices[j]) &&
      ReadyNodes(slices'[j]) == ReadyNodes(slices[j]);
    assert AnyReady(slices, service) == AnyReady(slices', service);
    forall name ensures IsLocal(slices, service, name) == IsLocal(slices', service, name) {
    }
    hide AnyReady, IsLocal;
    forall a ensures IsMember(parses, slices, nodes, service, local, kind, a) == IsMember(parses, slices', nodes, service, local, kind, a) {
    }
    hide IsMember;
    SameResult(parses, slices, slices', nodes, nodes, service, local, kind, r);
  }

  /** Filtered Node updates cannot matter. */
  lemma NodeFilterSound(
    parses: Parser, slices: seq<Slice>, nodes: seq<Node>, i: nat, updated: Node, service: string, local: bool, kind: string,
    r: MemberResult)
    requires i < |nodes| && updated.name == nodes[i].name
    requires NodeBackendState(parses, nodes[i], kind) == NodeBackendState(parses, updated, kind)
    ensures IsResult(parses, slices, nodes, service, local, kind, r) <==>
            IsResult(parses, slices, nodes[i := updated], service, local, kind, r)
  {
    hide ReadyCondition, NodeAddress, AnyReady, IsLocal;
    var nodes' := nodes[i := updated];
    forall a ensures IsMember(parses, slices, nodes, service, local, kind, a) == IsMember(parses, slices, nodes', service, local, kind, a) {
      assert forall j :: 0 <= j < |nodes| ==>
        (Contributes(parses, slices, service, local, kind, nodes[j], a) <==>
         Contributes(parses, slices, service, local, kind, nodes'[j], a));
    }
    hide IsMember;
    SameResult(parses, slices, slices, nodes, nodes', service, local, kind, r);
  }

  lemma SameResult(
    parses: Parser, slices: seq<Slice>, slices': seq<Slice>, nodes: seq<Node>, nodes': seq<Node>, service: string, local: bool,
    kind: string, r: MemberResult)
    requires AnyReady(slices, service) == AnyReady(slices', service)
    requires forall name :: IsLocal(slices, service, name) == IsLocal(slices', service, name)
    requires forall a :: IsMember(parses, slices, nodes, service, local, kind, a) ==
                         IsMember(parses, slices', nodes', service, local, kind, a)
    ensures IsResult(parses, slices, nodes, service, local, kind, r) <==>
            IsResult(parses, slices', nodes', service, local, kind, r)
  {
    hide AnyReady, IsLocal, IsMember;
    forall x ensures MembersAre(parses, slices, nodes, service, local, kind, x) <==>
                     MembersAre(parses, slices', nodes', service, local, kind, x) {
    }
  }

  lemma SameMembers(
    parses: Parser, slices: seq<Slice>, nodes: seq<Node>, service: string, local: bool, kind: string, x: set<string>, y: set<string>)
    requires MembersAre(parses, slices, nodes, service, local, kind, x)
    requires MembersAre(parses, slices, nodes, service, local, kind, y)
    ensures x == y
  {
    hide IsMember;
    assert forall a :: a in x <==> a in y;
  }

  /** The result is unique, so an unchanged result means unchanged members. */
  lemma ResultUnique(
    parses: Parser, slices: seq<Slice>, nodes: seq<Node>, service: string, local: bool, kind: string, r: MemberResult, s: MemberResult)
    requires IsResult(parses, slices, nodes, service, local, kind, r) && IsResult(parses, slices, nodes, service, local, kind, s)
    ensures r == s
  {
    hide AnyReady, IsLocal, IsMember, MembersAre, SortedIds;
    if r.MembersAt? && s.MembersAt? {
      var x :| MembersAre(parses, slices, nodes, service, local, kind, x) && r == MembersAt(SortedIds(x));
      var y :| MembersAre(parses, slices, nodes, service, local, kind, y) && s == MembersAt(SortedIds(y));
      SameMembers(parses, slices, nodes, service, local, kind, x, y);
    }
  }
}
