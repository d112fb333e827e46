/** Isolation between concrete identities: what the tags of two routes or two
    Gateways keep apart, the operations keep apart. */
module TagIsolation {
  import opened Ownership
  import opened Octavia
  import opened RouteModel
  import opened RouteTree
  import opened Isolation
  import opened Kube
  import opened OwnershipTags

  /** No tags of a route resource match both claims, in whatever roles. */
  ghost predicate Apart(a: Claim, b: Claim)
  {
    forall tags, role, other :: RouteRole(role) && RouteRole(other) ==> !(Claims(a, tags, role) && Claims(b, tags, other))
  }

  /** Every route resource that matches the claim is unchanged. */
  ghost predicate OwnKept(c: Claim, st: Store, st': Store)
  {
    (forall x :: OwnPool(c, st.pools, x) ==> Keeps(st.pools, st'.pools, x)) &&
    (forall x :: OwnMember(c, st.members, x) ==> Keeps(st.members, st'.members, x)) &&
    (forall x :: OwnMonitor(c, st.monitors, x) ==> Keeps(st.monitors, st'.monitors, x)) &&
    (forall x :: OwnPolicy(c, st.policies, x) ==> Keeps(st.policies, st'.policies, x)) &&
    (forall x :: OwnRule(c, st.rules, x) ==> Keeps(st.rules, st'.rules, x))
  }

  ghost predicate AllApart(claims: seq<Claim>, mine: Claim)
  {
    forall i :: 0 <= i < |claims| ==> Apart(claims[i], mine)
  }

  /** Tags of mine are foreign to claims that are all apart from mine. */
  lemma MineIsForeign(claims: seq<Claim>, mine: Claim, tags: Tags, role: Role, other: Role)
    requires AllApart(claims, mine) && RouteRole(role) && RouteRole(other) && Claims(mine, tags, other)
    ensures Foreign(claims, tags, role)
  {
    hide Claims;
    forall c | c in claims ensures !Claims(c, tags, role) {
      var i :| 0 <= i < |claims| && claims[i] == c;
      assert Apart(claims[i], mine);
    }
  }

  lemma UntouchedKeepsMine(claims: seq<Claim>, mine: Claim, st: Store, st': Store)
    requires AllApart(claims, mine) && Untouched(claims, st, st')
    ensures OwnKept(mine, st, st')
  {
    hide AllApart, Claims, Foreign, Keeps;
    forall x | OwnPool(mine, st.pools, x) ensures Keeps(st.pools, st'.pools, x) {
      MineIsForeign(claims, mine, st.pools[x].tags, PoolRole, PoolRole);
    }
    forall x | OwnMember(mine, st.members, x) ensures Keeps(st.members, st'.members, x) {
      MineIsForeign(claims, mine, st.members[x].tags, MemberRole, MemberRole);
    }
    forall x | OwnMonitor(mine, st.monitors, x) ensures Keeps(st.monitors, st'.monitors, x) {
      MineIsForeign(claims, mine, st.monitors[x].tags, MonitorRole, MonitorRole);
    }
    forall x | OwnPolicy(mine, st.policies, x) ensures Keeps(st.policies, st'.policies, x) {
      var tags := st.policies[x].tags;
      var role := if Claims(mine, tags, PolicyExact) then PolicyExact else PolicyPrefix;
      MineIsForeign(claims, mine, tags, PolicyExact, role);
      MineIsForeign(claims, mine, tags, PolicyPrefix, role);
    }
    forall x | OwnRule(mine, st.rules, x) ensures Keeps(st.rules, st'.rules, x) {
      var tags := st.rules[x].tags;
      var role := if Claims(mine, tags, RulePath) then RulePath else RuleHost;
      MineIsForeign(claims, mine, tags, RulePath, role);
      MineIsForeign(claims, mine, tags, RuleHost, role);
    }
  }

  /** In any run of claims apart from mine, everything mine stays as it was. */
  lemma RunKeepsMine(states: seq<Store>, turns: seq<Turn>, mine: Claim)
    requires IsOperationRun(states, turns) && "" !in states[0].listeners && AllApart(ClaimsIn(turns), mine)
    ensures OwnKept(mine, states[0], states[|turns|])
  {
    hide Perform, Untouched, OwnKept, AllApart, FreshFor, LawfulNet;
    RunIsolated(states, turns);
    UntouchedKeepsMine(ClaimsIn(turns), mine, states[0], states[|turns|]);
  }

  // ----- concrete identities -----

  predicate SameRoute(a: Identity, b: Identity)
  {
    a.routeNamespace == b.routeNamespace && a.routeName == b.routeName && a.routeUID == b.routeUID
  }

  function RouteClaimOf(c: Codec, id: Identity): Claim
  {
    Claim(OwnerOf(c, id), true)
  }

  function GatewayClaimOf(c: Codec, id: Identity): Claim
  {
    Claim(OwnerOf(c, id), false)
  }

  /** Two routes, of one Gateway or of two, are apart. */
  lemma RoutesApart(c: Codec, a: Identity, b: Identity)
    requires LawfulCodec(c) && RouteUndigested(c, a) && RouteUndigested(c, b) && !SameRoute(a, b)
    ensures Apart(RouteClaimOf(c, a), RouteClaimOf(c, b))
  {
    hide LawfulCodec, RouteUndigested, MatchesRoute;
    forall tags, role, other | RouteRole(role) && RouteRole(other)
      ensures !(Claims(RouteClaimOf(c, a), tags, role) && Claims(RouteClaimOf(c, b), tags, other))
    {
      if MatchesRoute(c, a, tags, role) && MatchesRoute(c, b, tags, other) {
        RouteTagsUnique(c, a, b, tags, role, other);
        assert false;
      }
    }
  }

  /** The operations of one Gateway are apart from the routes of another. */
  lemma GatewayApartFromRoute(c: Codec, a: Identity, b: Identity)
    requires LawfulCodec(c) && GatewayUndigested(c, a) && GatewayUndigested(c, b)
    requires a.project != "" && b.project != "" && !(SameGateway(a, b) && a.project == b.project)
    ensures Apart(GatewayClaimOf(c, a), RouteClaimOf(c, b))
  {
    hide LawfulCodec, GatewayUndigested, MatchesRoute, MatchesGateway, MatchesRouteDiscovery, MatchesGatewayDiscovery, Listed;
    forall tags, role, other | RouteRole(role) && RouteRole(other)
      ensures !(Claims(GatewayClaimOf(c, a), tags, role) && Claims(RouteClaimOf(c, b), tags, other))
    {
      MatchingChain(c, b, tags, other);
      if MatchesGateway(c, a, tags, role) && MatchesGateway(c, b, tags, other) {
        GatewayTagsUnique(c, a, b, tags, role, other);
        assert false;
      }
    }
  }

  /** Two routes never touch each other's resources, even beneath one Gateway: an
      operation for one leaves every pool, member, monitor, policy and rule of the
      other as it was. */
  lemma RoutesNeverTouch(c: Codec, a: Identity, b: Identity, env: Env, op: Operation, st: Store)
    requires LawfulCodec(c) && RouteUndigested(c, a) && RouteUndigested(c, b) && !SameRoute(a, b)
    requires env.own == OwnerOf(c, a) && (op.EnsureRouteOp? || op.DeleteRouteOp?)
    requires LawfulNet(env.net) && "" !in st.listeners && FreshFor(op, st)
    ensures OwnKept(RouteClaimOf(c, b), st, Perform(env, op, st).store)
  {
    hide LawfulCodec, RouteUndigested, Apart, Untouched, OwnKept, Perform, LawfulNet, FreshFor, OwnerOf;
    OperationIsolated(env, op, st);
    RoutesApart(c, a, b);
    UntouchedKeepsMine([ClaimOf(env, op)], RouteClaimOf(c, b), st, Perform(env, op, st).store);
  }
}
