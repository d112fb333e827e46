/** What a Ready route looks like in the cloud, written out in terms of its
    specification and of literal Octavia values. */
module RouteContents {
  import opened Ownership
  import opened Octavia
  import opened RouteModel
  import opened RouteTree
  import opened RoutePlan
  import opened RouteSteps
  import opened PolicyViews
  import opened RouteProgress
  import opened RouteConvergence
  import opened Provider
  import opened RouteService
  import Faultless
  import Isolation

  /** The health check every route gets: only its path can be configured. */
  predicate ProbesAsSpecified(spec: RouteSpec, monitor: Monitor)
  {
    monitor.monitorType == HTTPMonitor && monitor.up && monitor.httpMethod == GET &&
    monitor.urlPath == (if spec.healthPath == "" then "/" else spec.healthPath) && monitor.expectedCodes == "200-399" &&
    monitor.delay == 10 && monitor.timeout == 5 && monitor.maxRetries == 3 && monitor.maxRetriesDown == 3
  }

  /** One member serves one of the specified endpoints. */
  predicate MemberServes(net: Net, spec: RouteSpec, member: Member, e: Endpoint)
  {
    net.parse(member.address).Some? && net.parse(member.address) == net.parse(e.address) && member.port == e.port &&
    member.subnet == spec.memberSubnet && member.up
  }

  predicate ServesSome(net: Net, spec: RouteSpec, member: Member)
  {
    exists e :: e in spec.members && MemberServes(net, spec, member, e)
  }

  ghost predicate IsServed(net: Net, spec: RouteSpec, members: Members, pool: Id, e: Endpoint)
  {
    exists m :: m in MembersOf(members, pool) && MemberServes(net, spec, members[m], e)
  }

  predicate SameEndpoint(net: Net, a: Member, b: Member)
  {
    net.parse(a.address) == net.parse(b.address) && a.port == b.port
  }

  /** Members and specified endpoints correspond, whatever spelling the addresses
      have, and no two members are the same endpoint. */
  ghost predicate MembersAsSpecified(net: Net, spec: RouteSpec, members: Members, pool: Id)
  {
    (forall m :: m in MembersOf(members, pool) ==> ServesSome(net, spec, members[m])) &&
    (forall e :: e in spec.members ==> IsServed(net, spec, members, pool, e)) &&
    (forall m, n :: m in MembersOf(members, pool) && n in MembersOf(members, pool) && m != n ==>
      !SameEndpoint(net, members[m], members[n]))
  }

  /** The only listener of an active load balancer; both have the required immutable
      fields and are on. */
  ghost predicate SwitchedOn(spec: RouteSpec, st: Store, site: Site)
  {
    site.loadBalancer in st.loadBalancers && site.listener in st.listeners &&
    var lb, l := st.loadBalancers[site.loadBalancer], st.listeners[site.listener];
    lb.up && lb.provider == spec.provider && lb.vipSubnet == spec.vipSubnet && lb.status == Active &&
    ListenersOf(st.listeners, site.loadBalancer) == {site.listener} && l.up && l.protocol == HTTP &&
    l.port == spec.listenerPort && spec.gatewayLoadBalancer in {"", site.loadBalancer} && spec.gatewayListener in {"", site.listener}
  }

  /** The whole route beneath a load balancer and its listener. */
  ghost predicate AsSpecified(env: Env, spec: RouteSpec, st: Store, site: Site)
  {
    exists p, m ::
      PoolsOf(st.pools, site.loadBalancer) == {p} && MonitorsOf(st.monitors, p) == {m} &&
      st.pools[p].protocol == HTTP && st.pools[p].lbMethod == RoundRobin && st.pools[p].up &&
      ProbesAsSpecified(spec, st.monitors[m]) && MembersAsSpecified(env.net, spec, st.members, p) &&
      forall x :: x in PoliciesOf(st.policies, site.listener) ==>
        st.policies[x].up && st.policies[x].action == RedirectToPool && st.policies[x].redirectPool == p
  }

  lemma MemberMatches(env: Env, d: Desired, member: Member, pool: Id, e: Endpoint)
    requires LawfulNet(env.net) && MemberOk(env, pool, member) && Canonical(env.net, e.address) && PortOk(e.port)
    requires MemberText(env.net, member) == KeyOf(env.net, e)
    ensures env.net.parse(member.address) == Some(e.address) && member.port == e.port
  {
    assert env.net.parse(member.address) == Some(CanonicalAddress(env.net, member));
  }

  lemma EachServes(env: Env, spec: RouteSpec, d: Desired, member: Member, pool: Id, e: Endpoint)
    requires LawfulNet(env.net) && EndpointsOk(env.net, spec.members) && MemberOk(env, pool, member)
    requires e in Canonicalised(env.net, spec.members) && member.up && member.subnet == spec.memberSubnet
    requires MemberText(env.net, member) == KeyOf(env.net, e)
    ensures ServesSome(env.net, spec, member)
  {
    var all := Canonicalised(env.net, spec.members);
    CanonicalisedDistinct(env.net, spec.members);
    MemberMatches(env, d, member, pool, e);
    var i :| 0 <= i < |all| && all[i] == e;
    assert MemberServes(env.net, spec, member, spec.members[i]);
  }

  lemma EachServed(env: Env, spec: RouteSpec, d: Desired, members: Members, pool: Id, i: int)
    requires LawfulNet(env.net) && EndpointsOk(env.net, spec.members) && MembersOk(env, members, pool)
    requires MembersInPlace(env, d, members, pool) && d.spec == spec && 0 <= i < |spec.members|
    requires Canonicalised(env.net, spec.members)[i] in d.members
    ensures IsServed(env.net, spec, members, pool, spec.members[i])
  {
    var e := Canonicalised(env.net, spec.members)[i];
    CanonicalisedDistinct(env.net, spec.members);
    hide LawfulNet, MemberText, KeyOf;
    var m :| m in MembersOf(members, pool) && MemberText(env.net, members[m]) == KeyOf(env.net, e);
    MemberMatches(env, d, members[m], pool, e);
    assert MemberServes(env.net, spec, members[m], spec.members[i]);
  }

  lemma DifferentTexts(env: Env, pool: Id, a: Member, b: Member)
    requires MemberOk(env, pool, a) && MemberOk(env, pool, b) && MemberText(env.net, a) != MemberText(env.net, b)
    ensures !SameEndpoint(env.net, a, b)
  {
  }

  lemma MembersMatch(env: Env, spec: RouteSpec, d: Desired, members: Members, pool: Id)
    requires LawfulNet(env.net) && DesiredFor(env.net, spec) == Some(d) && MembersOk(env, members, pool)
    requires MembersInPlace(env, d, members, pool)
    ensures MembersAsSpecified(env.net, spec, members, pool)
  {
    DesiredForOk(env.net, spec, d);
    assert EndpointsOk(env.net, spec.members);
    hide DesiredFor, LawfulNet, DesiredOk, ServesSome, IsServed, SameEndpoint, MemberText, KeyOf, MemberOk;
    var all := Canonicalised(env.net, spec.members);
    forall m | m in MembersOf(members, pool) ensures ServesSome(env.net, spec, members[m]) {
      var e :| e in d.members && KeyOf(env.net, e) == MemberText(env.net, members[m]);
      EachServes(env, spec, d, members[m], pool, e);
    }
    forall e | e in spec.members ensures IsServed(env.net, spec, members, pool, e) {
      var i :| 0 <= i < |spec.members| && spec.members[i] == e;
      assert all[i] in all;
      EachServed(env, spec, d, members, pool, i);
    }
    forall m, n | m in MembersOf(members, pool) && n in MembersOf(members, pool) && m != n
      ensures !SameEndpoint(env.net, members[m], members[n])
    {
      DifferentTexts(env, pool, members[m], members[n]);
    }
  }

  lemma PoliciesPointAt(env: Env, d: Desired, st: Store, site: Site, p: Id, x: Id)
    requires TreeOk(env, st, site) && site.listener != "" && x in PoliciesOf(st.policies, site.listener)
    requires PolicyInPlace(d, PolicyExact, View(env, st, site, PolicyExact), p)
    requires PolicyInPlace(d, PolicyPrefix, View(env, st, site, PolicyPrefix), p)
    ensures st.policies[x].up && st.policies[x].action == RedirectToPool && st.policies[x].redirectPool == p
  {
    hide PoolTreeOk, PolicyTreeOk, WantedPolicy, WantedRule, RuleInPlace;
    var role := PolicyHasRole(env, st.policies, st.rules, site.listener, x);
  }

  lemma ConvergedContents(env: Env, spec: RouteSpec, d: Desired, st: Store, site: Site)
    requires LawfulNet(env.net) && DesiredFor(env.net, spec) == Some(d) && site.listener != ""
    requires TreeOk(env, st, site) && ProtocolsOk(st, site) && Converged(env, d, st, site)
    ensures AsSpecified(env, spec, st, site)
  {
    hide LawfulNet, DesiredFor, PolicyInPlace, MembersInPlace, View, PolicyTreeOk, MembersOk, MonitorsOk, PoolOk;
    DesiredForOk(env.net, spec, d);
    var p :| PoolInPlace(env, d, st, site, p) &&
             PolicyInPlace(d, PolicyExact, View(env, st, site, PolicyExact), p) &&
             PolicyInPlace(d, PolicyPrefix, View(env, st, site, PolicyPrefix), p);
    var m :| MonitorsOf(st.monitors, p) == {m} && MonitorSettled(d, st.monitors[m]);
    assert p in PoolsOf(st.pools, site.loadBalancer) && m in MonitorsOf(st.monitors, p);
    MembersMatch(env, spec, d, st.members, p);
    forall x | x in PoliciesOf(st.policies, site.listener)
      ensures st.policies[x].up && st.policies[x].action == RedirectToPool && st.policies[x].redirectPool == p
    {
      PoliciesPointAt(env, d, st, site, p, x);
    }
  }

  lemma ReadyContentsAt(env: Env, spec: RouteSpec, st: Store, id: Id, site: Site)
    requires LawfulNet(env.net) && "" !in st.listeners && EnsureRouteResult(env, spec, st, id).outcome == Ready
    requires Serviceable(env, spec, st, site)
    ensures AsSpecified(env, spec, st, site)
  {
    hide LawfulNet, DesiredFor, TreeOk, Converged, ProtocolsOk, EnsureRouteResult, AsSpecified, ViewGateway;
    EnsureRouteReady(env, spec, st, id);
    ReadyListener(env, spec, st, site);
    assert forall other :: Serviceable(env, spec, st, other) ==> other == site;
    ConvergedContents(env, spec, DesiredFor(env.net, spec).value, st, site);
  }

  /** A Ready report means that the one pool, its members, its health check and the
      policies are what the specification says, under a load balancer and a listener
      with the required immutable fields that are both switched on. */
  lemma ReadyContents(env: Env, spec: RouteSpec, st: Store, id: Id)
    requires LawfulNet(env.net) && "" !in st.listeners && EnsureRouteResult(env, spec, st, id).outcome == Ready
    ensures exists site: Site :: SwitchedOn(spec, st, site) && AsSpecified(env, spec, st, site)
  {
    hide LawfulNet, DesiredFor, TreeOk, Converged, ProtocolsOk, EnsureRouteResult, AsSpecified, FindLoadBalancer;
    EnsureRouteReady(env, spec, st, id);
    var site :| Serviceable(env, spec, st, site) && Up(st, site) && Converged(env, DesiredFor(env.net, spec).value, st, site);
    ReadyListener(env, spec, st, site);
    ConvergedContents(env, spec, DesiredFor(env.net, spec).value, st, site);
  }

  // ----- refusals -----

  /** What a specification is refused for. */
  predicate SpecRefused(net: Net, spec: RouteSpec)
  {
    Blank(spec.provider) || Blank(spec.vipSubnet) || Blank(spec.memberSubnet) || spec.listenerPort < 1 || spec.listenerPort > 65535 ||
    spec.pathType.OtherMatch? || (spec.healthPath != "" && spec.healthPath[0] != '/') || spec.members == [] ||
    exists e :: e in spec.members && (e.port < 1 || e.port > 65535 || net.parse(e.address).None?)
  }

  lemma SpecExactly(net: Net, spec: RouteSpec)
    ensures DesiredFor(net, spec).None? <==> SpecRefused(net, spec)
  {
    if EndpointsOk(net, spec.members) {
      forall e | e in spec.members ensures PortOk(e.port) && net.parse(e.address).Some? {
        var i :| 0 <= i < |spec.members| && spec.members[i] == e;
      }
    } else {
      var i :| 0 <= i < |spec.members| && !(PortOk(spec.members[i].port) && net.parse(spec.members[i].address).Some?);
      assert spec.members[i] in spec.members;
    }
    hide Blank;
  }

  /** The Gateway is not the one the specification requires. */
  ghost predicate WrongGateway(env: Env, spec: RouteSpec, st: Store, lb: Id, l: Id)
    requires lb in st.loadBalancers && l in st.listeners
  {
    st.loadBalancers[lb].provider != spec.provider || st.loadBalancers[lb].vipSubnet != spec.vipSubnet ||
    Isolation.FaultyListener(env, lb, st.listeners[l]) || st.listeners[l].protocol != HTTP ||
    st.listeners[l].port != spec.listenerPort || spec.gatewayLoadBalancer !in {"", lb} || spec.gatewayListener !in {"", l}
  }

  /** A pool or monitor whose kind cannot be changed. */
  ghost predicate WrongKind(st: Store, lb: Id)
  {
    exists p :: p in PoolsOf(st.pools, lb) &&
      (st.pools[p].protocol != HTTP || exists m :: m in MonitorsOf(st.monitors, p) && st.monitors[m].monitorType != HTTPMonitor)
  }

  /** The route is finished, but the Gateway cannot be switched on because of its
      Floating IPs. */
  ghost predicate CannotSwitchOn(env: Env, spec: RouteSpec, st: Store, site: Site)
    requires site.loadBalancer in st.loadBalancers && site.listener in st.listeners && DesiredFor(env.net, spec).Some?
  {
    Converged(env, DesiredFor(env.net, spec).value, st, site) &&
    !(st.listeners[site.listener].up && st.loadBalancers[site.loadBalancer].up) &&
    FloatingIPStateOf(env, st.floatingIPs, st.loadBalancers[site.loadBalancer].vipPort, spec.externalNetwork) == Unusable
  }

  lemma ViewExactly(env: Env, spec: RouteSpec, st: Store, lb: Id, l: Id)
    requires LawfulOwner(env.own) && FindLoadBalancer(env, st.loadBalancers) == Found(lb) && lb in st.loadBalancers
    requires st.loadBalancers[lb].status == Active && ListenersOf(st.listeners, lb) == {l} && l in st.listeners
    ensures ViewGateway(env, st, Some(spec)).GatewayReady? && GatewayIdsMatch(spec, Site(lb, l)) <==> !WrongGateway(env, spec, st, lb, l)
    ensures ViewGateway(env, st, Some(spec)) in {GatewayBroken, GatewayReady(Site(lb, l))}
  {
    Faultless.ListenerLookup(env, st, lb, l);
    hide FindLoadBalancer, FindListener, Isolation.FaultyListener, LawfulOwner;
  }

  lemma KindsExactly(st: Store, lb: Id)
    ensures BeneathHTTP(st.pools, st.monitors, lb) <==> !WrongKind(st, lb)
  {
  }

  /** EnsureRoute on an active Gateway with its listener is refused exactly for an
      invalid specification, another Gateway than the required one, a fault of the
      route's tree, a pool or monitor of another kind, or Floating IPs that keep a
      finished route from being switched on. */
  lemma EnsureRouteRefusedIff(env: Env, spec: RouteSpec, st: Store, id: Id, lb: Id, l: Id)
    requires LawfulOwner(env.own) && LawfulNet(env.net) && FindLoadBalancer(env, st.loadBalancers) == Found(lb) && lb in st.loadBalancers
    requires st.loadBalancers[lb].status == Active && ListenersOf(st.listeners, lb) == {l} && l in st.listeners && "" !in st.listeners
    ensures DesiredFor(env.net, spec).None? <==> SpecRefused(env.net, spec)
    ensures EnsureRouteResult(env, spec, st, id).outcome == Failed <==>
            SpecRefused(env.net, spec) || WrongGateway(env, spec, st, lb, l) ||
            (exists fault :: Faultless.RouteFaultPresent(env, st, lb, l, fault)) || WrongKind(st, lb) ||
            CannotSwitchOn(env, spec, st, Site(lb, l))
  {
    hide LawfulOwner, LawfulNet, FindLoadBalancer, DesiredFor, TreeOk, GraphOf, EnsurePlan, Execute, Converged, BeneathHTTP, ViewGateway,
         SpecRefused, WrongGateway, WrongKind, Faultless.RouteFaultPresent, FloatingIPStateOf, DesiredOk, GatewayIdsMatch;
    var site := Site(lb, l);
    assert l in ListenersOf(st.listeners, lb);
    SpecExactly(env.net, spec);
    ViewExactly(env, spec, st, lb, l);
    KindsExactly(st, lb);
    Faultless.RouteTreeRefusedIff(env, st, lb, l);
    if DesiredFor(env.net, spec).Some? && TreeOk(env, st, site) {
      DesiredForOk(env.net, spec, DesiredFor(env.net, spec).value);
      PlanDefined(env, DesiredFor(env.net, spec).value, st, site);
      var plan := EnsurePlan(env.net, DesiredFor(env.net, spec).value, GraphOf(env, st, site));
      if plan.Some? {
        PlanEmptyIff(env, DesiredFor(env.net, spec).value, st, site, plan.value);
      }
    }
  }
}
