/** What EnsureGateway writes and when, and what a Ready Gateway looks like in the
    cloud, written out in terms of its specification. */
module GatewayContents {
  import opened Ownership
  import opened Octavia
  import opened RouteModel
  import opened RouteTree
  import opened GatewayTree
  import opened Provider
  import opened GatewayService

  /** The Floating IPs at the virtual IP port: none without an external network,
      otherwise one on that network that carries the Gateway's description. */
  ghost predicate AddressesAsSpecified(env: Env, spec: GatewaySpec, st: Store, port: Id)
  {
    if spec.externalNetwork == "" then forall f :: f in st.floatingIPs ==> st.floatingIPs[f].port != port
    else
      exists f :: f in st.floatingIPs && st.floatingIPs[f].port == port && st.floatingIPs[f].network == spec.externalNetwork &&
        env.own.matchesDescription(st.floatingIPs[f].description) &&
        forall g :: g in st.floatingIPs && st.floatingIPs[g].port == port ==> g == f
  }

  /** The only load balancer listed for the Gateway. */
  ghost predicate LoadBalancerAsSpecified(env: Env, spec: GatewaySpec, st: Store, id: Id)
  {
    id in st.loadBalancers &&
    var lb := st.loadBalancers[id];
    lb.project == env.project && env.own.exactGateway(lb.tags, LoadBalancerRole) && lb.vipSubnet == spec.vipSubnet &&
    (spec.provider != "" ==> lb.provider == spec.provider) && lb.status == Active && lb.up &&
    forall other :: other in st.loadBalancers && env.own.listsLoadBalancer(st.loadBalancers[other].tags) ==> other == id
  }

  /** Its only listener. */
  ghost predicate ListenerAsSpecified(env: Env, spec: GatewaySpec, st: Store, lb: Id, id: Id)
  {
    id in st.listeners &&
    var l := st.listeners[id];
    l.parent == lb && l.protocol == HTTP && l.port == spec.listenerPort && l.up && env.own.exactGateway(l.tags, ListenerRole) &&
    forall other :: other in st.listeners && st.listeners[other].parent == lb ==> other == id
  }

  lemma FoundIsOnly(env: Env, st: Store, lb: Id)
    requires FindLoadBalancer(env, st.loadBalancers) == Found(lb)
    ensures lb in st.loadBalancers && st.loadBalancers[lb].project == env.project
    ensures forall other :: other in st.loadBalancers && env.own.listsLoadBalancer(st.loadBalancers[other].tags) ==> other == lb
  {
    var listed := ListedLoadBalancers(env.own, st.loadBalancers);
    assert listed == {lb};
    forall other | other in st.loadBalancers && env.own.listsLoadBalancer(st.loadBalancers[other].tags) ensures other == lb {
      assert other in listed;
    }
  }

  lemma ListenerIsOnly(env: Env, st: Store, lb: Id, l: Id)
    requires FindListener(env, st.listeners, lb) == Found(l)
    ensures l in st.listeners && st.listeners[l].parent == lb && env.own.exactGateway(st.listeners[l].tags, ListenerRole)
    ensures forall other :: other in st.listeners && st.listeners[other].parent == lb ==> other == l
  {
    var items := ListenersOf(st.listeners, lb);
    assert items == {l} && l in items;
    forall other | other in st.listeners && st.listeners[other].parent == lb ensures other == l {
      assert other in items;
    }
  }

  lemma AddressesExactly(env: Env, spec: GatewaySpec, st: Store, port: Id)
    requires FloatingIPStateOf(env, st.floatingIPs, port, spec.externalNetwork) == AsRequired
    ensures AddressesAsSpecified(env, spec, st, port)
  {
    var items := FloatingIPsOf(st.floatingIPs, port);
    if spec.externalNetwork == "" {
      forall f | f in st.floatingIPs ensures st.floatingIPs[f].port != port {
        assert f !in items;
      }
    } else {
      var f :| items == {f} && st.floatingIPs[f].network == spec.externalNetwork;
      assert f in items;
      assert FloatingIPTrusted(env, port, st.floatingIPs[f]);
      forall g | g in st.floatingIPs && st.floatingIPs[g].port == port ensures g == f {
        assert g in items;
      }
    }
  }

  /** A Ready report means exactly one load balancer, listener and, when asked for,
      Floating IP, with the specified fields and switched on. */
  lemma ReadyGatewayContents(env: Env, spec: GatewaySpec, st: Store, choice: Choice)
    requires EnsureGatewayResult(env, spec, st, choice).outcome == Ready
    ensures exists lb, l :: LoadBalancerAsSpecified(env, spec, st, lb) && ListenerAsSpecified(env, spec, st, lb, l) &&
              AddressesAsSpecified(env, spec, st, st.loadBalancers[lb].vipPort)
  {
    hide FindLoadBalancer, FindListener, FloatingIPStateOf, GatewayTreeOk, EnsureGatewayResult, AddressesAsSpecified, Blank;
    ReadyIsInPlace(env, spec, st, choice);
    var lb := FindLoadBalancer(env, st.loadBalancers).id;
    var l := FindListener(env, st.listeners, lb).id;
    FoundIsOnly(env, st, lb);
    ListenerIsOnly(env, st, lb, l);
    AddressesExactly(env, spec, st, st.loadBalancers[lb].vipPort);
    assert LoadBalancerAsSpecified(env, spec, st, lb) && ListenerAsSpecified(env, spec, st, lb, l);
  }

  // ----- the order of the writes -----

  /** What appears in or goes from the store in one EnsureGateway call. */
  ghost predicate WritesInOrder(env: Env, spec: GatewaySpec, st: Store, st': Store, lb: Id)
    requires lb in st.loadBalancers
  {
    var port := st.loadBalancers[lb].vipPort;
    st'.loadBalancers.Keys == st.loadBalancers.Keys &&
    (forall f :: f in st'.floatingIPs && f !in st.floatingIPs ==>
      spec.externalNetwork != "" && FloatingIPsOf(st.floatingIPs, port) == {} &&
      st'.floatingIPs[f].port == port && st'.floatingIPs[f].network == spec.externalNetwork &&
      st'.floatingIPs[f].description == env.own.description) &&
    (forall f :: f in st.floatingIPs && f !in st'.floatingIPs ==> spec.externalNetwork == "" && st.floatingIPs[f].port == port) &&
    (forall l :: l in st'.listeners && l !in st.listeners ==>
      ListenersOf(st.listeners, lb) == {} && FloatingIPsAsRequired(st.floatingIPs, port, spec.externalNetwork) &&
      st'.listeners[l].parent == lb && st'.listeners[l].protocol == HTTP && st'.listeners[l].port == spec.listenerPort &&
      st'.listeners[l].tags == env.own.gatewayTags(ListenerRole) && st'.listeners[l].up) &&
    (forall l :: l in st.listeners ==> l in st'.listeners)
  }

  lemma NothingInOrder(env: Env, spec: GatewaySpec, st: Store, lb: Id)
    requires lb in st.loadBalancers
    ensures WritesInOrder(env, spec, st, st, lb)
  {
  }

  lemma AddressInOrder(env: Env, spec: GatewaySpec, st: Store, lb: Id, f: Id)
    requires lb in st.loadBalancers && f !in st.floatingIPs
    requires FloatingIPStateOf(env, st.floatingIPs, st.loadBalancers[lb].vipPort, spec.externalNetwork) == Missing
    ensures var port := st.loadBalancers[lb].vipPort;
            WritesInOrder(env, spec, st, st.(floatingIPs := st.floatingIPs[f := NewFloatingIP(env, port, spec.externalNetwork)]), lb)
  {
  }

  lemma DropInOrder(env: Env, spec: GatewaySpec, st: Store, lb: Id, f: Id)
    requires lb in st.loadBalancers
    requires FloatingIPStateOf(env, st.floatingIPs, st.loadBalancers[lb].vipPort, spec.externalNetwork) == Superfluous(f)
    ensures WritesInOrder(env, spec, st, st.(floatingIPs := st.floatingIPs - {f}), lb)
  {
  }

  lemma ListenerInOrder(env: Env, spec: GatewaySpec, st: Store, lb: Id, l: Id)
    requires lb in st.loadBalancers && l !in st.listeners && ListenersOf(st.listeners, lb) == {}
    requires FloatingIPsAsRequired(st.floatingIPs, st.loadBalancers[lb].vipPort, spec.externalNetwork)
    ensures WritesInOrder(env, spec, st, st.(listeners := st.listeners[l := NewListener(env, spec, lb)]), lb)
  {
    hide FloatingIPsAsRequired;
  }

  lemma SwitchInOrder(env: Env, spec: GatewaySpec, st: Store, lb: Id, l: Id)
    requires lb in st.loadBalancers && l in st.listeners
    ensures WritesInOrder(env, spec, st, EnableListener(st, l), lb) && WritesInOrder(env, spec, st, EnableLoadBalancer(st, lb), lb)
  {
    hide FloatingIPsAsRequired;
  }

  lemma AdminInOrder(env: Env, spec: GatewaySpec, st: Store, lb: Id, choice: Choice)
    requires lb in st.loadBalancers && choice.id !in st.listeners
    requires FloatingIPsAsRequired(st.floatingIPs, st.loadBalancers[lb].vipPort, spec.externalNetwork)
    requires !FindListener(env, st.listeners, lb).Conflict?
    ensures WritesInOrder(env, spec, st, EnsureGatewayAdmin(env, spec, st, lb, FindListener(env, st.listeners, lb), choice).store, lb)
  {
    hide FloatingIPsAsRequired, HasRouteResources, FindListener, NewListener, EnableListener, EnableLoadBalancer, WritesInOrder;
    NothingInOrder(env, spec, st, lb);
    var listener := FindListener(env, st.listeners, lb);
    if listener.Found? {
      SwitchInOrder(env, spec, st, lb, listener.id);
    } else {
      ListenerInOrder(env, spec, st, lb, choice.id);
    }
  }

  /** The order of an existing Gateway's writes: a Floating IP comes only where one is
      asked for and none is there, one goes only where none is asked for, and a
      listener comes only when there is none and the Floating IP is as required. */
  lemma EnsureGatewayOrder(env: Env, spec: GatewaySpec, st: Store, choice: Choice, lb: Id)
    requires Fresh(st, choice.id) && FindLoadBalancer(env, st.loadBalancers) == Found(lb) && lb in st.loadBalancers
    ensures WritesInOrder(env, spec, st, EnsureGatewayResult(env, spec, st, choice).store, lb)
  {
    assert choice.id !in st.floatingIPs && choice.id !in st.listeners;
    hide FindLoadBalancer, FindListener, FloatingIPStateOf, GatewayTreeOk, EnsureGatewayAdmin, WritesInOrder, Blank, Fresh, NewFloatingIP,
         FloatingIPsTrusted, FloatingIPsAsRequired;
    NothingInOrder(env, spec, st, lb);
    match FloatingIPStateOf(env, st.floatingIPs, st.loadBalancers[lb].vipPort, spec.externalNetwork) {
      case Unusable =>
      case Missing => AddressInOrder(env, spec, st, lb, choice.id);
      case Superfluous(f) => DropInOrder(env, spec, st, lb, f);
      case AsRequired =>
        if !FindListener(env, st.listeners, lb).Conflict? {
          AdminInOrder(env, spec, st, lb, choice);
        }
    }
  }
}
