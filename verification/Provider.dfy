/** The four provider operations. Each call observes and validates everything it
    could touch, then performs at most one write. */
module Provider {
  import opened Ownership
  import opened Octavia
  import opened RouteModel
  import opened RouteTree
  import opened RoutePlan
  import opened RouteSteps
  import opened RouteDeletion
  import opened GatewayTree
  import opened GatewayDeletion

  datatype Outcome = Failed | Progressing | Ready

  /** What a call leaves behind and what it reports. */
  datatype Result = Result(store: Store, outcome: Outcome)

  datatype GatewaySpec = GatewaySpec(vipSubnet: string, provider: string, externalNetwork: Id, listenerPort: int)

  /** What the cloud decides when a call creates a resource. */
  datatype Choice = Choice(id: Id, vipPort: Id, provider: string)

  datatype Lookup = Conflict | Absent | Found(id: Id)

  // ----- discovery -----

  function ListedLoadBalancers(own: Owner, loadBalancers: map<Id, LoadBalancer>): set<Id>
  {
    set lb | lb in loadBalancers && own.listsLoadBalancer(loadBalancers[lb].tags)
  }

  /** The Gateway's load balancer: at most one may be listed, and it must belong
      to the project and carry exactly the Gateway's identity. */
  ghost function FindLoadBalancer(env: Env, loadBalancers: map<Id, LoadBalancer>): (r: Lookup)
    ensures r.Found? ==> r.id in loadBalancers && env.own.exactGateway(loadBalancers[r.id].tags, LoadBalancerRole)
    ensures r.Absent? <==> ListedLoadBalancers(env.own, loadBalancers) == {}
  {
    var listed := ListedLoadBalancers(env.own, loadBalancers);
    if listed == {} then Absent
    else
      var lb :| lb in listed;
      if listed != {lb} then Conflict
      else if loadBalancers[lb].project != env.project then Conflict
      else if !env.own.exactGateway(loadBalancers[lb].tags, LoadBalancerRole) then Conflict
      else Found(lb)
  }

  method FindGatewayLoadBalancer(env: Env, loadBalancers: map<Id, LoadBalancer>) returns (r: Lookup)
    ensures r == FindLoadBalancer(env, loadBalancers)
  {
    ghost var listed := ListedLoadBalancers(env.own, loadBalancers);
    var items := ListIds(ListedLoadBalancers(env.own, loadBalancers));
    if |items| > 1 {
      assert items[0] in listed && items[1] in listed;
      return Conflict;
    }
    if |items| == 0 {
      return Absent;
    }
    assert listed == {items[0]};
    if loadBalancers[items[0]].project != env.project {
      return Conflict;
    }
    if !env.own.exactGateway(loadBalancers[items[0]].tags, LoadBalancerRole) {
      return Conflict;
    }
    r := Found(items[0]);
  }

  predicate ListenerManaged(env: Env, lb: Id, listener: Listener)
  {
    OptionalProjectOk(env.project, listener.project) &&
    env.own.discoversGateway(listener.tags, ListenerRole) && env.own.exactGateway(listener.tags, ListenerRole) &&
    AllEqual(listener.reported, lb)
  }

  ghost function FindListener(env: Env, listeners: map<Id, Listener>, lb: Id): (r: Lookup)
    ensures r.Found? ==> r.id in ListenersOf(listeners, lb) && ListenersOf(listeners, lb) == {r.id}
    ensures r.Absent? <==> ListenersOf(listeners, lb) == {}
  {
    var items := ListenersOf(listeners, lb);
    if items == {} then Absent
    else
      var l :| l in items;
      if items == {l} && ListenerManaged(env, lb, listeners[l]) then Found(l) else Conflict
  }

  method FindManagedGatewayListener(env: Env, listeners: map<Id, Listener>, lb: Id) returns (r: Lookup)
    ensures r == FindListener(env, listeners, lb)
  {
    var items := ListIds(ListenersOf(listeners, lb));
    r := Absent;
    for i := 0 to |items|
      invariant i == 0 ==> r == Absent
      invariant i == 1 ==> r == Found(items[0]) && ListenerManaged(env, lb, listeners[items[0]])
      invariant i <= 1
    {
      if !ListenerManaged(env, lb, listeners[items[i]]) {
        assert items[i] in ListenersOf(listeners, lb);
        return Conflict;
      }
      if r.Found? {
        assert items[0] in ListenersOf(listeners, lb) && items[1] in ListenersOf(listeners, lb);
        return Conflict;
      }
      r := Found(items[i]);
    }
    assert forall l :: l in ListenersOf(listeners, lb) ==> l in items;
    if |items| == 1 {
      assert ListenersOf(listeners, lb) == {items[0]};
    }
  }

  // ----- the Gateway as a route sees it -----

  datatype GatewayView = GatewayBroken | GatewayAbsent | GatewayPending | GatewayReady(site: Site)

  ghost function ViewListener(env: Env, st: Store, lb: Id, requirements: Option<RouteSpec>): GatewayView
  {
    match FindListener(env, st.listeners, lb)
    case Conflict => GatewayBroken
    case Absent => if requirements.Some? then GatewayPending else GatewayReady(Site(lb, ""))
    case Found(l) =>
      if st.listeners[l].protocol != HTTP then GatewayBroken
      else if requirements.Some? && st.listeners[l].port != requirements.value.listenerPort then GatewayBroken
      else GatewayReady(Site(lb, l))
  }

  /** With requirements, the immutable fields must match and a listener must exist. */
  ghost function ViewGateway(env: Env, st: Store, requirements: Option<RouteSpec>): GatewayView
  {
    match FindLoadBalancer(env, st.loadBalancers)
    case Conflict => GatewayBroken
    case Absent => GatewayAbsent
    case Found(lb) =>
      var record := st.loadBalancers[lb];
      if record.status.Broken? then GatewayBroken
      else if record.status.Pending? then GatewayPending
      else if requirements.Some? && (record.provider != requirements.value.provider ||
                                     record.vipSubnet != requirements.value.vipSubnet) then GatewayBroken
      else ViewListener(env, st, lb, requirements)
  }

  method ObserveRouteGateway(env: Env, st: Store, requirements: Option<RouteSpec>) returns (r: GatewayView)
    ensures r == ViewGateway(env, st, requirements)
  {
    var found := FindGatewayLoadBalancer(env, st.loadBalancers);
    if found.Conflict? {
      return GatewayBroken;
    }
    if found.Absent? {
      return GatewayAbsent;
    }
    var lb := found.id;
    var record := st.loadBalancers[lb];
    if record.status.Broken? {
      return GatewayBroken;
    }
    if record.status.Pending? {
      return GatewayPending;
    }
    if requirements.Some? &&
       (record.provider != requirements.value.provider || record.vipSubnet != requirements.value.vipSubnet) {
      return GatewayBroken;
    }
    var listener := FindManagedGatewayListener(env, st.listeners, lb);
    if listener.Conflict? {
      return GatewayBroken;
    }
    if listener.Absent? {
      return if requirements.Some? then GatewayPending else GatewayReady(Site(lb, ""));
    }
    if st.listeners[listener.id].protocol != HTTP {
      return GatewayBroken;
    }
    if requirements.Some? && st.listeners[listener.id].port != requirements.value.listenerPort {
      return GatewayBroken;
    }
    r := GatewayReady(Site(lb, listener.id));
  }

  // ----- Floating IPs -----

  predicate FloatingIPTrusted(env: Env, port: Id, f: FloatingIP)
  {
    FloatingIPOwned(env, f) && (f.reported == "" || f.reported == port)
  }

  ghost predicate FloatingIPsTrusted(env: Env, floatingIPs: map<Id, FloatingIP>, port: Id)
  {
    forall f :: f in FloatingIPsOf(floatingIPs, port) ==> FloatingIPTrusted(env, port, floatingIPs[f])
  }

  method ListGatewayFloatingIPs(env: Env, floatingIPs: map<Id, FloatingIP>, port: Id) returns (r: Option<seq<Id>>)
    ensures r.Some? <==> FloatingIPsTrusted(env, floatingIPs, port)
    ensures r.Some? ==> r.value == SortedIds(FloatingIPsOf(floatingIPs, port))
  {
    var items := ListIds(FloatingIPsOf(floatingIPs, port));
    for i := 0 to |items|
      invariant forall j :: 0 <= j < i ==> FloatingIPTrusted(env, port, floatingIPs[items[j]])
    {
      if !FloatingIPTrusted(env, port, floatingIPs[items[i]]) {
        return None;
      }
    }
    assert forall f :: f in FloatingIPsOf(floatingIPs, port) ==> f in items;
    r := Some(items);
  }

  /** The Floating IP state a Gateway requires: one on the external network when
      one is configured, otherwise none. */
  ghost predicate FloatingIPsAsRequired(floatingIPs: map<Id, FloatingIP>, port: Id, network: Id)
  {
    if network == "" then FloatingIPsOf(floatingIPs, port) == {}
    else exists f :: FloatingIPsOf(floatingIPs, port) == {f} && floatingIPs[f].network == network
  }

  datatype FloatingIPState = Unusable | Missing | Superfluous(first: Id) | AsRequired

  ghost function FloatingIPStateOf(env: Env, floatingIPs: map<Id, FloatingIP>, port: Id, network: Id): (r: FloatingIPState)
    ensures r == AsRequired ==>
              FloatingIPsTrusted(env, floatingIPs, port) && FloatingIPsAsRequired(floatingIPs, port, network)
    ensures r.Superfluous? ==>
              FloatingIPsTrusted(env, floatingIPs, port) && r.first in FloatingIPsOf(floatingIPs, port)
  {
    var items := FloatingIPsOf(floatingIPs, port);
    if !FloatingIPsTrusted(env, floatingIPs, port) then Unusable
    else if network == "" then (if items == {} then AsRequired else Superfluous(SortedIds(items)[0]))
    else if items == {} then Missing
    else
      var f :| f in items;
      if items == {f} && floatingIPs[f].network == network then AsRequired else Unusable
  }

  method ObserveFloatingIPs(env: Env, floatingIPs: map<Id, FloatingIP>, port: Id, network: Id) returns (r: FloatingIPState)
    ensures r == FloatingIPStateOf(env, floatingIPs, port, network)
  {
    hide FloatingIPsTrusted;
    var listing := ListGatewayFloatingIPs(env, floatingIPs, port);
    if listing.None? {
      return Unusable;
    }
    var items := listing.value;
    if network == "" {
      return if |items| == 0 then AsRequired else Superfluous(items[0]);
    }
    if |items| == 0 {
      return Missing;
    }
    if |items| > 1 {
      assert items[0] in FloatingIPsOf(floatingIPs, port) && items[1] in FloatingIPsOf(floatingIPs, port);
      return Unusable;
    }
    assert FloatingIPsOf(floatingIPs, port) == {items[0]};
    if floatingIPs[items[0]].network != network {
      return Unusable;
    }
    r := AsRequired;
  }

  // ----- single writes on Gateway resources -----

  function EnableListener(st: Store, l: Id): Store
    requires l in st.listeners
  {
    st.(listeners := st.listeners[l := st.listeners[l].(up := true)])
  }

  function EnableLoadBalancer(st: Store, lb: Id): Store
    requires lb in st.loadBalancers
  {
    st.(loadBalancers := st.loadBalancers[lb := st.loadBalancers[lb].(up := true)])
  }

  function NewLoadBalancer(env: Env, spec: GatewaySpec, choice: Choice): LoadBalancer
  {
    LoadBalancer(env.project, env.own.gatewayTags(LoadBalancerRole),
                 if spec.provider == "" then choice.provider else spec.provider,
                 spec.vipSubnet, choice.vipPort, Pending("PENDING_CREATE"), true)
  }

  function NewListener(env: Env, spec: GatewaySpec, lb: Id): Listener
  {
    Listener(lb, [lb], env.project, env.own.gatewayTags(ListenerRole), HTTP, spec.listenerPort, true)
  }

  function NewFloatingIP(env: Env, port: Id, network: Id): FloatingIP
  {
    FloatingIP(port, port, env.project, env.project, env.own.description, network)
  }

  /** What the cloud does by itself: a load balancer becomes pending, active or
      broken. */
  function WithStatus(st: Store, lb: Id, status: Status): Store
    requires lb in st.loadBalancers
  {
    st.(loadBalancers := st.loadBalancers[lb := st.loadBalancers[lb].(status := status)])
  }

  /** A call can write only while the load balancer is active. */
  predicate Acts(st: Store, lb: Id)
  {
    lb in st.loadBalancers && st.loadBalancers[lb].status.Active?
  }

  /** The store as it is once the load balancer is active again. */
  function Rested(st: Store, lb: Id): (r: Store)
    requires lb in st.loadBalancers
    ensures Acts(st, lb) ==> r == st
  {
    WithStatus(st, lb, Active)
  }

  lemma StatusKeepsFound(env: Env, st: Store, lb: Id, status: Status)
    requires lb in st.loadBalancers
    ensures FindLoadBalancer(env, WithStatus(st, lb, status).loadBalancers) == Found(lb) <==>
            FindLoadBalancer(env, st.loadBalancers) == Found(lb)
  {
    assert ListedLoadBalancers(env.own, WithStatus(st, lb, status).loadBalancers) == ListedLoadBalancers(env.own, st.loadBalancers);
  }

  // ----- the four operations -----

  ghost function RepairAdminState(env: Env, spec: RouteSpec, st: Store, site: Site): Result
    requires site.loadBalancer in st.loadBalancers && site.listener in st.listeners
  {
    if st.listeners[site.listener].up && st.loadBalancers[site.loadBalancer].up then Result(st, Ready)
    else
      match FloatingIPStateOf(env, st.floatingIPs, st.loadBalancers[site.loadBalancer].vipPort, spec.externalNetwork)
      case Unusable => Result(st, Failed)
      case Missing => Result(st, Progressing)
      case Superfluous(_) => Result(st, Progressing)
      case AsRequired =>
        if !st.listeners[site.listener].up then Result(EnableListener(st, site.listener), Progressing)
        else Result(EnableLoadBalancer(st, site.loadBalancer), Progressing)
  }

  predicate GatewayIdsMatch(spec: RouteSpec, site: Site)
  {
    (spec.gatewayLoadBalancer == "" || spec.gatewayLoadBalancer == site.loadBalancer) &&
    (spec.gatewayListener == "" || spec.gatewayListener == site.listener)
  }

  ghost function EnsureRouteAt(env: Env, d: Desired, st: Store, site: Site, id: Id): Result
    requires site.loadBalancer in st.loadBalancers && site.listener in st.listeners
  {
    var graph := Observe(env, st, site);
    if graph.None? then Result(st, Failed)
    else
      var plan := EnsurePlan(env.net, d, graph.value);
      if plan.None? then Result(st, Failed)
      else if plan.value == [] then RepairAdminState(env, d.spec, st, site)
      else Result(Execute(env, d, site, st, plan.value[0], id), Progressing)
  }

  ghost function EnsureRouteResult(env: Env, spec: RouteSpec, st: Store, id: Id): Result
  {
    var d := DesiredFor(env.net, spec);
    if d.None? then Result(st, Failed)
    else
      match ViewGateway(env, st, Some(spec))
      case GatewayBroken => Result(st, Failed)
      case GatewayAbsent => Result(st, Progressing)
      case GatewayPending => Result(st, Progressing)
      case GatewayReady(site) =>
        ReadySite(env, st, spec, site);
        if !GatewayIdsMatch(spec, site) then Result(st, Failed) else EnsureRouteAt(env, d.value, st, site, id)
  }

  ghost function DeleteRouteResult(env: Env, st: Store): Result
  {
    match ViewGateway(env, st, None)
    case GatewayBroken => Result(st, Failed)
    case GatewayAbsent => Result(st, Ready)
    case GatewayPending => Result(st, Progressing)
    case GatewayReady(site) =>
      if !TreeOk(env, st, site) then Result(st, Failed)
      else if DeletionPlan(GraphOf(env, st, site)) == [] then Result(st, Ready)
      else Result(DeleteStep(env, site, st), Progressing)
  }

  ghost function DeleteGatewayResult(env: Env, st: Store): Result
  {
    match FindLoadBalancer(env, st.loadBalancers)
    case Conflict => Result(st, Failed)
    case Absent => Result(st, Ready)
    case Found(lb) =>
      if st.loadBalancers[lb].status.Broken? then Result(st, Failed)
      else if st.loadBalancers[lb].status.Pending? then Result(st, Progressing)
      else if !Deletable(env, st, lb) then Result(st, Failed)
      else Result(Remove(st, FullPlan(st, lb)[0]), Progressing)
  }

  ghost predicate HasRouteResources(st: Store, lb: Id)
  {
    PlansFor(st, lb).HasRouteResources()
  }

  /** Listener and load balancer, once the Floating IP is as required. Existing
      route resources forbid enabling either here. */
  ghost function EnsureGatewayAdmin(env: Env, spec: GatewaySpec, st: Store, lb: Id, listener: Lookup, choice: Choice): Result
    requires lb in st.loadBalancers && (listener.Found? ==> listener.id in st.listeners)
  {
    if !listener.Found? then
      Result(st.(listeners := st.listeners[choice.id := NewListener(env, spec, lb)]), Progressing)
    else if !st.listeners[listener.id].up then
      (if HasRouteResources(st, lb) then Result(st, Progressing) else Result(EnableListener(st, listener.id), Progressing))
    else if !st.loadBalancers[lb].up then
      (if HasRouteResources(st, lb) then Result(st, Progressing) else Result(EnableLoadBalancer(st, lb), Progressing))
    else Result(st, Ready)
  }

  ghost function EnsureGatewayAt(env: Env, spec: GatewaySpec, st: Store, lb: Id, choice: Choice): Result
    requires lb in st.loadBalancers
  {
    var listener := FindListener(env, st.listeners, lb);
    var port := st.loadBalancers[lb].vipPort;
    if !GatewayTreeOk(env, st, lb) || listener.Conflict? then Result(st, Failed)
    else if listener.Found? &&
            (st.listeners[listener.id].protocol != HTTP || st.listeners[listener.id].port != spec.listenerPort) then
      Result(st, Failed)
    else
      match FloatingIPStateOf(env, st.floatingIPs, port, spec.externalNetwork)
      case Unusable => Result(st, Failed)
      case Missing =>
        Result(st.(floatingIPs := st.floatingIPs[choice.id := NewFloatingIP(env, port, spec.externalNetwork)]), Progressing)
      case Superfluous(f) => Result(st.(floatingIPs := st.floatingIPs - {f}), Progressing)
      case AsRequired => EnsureGatewayAdmin(env, spec, st, lb, listener, choice)
  }

  ghost function EnsureGatewayResult(env: Env, spec: GatewaySpec, st: Store, choice: Choice): Result
  {
    if Blank(spec.vipSubnet) || !PortOk(spec.listenerPort) then Result(st, Failed)
    else
      match FindLoadBalancer(env, st.loadBalancers)
      case Conflict => Result(st, Failed)
      case Absent =>
        Result(st.(loadBalancers := st.loadBalancers[choice.id := NewLoadBalancer(env, spec, choice)]), Progressing)
      case Found(lb) =>
        var record := st.loadBalancers[lb];
        if record.vipSubnet != spec.vipSubnet || (spec.provider != "" && record.provider != spec.provider) then
          Result(st, Failed)
        else if record.status.Broken? then Result(st, Failed)
        else if record.status.Pending? then Result(st, Progressing)
        else EnsureGatewayAt(env, spec, st, lb, choice)
  }

  /** The provider acting for one identity on the shared store. */
  class Provider {
    const env: Env
    var store: Store

    constructor (env: Env, store: Store)
      ensures this.env == env && this.store == store
    {
      this.env := env;
      this.store := store;
    }

    method ExecuteRouteMutation(d: Desired, site: Site, m: Mutation, id: Id)
      modifies this`store
      ensures store == Execute(env, d, site, old(store), m, id)
    {
      store := Execute(env, d, site, store, m, id);
    }

    method RepairRouteGatewayAdminState(spec: RouteSpec, site: Site) returns (outcome: Outcome)
      requires site.loadBalancer in store.loadBalancers && site.listener in store.listeners
      modifies this`store
      ensures Result(store, outcome) == RepairAdminState(env, spec, old(store), site)
    {
      if store.listeners[site.listener].up && store.loadBalancers[site.loadBalancer].up {
        return Ready;
      }
      var port := store.loadBalancers[site.loadBalancer].vipPort;
      var state := ObserveFloatingIPs(env, store.floatingIPs, port, spec.externalNetwork);
      if state.Unusable? {
        return Failed;
      }
      if state != AsRequired {
        return Progressing;
      }
      if !store.listeners[site.listener].up {
        store := EnableListener(store, site.listener);
        return Progressing;
      }
      store := EnableLoadBalancer(store, site.loadBalancer);
      outcome := Progressing;
    }

    method EnsureRoute(spec: RouteSpec, id: Id) returns (outcome: Outcome)
      modifies this`store
      ensures Result(store, outcome) == EnsureRouteResult(env, spec, old(store), id)
    {
      hide Observe, EnsurePlan, Execute, RepairAdminState, DesiredFor, FindLoadBalancer, FindListener;
      var desired := BuildDesiredRoute(env.net, spec);
      if desired.None? {
        return Failed;
      }
      DesiredSpec(env.net, spec, desired.value);
      var gateway := ObserveRouteGateway(env, store, Some(spec));
      if gateway.GatewayBroken? {
        return Failed;
      }
      if !gateway.GatewayReady? {
        return Progressing;
      }
      var site := gateway.site;
      ReadySite(env, store, spec, site);
      if !GatewayIdsMatch(spec, site) {
        return Failed;
      }
      var actual := ObserveRouteGraph(env, store, site);
      if actual.None? {
        return Failed;
      }
      var plan := BuildRouteEnsurePlan(env.net, desired.value, actual.value);
      if plan.None? {
        return Failed;
      }
      if plan.value == [] {
        outcome := RepairRouteGatewayAdminState(spec, site);
        return;
      }
      ExecuteRouteMutation(desired.value, site, plan.value[0], id);
      outcome := Progressing;
    }

    method DeleteRoute() returns (outcome: Outcome)
      modifies this`store
      ensures Result(store, outcome) == DeleteRouteResult(env, old(store))
    {
      hide FindLoadBalancer, FindListener, TreeOk, GraphOf, DeletionPlan, Execute;
      var gateway := ObserveRouteGateway(env, store, None);
      if gateway.GatewayBroken? {
        return Failed;
      }
      if gateway.GatewayAbsent? {
        return Ready;
      }
      if gateway.GatewayPending? {
        return Progressing;
      }
      var actual := ObserveRouteGraph(env, store, gateway.site);
      if actual.None? {
        return Failed;
      }
      var plan := BuildRouteDeletionPlan(actual.value);
      if plan == [] {
        return Ready;
      }
      ExecuteRouteMutation(NO_ROUTE, gateway.site, plan[0], "");
      outcome := Progressing;
    }

    method DeleteGateway() returns (outcome: Outcome)
      modifies this`store
      ensures Result(store, outcome) == DeleteGatewayResult(env, old(store))
    {
      hide PlansFor, GatewayTreeOk, FindLoadBalancer;
      var found := FindGatewayLoadBalancer(env, store.loadBalancers);
      if found.Conflict? {
        return Failed;
      }
      if found.Absent? {
        return Ready;
      }
      var lb := store.loadBalancers[found.id];
      if lb.status.Broken? {
        return Failed;
      }
      if lb.status.Pending? {
        return Progressing;
      }
      var plans := BuildGatewayDeletionPlan(env, store, found.id);
      if plans.None? {
        return Failed;
      }
      var floatingIPs := ListOwnedFloatingIPs(env, store.floatingIPs, lb.vipPort);
      if floatingIPs.None? {
        return Failed;
      }
      var steps := plans.value.OrderedSteps();
      ghost var full := FullPlan(store, found.id);
      if steps != [] {
        assert full[0] == steps[0];
        store := Remove(store, steps[0]);
        return Progressing;
      }
      if floatingIPs.value != [] {
        assert full[0] == RemoveFloatingIP(floatingIPs.value[0]);
        store := Remove(store, RemoveFloatingIP(floatingIPs.value[0]));
        return Progressing;
      }
      assert full[0] == RemoveLoadBalancer(found.id);
      store := Remove(store, RemoveLoadBalancer(found.id));
      outcome := Progressing;
    }

    method EnsureGateway(spec: GatewaySpec, choice: Choice) returns (outcome: Outcome)
      modifies this`store
      ensures Result(store, outcome) == EnsureGatewayResult(env, spec, old(store), choice)
    {
      hide PlansFor, GatewayTreeOk, FindLoadBalancer, FindListener, FloatingIPStateOf;
      if Blank(spec.vipSubnet) || !PortOk(spec.listenerPort) {
        return Failed;
      }
      var found := FindGatewayLoadBalancer(env, store.loadBalancers);
      if found.Conflict? {
        return Failed;
      }
      if found.Absent? {
        store := store.(loadBalancers := store.loadBalancers[choice.id := NewLoadBalancer(env, spec, choice)]);
        return Progressing;
      }
      var lb := store.loadBalancers[found.id];
      if lb.vipSubnet != spec.vipSubnet || (spec.provider != "" && lb.provider != spec.provider) || lb.status.Broken? {
        return Failed;
      }
      if lb.status.Pending? {
        return Progressing;
      }
      outcome := EnsureGatewayResources(spec, found.id, choice);
    }

    method EnsureGatewayResources(spec: GatewaySpec, lb: Id, choice: Choice) returns (outcome: Outcome)
      requires lb in store.loadBalancers
      modifies this`store
      ensures Result(store, outcome) == EnsureGatewayAt(env, spec, old(store), lb, choice)
    {
      hide PlansFor, GatewayTreeOk, FindListener, FloatingIPStateOf;
      var port := store.loadBalancers[lb].vipPort;
      var plans := BuildGatewayDeletionPlan(env, store, lb);
      if plans.None? {
        return Failed;
      }
      var listener := FindManagedGatewayListener(env, store.listeners, lb);
      if listener.Conflict? {
        return Failed;
      }
      if listener.Found? &&
         (store.listeners[listener.id].protocol != HTTP || store.listeners[listener.id].port != spec.listenerPort) {
        return Failed;
      }
      var state := ObserveFloatingIPs(env, store.floatingIPs, port, spec.externalNetwork);
      match state {
        case Unusable => return Failed;
        case Missing =>
          store := store.(floatingIPs := store.floatingIPs[choice.id := NewFloatingIP(env, port, spec.externalNetwork)]);
          return Progressing;
        case Superfluous(f) =>
          store := store.(floatingIPs := store.floatingIPs - {f});
          return Progressing;
        case AsRequired =>
      }
      outcome := EnsureListenerAndAdmin(spec, lb, listener, plans.value.HasRouteResources(), choice);
    }

    method EnsureListenerAndAdmin(spec: GatewaySpec, lb: Id, listener: Lookup, hasRouteResources: bool, choice: Choice)
      returns (outcome: Outcome)
      requires lb in store.loadBalancers && (listener.Found? ==> listener.id in store.listeners)
      requires hasRouteResources == HasRouteResources(store, lb)
      modifies this`store
      ensures Result(store, outcome) == EnsureGatewayAdmin(env, spec, old(store), lb, listener, choice)
    {
      if !listener.Found? {
        store := store.(listeners := store.listeners[choice.id := NewListener(env, spec, lb)]);
        return Progressing;
      }
      if !store.listeners[listener.id].up {
        if !hasRouteResources {
          store := EnableListener(store, listener.id);
        }
        return Progressing;
      }
      if !store.loadBalancers[lb].up {
        if !hasRouteResources {
          store := EnableLoadBalancer(store, lb);
        }
        return Progressing;
      }
      outcome := Ready;
    }
  }

  lemma DesiredSpec(net: Net, spec: RouteSpec, d: Desired)
    requires DesiredFor(net, spec) == Some(d)
    ensures d.spec == spec
  {
  }

  /** A ready Gateway with requirements names an existing load balancer and listener. */
  lemma ReadySite(env: Env, st: Store, spec: RouteSpec, site: Site)
    requires ViewGateway(env, st, Some(spec)) == GatewayReady(site)
    ensures site.loadBalancer in st.loadBalancers && site.listener in st.listeners
  {
  }

  method ListOwnedFloatingIPs(env: Env, floatingIPs: map<Id, FloatingIP>, port: Id) returns (r: Option<seq<Id>>)
    ensures r.Some? <==> FloatingIPsOwned(env, floatingIPs, port)
    ensures r.Some? ==> r.value == SortedIds(FloatingIPsOf(floatingIPs, port))
  {
    var items := ListIds(FloatingIPsOf(floatingIPs, port));
    for i := 0 to |items|
      invariant forall j :: 0 <= j < i ==> FloatingIPOwned(env, floatingIPs[items[j]])
    {
      if !FloatingIPOwned(env, floatingIPs[items[i]]) {
        return None;
      }
    }
    assert forall f :: f in FloatingIPsOf(floatingIPs, port) ==> f in items;
    r := Some(items);
  }
}
