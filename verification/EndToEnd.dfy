/** From an empty cloud to traffic: EnsureGateway and EnsureRoute calls in any
    order, on a load balancer whose status may change between them. */
module EndToEnd {
  import opened Ownership
  import opened Octavia
  import opened RouteModel
  import opened RouteTree
  import opened RouteProgress
  import opened RouteConvergence
  import opened RouteTraffic
  import opened Provider
  import opened GatewayTree
  import opened AdminGating
  import Isolation
  import RouteService
  import GatewayService
  import Kube
  import OwnershipTags

  /** One Gateway and one route, as the controllers ask for them. */
  datatype Wanted = Wanted(env: Env, gateway: GatewaySpec, route: RouteSpec)

  /** Both specifications come from one configuration and one listener. */
  ghost predicate Fitting(w: Wanted)
  {
    LawfulOwner(w.env.own) && LawfulNet(w.env.net) && GatewayService.SpecValid(w.gateway) && DesiredFor(w.env.net, w.route).Some? &&
    w.gateway.provider != "" && w.route.provider == w.gateway.provider && w.route.vipSubnet == w.gateway.vipSubnet &&
    w.route.externalNetwork == w.gateway.externalNetwork && w.route.listenerPort == w.gateway.listenerPort &&
    w.route.gatewayLoadBalancer == "" && w.route.gatewayListener == ""
  }

  datatype Event = GatewayCall(choice: Choice) | RouteCall(id: Id) | Becomes(status: Status)

  ghost function After(w: Wanted, st: Store, event: Event): Store
  {
    match event
    case GatewayCall(choice) => EnsureGatewayResult(w.env, w.gateway, st, choice).store
    case RouteCall(id) => EnsureRouteResult(w.env, w.route, st, id).store
    case Becomes(status) =>
      var found := FindLoadBalancer(w.env, st.loadBalancers);
      if found.Found? then WithStatus(st, found.id, status) else st
  }

  /** New resources get unused IDs, and the virtual IP port of a new load balancer
      has no Floating IP yet. */
  ghost predicate EventFresh(w: Wanted, st: Store, event: Event)
  {
    match event
    case GatewayCall(choice) =>
      Fresh(st, choice.id) &&
      (FindLoadBalancer(w.env, st.loadBalancers).Absent? ==> FloatingIPsOf(st.floatingIPs, choice.vipPort) == {})
    case RouteCall(id) => Fresh(st, id)
    case Becomes(_) => true
  }

  /** No load balancer keeps the calls waiting. */
  ghost predicate Open(w: Wanted, st: Store)
  {
    var found := FindLoadBalancer(w.env, st.loadBalancers);
    found.Found? ==> Acts(st, found.id)
  }

  // ----- the stages -----

  ghost predicate Nothing(w: Wanted, st: Store)
  {
    FindLoadBalancer(w.env, st.loadBalancers) == Absent && "" !in st.listeners
  }

  /** A load balancer without a listener; its Floating IP is missing or in place. */
  ghost predicate Building(w: Wanted, st: Store, lb: Id)
  {
    GatewayService.Awaiting(w.env, w.gateway, st, lb) && FindListener(w.env, st.listeners, lb) == Absent &&
    "" !in st.listeners && st.loadBalancers[lb].up &&
    GatewayService.FloatingIPs(w.env, w.gateway, st, lb) in {Missing, AsRequired}
  }

  ghost function RouteBound(w: Wanted): nat
    requires DesiredFor(w.env.net, w.route).Some?
  {
    |ByKey(w.env.net, DesiredFor(w.env.net, w.route).value.members)| + 43
  }

  ghost function RouteLeft(w: Wanted, st: Store, site: Site): nat
    requires DesiredFor(w.env.net, w.route).Some?
  {
    RouteService.CallsLeft(w.env, DesiredFor(w.env.net, w.route).value, st, site)
  }

  /** The Gateway is complete and switched on; only the route may be unfinished. */
  ghost predicate Serving(w: Wanted, st: Store, site: Site)
  {
    RouteService.Awaiting(w.env, w.route, st, site) && RouteService.Up(st, site) && RouteLeft(w, st, site) <= RouteBound(w)
  }

  ghost predicate Reachable(w: Wanted, st: Store)
  {
    Nothing(w, st) || (exists lb :: Building(w, st, lb)) || (exists site :: Serving(w, st, site))
  }

  /** Acting EnsureGateway calls until the Gateway is complete. */
  ghost function GatewayLeft(w: Wanted, st: Store): nat
  {
    match FindLoadBalancer(w.env, st.loadBalancers)
    case Conflict => 0
    case Absent => if w.gateway.externalNetwork == "" then 2 else 3
    case Found(lb) =>
      if FindListener(w.env, st.listeners, lb).Found? then 0
      else if GatewayService.FloatingIPs(w.env, w.gateway, st, lb) == AsRequired then 1
      else 2
  }

  // ----- creating the load balancer -----

  lemma NewPortState(env: Env, floatingIPs: map<Id, FloatingIP>, port: Id, network: Id)
    requires FloatingIPsOf(floatingIPs, port) == {}
    ensures FloatingIPStateOf(env, floatingIPs, port, network) == if network == "" then AsRequired else Missing
  {
  }

  lemma CreateStep(w: Wanted, st: Store, choice: Choice)
    requires Fitting(w) && Nothing(w, st) && EventFresh(w, st, GatewayCall(choice))
    ensures var st' := After(w, st, GatewayCall(choice));
            Building(w, st', choice.id) && GatewayLeft(w, st') == GatewayLeft(w, st) - 1
  {
    hide FindLoadBalancer, FindListener, FloatingIPStateOf, DesiredFor, LawfulNet, GatewayService.SpecValid, GatewayTreeOk,
         NothingBeneath, GatewayService.ListenerUsable;
    GatewayService.CreatedLoadBalancer(w.env, w.gateway, st, choice);
    NewPortState(w.env, st.floatingIPs, choice.vipPort, w.gateway.externalNetwork);
    NoListenerYet(w.env, st, choice.id);
    ValidIsNotRefused(w.gateway);
  }

  lemma ValidIsNotRefused(spec: GatewaySpec)
    ensures GatewayService.SpecValid(spec) <==> !Blank(spec.vipSubnet) && PortOk(spec.listenerPort)
  {
  }

  lemma NoListenerYet(env: Env, st: Store, id: Id)
    requires Fresh(st, id)
    ensures FindListener(env, st.listeners, id) == Absent
  {
    assert ListenersOf(st.listeners, id) == {};
  }

  // ----- the Floating IP and the listener -----

  /** On an active load balancer in place, the call goes on to the load balancer. */
  lemma CallGoesOn(env: Env, spec: GatewaySpec, st: Store, lb: Id, choice: Choice)
    requires GatewayService.InPlace(env, spec, st, lb)
    ensures lb in st.loadBalancers && EnsureGatewayResult(env, spec, st, choice) == EnsureGatewayAt(env, spec, st, lb, choice)
  {
    hide FindLoadBalancer, FindListener, GatewayTreeOk, Blank, EnsureGatewayAt;
  }

  lemma AllocateStep(w: Wanted, st: Store, lb: Id, choice: Choice)
    requires Fitting(w) && Building(w, st, lb) && Acts(st, lb) && Fresh(st, choice.id)
    requires GatewayService.FloatingIPs(w.env, w.gateway, st, lb) == Missing
    ensures var st' := After(w, st, GatewayCall(choice));
            Building(w, st', lb) && GatewayService.FloatingIPs(w.env, w.gateway, st', lb) == AsRequired
  {
    hide FindLoadBalancer, FindListener, FloatingIPStateOf, DesiredFor, LawfulNet, GatewayService.SpecValid, GatewayTreeOk,
         NothingBeneath, GatewayService.ListenerUsable, EnsureGatewayResult, NewFloatingIP, LawfulGatewayOwner,
         GatewayService.GatewayRemaining;
    var port, network := st.loadBalancers[lb].vipPort, w.gateway.externalNetwork;
    assert choice.id !in st.floatingIPs;
    hide Fresh;
    CallGoesOn(w.env, w.gateway, st, lb, choice);
    GatewayService.FloatingIPStep(w.env, w.gateway, st, lb, choice);
    GatewayService.StateKinds(w.env, st.floatingIPs, port, network);
    GatewayService.NewFloatingIPAsRequired(w.env, st.floatingIPs, port, network, choice.id);
    assert After(w, st, GatewayCall(choice)) ==
      st.(floatingIPs := st.floatingIPs[choice.id := NewFloatingIP(w.env, port, network)]);
  }

  lemma EmptyTreeServiceable(w: Wanted, st: Store, lb: Id, l: Id)
    requires Fitting(w) && GatewayService.InPlace(w.env, w.gateway, st, lb) && NothingBeneath(st, lb)
    requires FindListener(w.env, st.listeners, lb) == Found(l) && "" !in st.listeners
    ensures RouteService.Serviceable(w.env, w.route, st, Site(lb, l))
  {
    hide FindLoadBalancer, FindListener, DesiredFor, LawfulNet, LawfulOwner, GatewayTreeOk, Blank;
    assert l in ListenersOf(st.listeners, lb);
    assert PoliciesOf(st.policies, l) == {} && PoolsOf(st.pools, lb) == {};
  }

  lemma EnterServing(w: Wanted, st: Store, lb: Id, l: Id)
    requires Fitting(w) && GatewayService.Provisionable(w.env, w.gateway, st, lb) && lb in st.loadBalancers
    requires FindListener(w.env, st.listeners, lb) == Found(l) && l in st.listeners && "" !in st.listeners
    requires st.listeners[l].up && st.loadBalancers[lb].up
    requires GatewayService.FloatingIPs(w.env, w.gateway, st, lb) == AsRequired
    ensures Serving(w, st, Site(lb, l))
  {
    hide FindLoadBalancer, FindListener, FloatingIPStateOf, DesiredFor, LawfulNet, LawfulOwner, GatewayTreeOk,
         RouteService.Serviceable, Converged, Measure, GatewayService.ListenerUsable;
    var site, d := Site(lb, l), DesiredFor(w.env.net, w.route).value;
    EmptyTreeServiceable(w, st, lb, l);
    DistanceBound(w.env, d, st, site);
    assert Acts(st, lb) && Rested(st, lb) == st;
  }

  lemma ListenStep(w: Wanted, st: Store, lb: Id, choice: Choice)
    requires Fitting(w) && Building(w, st, lb) && Acts(st, lb) && Fresh(st, choice.id)
    requires GatewayService.FloatingIPs(w.env, w.gateway, st, lb) == AsRequired
    ensures Serving(w, After(w, st, GatewayCall(choice)), Site(lb, choice.id))
  {
    hide FindLoadBalancer, FindListener, FloatingIPStateOf, DesiredFor, LawfulNet, GatewayService.SpecValid,
         NothingBeneath, GatewayService.ListenerUsable, EnsureGatewayResult, LawfulGatewayOwner,
         GatewayService.GatewayRemaining, Serving;
    assert choice.id != "" && choice.id !in st.listeners;
    hide Fresh;
    CallGoesOn(w.env, w.gateway, st, lb, choice);
    GatewayService.NewListenerStep(w.env, w.gateway, st, lb, choice);
    GatewayService.NewListenerFound(w.env, w.gateway, st.listeners, lb, choice.id);
    var st' := After(w, st, GatewayCall(choice));
    assert st' == st.(listeners := st.listeners[choice.id := NewListener(w.env, w.gateway, lb)]);
    EnterServing(w, st', lb, choice.id);
  }

  // ----- what changes nothing -----

  lemma BuildingFound(w: Wanted, st: Store, lb: Id)
    requires Building(w, st, lb)
    ensures FindLoadBalancer(w.env, st.loadBalancers) == Found(lb)
  {
    hide FindLoadBalancer, FindListener, FloatingIPStateOf, GatewayTreeOk, NothingBeneath, Blank;
    StatusKeepsFound(w.env, st, lb, Active);
  }

  lemma ServingFound(w: Wanted, st: Store, site: Site)
    requires Serving(w, st, site)
    ensures FindLoadBalancer(w.env, st.loadBalancers) == Found(site.loadBalancer)
    ensures FindListener(w.env, st.listeners, site.loadBalancer) == Found(site.listener)
  {
    hide FindLoadBalancer, FindListener, FloatingIPStateOf, DesiredFor, TreeOk, ProtocolsOk, Converged, Measure, RouteBound;
    StatusKeepsFound(w.env, st, site.loadBalancer, Active);
  }

  /** A route call before the listener exists changes nothing. */
  lemma RouteWaits(w: Wanted, st: Store, id: Id)
    requires Nothing(w, st) || exists lb :: Building(w, st, lb)
    ensures After(w, st, RouteCall(id)) == st
  {
    hide FindLoadBalancer, FindListener, DesiredFor, EnsureRouteAt, Building;
    if lb :| Building(w, st, lb) {
      BuildingFound(w, st, lb);
      NoListenerWhileBuilding(w, st, lb);
    }
  }

  lemma NoListenerWhileBuilding(w: Wanted, st: Store, lb: Id)
    requires Building(w, st, lb)
    ensures FindListener(w.env, st.listeners, lb) == Absent
  {
  }

  /** A Gateway call after the listener exists changes nothing. */
  lemma CompleteGatewayReady(w: Wanted, st: Store, site: Site, choice: Choice)
    requires Fitting(w) && Serving(w, st, site) && Acts(st, site.loadBalancer)
    ensures EnsureGatewayResult(w.env, w.gateway, st, choice) == Result(st, Ready)
  {
    hide FindLoadBalancer, FindListener, FloatingIPStateOf, DesiredFor, GatewayService.SpecValid, LawfulOwner, LawfulNet,
         EnsureGatewayResult, GatewayTreeOk, TreeOk, ProtocolsOk, RouteLeft, RouteBound;
    var lb := site.loadBalancer;
    ServingFound(w, st, site);
    ServingTree(w, st, site);
    assert GatewayService.InPlace(w.env, w.gateway, st, lb);
    GatewayService.EnsureGatewayReady(w.env, w.gateway, st, choice);
    Isolation.OnlyProgressWrites(w.env, Isolation.EnsureGatewayOp(w.gateway, choice), st);
  }

  lemma ServingTree(w: Wanted, st: Store, site: Site)
    requires Fitting(w) && Serving(w, st, site) && Acts(st, site.loadBalancer)
    ensures GatewayTreeOk(w.env, st, site.loadBalancer)
  {
    hide FindLoadBalancer, FloatingIPStateOf, DesiredFor, GatewayService.SpecValid, LawfulOwner, LawfulNet,
         GatewayTreeOk, TreeOk, ProtocolsOk, RouteLeft, RouteBound, ListenerManaged;
    ServingFound(w, st, site);
    RouteTreeIsGatewayTree(w.env, st, site);
  }

  lemma IdleGatewayCall(w: Wanted, st: Store, lb: Id, choice: Choice)
    requires FindLoadBalancer(w.env, st.loadBalancers) == Found(lb) && !Acts(st, lb)
    ensures After(w, st, GatewayCall(choice)) == st
  {
    hide FindLoadBalancer, EnsureGatewayAt, Blank;
  }

  // ----- one event -----

  lemma NothingStep(w: Wanted, st: Store, event: Event)
    requires Fitting(w) && Nothing(w, st) && EventFresh(w, st, event)
    ensures var st' := After(w, st, event);
            if event.GatewayCall? then Building(w, st', event.choice.id) && GatewayLeft(w, st') < GatewayLeft(w, st)
            else st' == st
  {
    hide Fitting, Building, GatewayLeft, EnsureGatewayResult, EnsureRouteResult, FindLoadBalancer;
    match event {
      case GatewayCall(choice) => CreateStep(w, st, choice);
      case RouteCall(id) => RouteWaits(w, st, id);
      case Becomes(_) =>
    }
  }

  lemma BuildingLeft(w: Wanted, st: Store, lb: Id)
    requires Building(w, st, lb)
    ensures GatewayLeft(w, st) == if GatewayService.FloatingIPs(w.env, w.gateway, st, lb) == AsRequired then 1 else 2
  {
    hide FindLoadBalancer, FindListener, FloatingIPStateOf, GatewayService.Awaiting;
    BuildingFound(w, st, lb);
  }

  lemma ServingLeft(w: Wanted, st: Store, site: Site)
    requires Serving(w, st, site)
    ensures GatewayLeft(w, st) == 0
  {
    hide FindLoadBalancer, FindListener, Serving;
    ServingFound(w, st, site);
  }

  lemma BuildingStatus(w: Wanted, st: Store, lb: Id, status: Status)
    requires Building(w, st, lb)
    ensures Building(w, WithStatus(st, lb, status), lb) && GatewayLeft(w, WithStatus(st, lb, status)) == GatewayLeft(w, st)
  {
    hide FindLoadBalancer, FindListener, FloatingIPStateOf, GatewayService.Provisionable;
    var st' := WithStatus(st, lb, status);
    assert Rested(st', lb) == Rested(st, lb);
    assert Building(w, st', lb);
    BuildingLeft(w, st, lb);
    BuildingLeft(w, st', lb);
  }

  /** While the Gateway is being built, an acting Gateway call brings it one step
      further, and nothing else changes how far it is. */
  lemma BuildingStep(w: Wanted, st: Store, lb: Id, event: Event)
    requires Fitting(w) && Building(w, st, lb) && EventFresh(w, st, event)
    ensures var st' := After(w, st, event);
            Reachable(w, st') &&
            if event.GatewayCall? && Acts(st, lb) then GatewayLeft(w, st') < GatewayLeft(w, st)
            else GatewayLeft(w, st') == GatewayLeft(w, st)
  {
    BuildingFound(w, st, lb);
    BuildingLeft(w, st, lb);
    assert GatewayService.FloatingIPs(w.env, w.gateway, st, lb) in {Missing, AsRequired};
    hide Fitting, Building, Serving, GatewayLeft, EnsureGatewayResult, EnsureRouteResult, FindLoadBalancer, Fresh,
         GatewayService.FloatingIPs;
    var st' := After(w, st, event);
    match event {
      case GatewayCall(choice) =>
        if !Acts(st, lb) {
          IdleGatewayCall(w, st, lb, choice);
        } else if GatewayService.FloatingIPs(w.env, w.gateway, st, lb) == Missing {
          AllocateStep(w, st, lb, choice);
          BuildingLeft(w, st', lb);
        } else {
          ListenStep(w, st, lb, choice);
          ServingLeft(w, st', Site(lb, choice.id));
        }
      case RouteCall(id) => RouteWaits(w, st, id);
      case Becomes(status) => BuildingStatus(w, st, lb, status);
    }
  }

  lemma RouteCallKeepsUp(w: Wanted, st: Store, site: Site, id: Id)
    requires Fitting(w) && Serving(w, st, site) && Fresh(st, id)
    ensures RouteService.Up(After(w, st, RouteCall(id)), site)
  {
    hide Fitting, Fresh, EnsureRouteResult, DesiredFor, RouteService.Serviceable, RouteService.FloatingIPsReady, Converged, Measure,
         RouteBound;
    var d := DesiredFor(w.env.net, w.route).value;
    FittingLaws(w);
    if !Acts(st, site.loadBalancer) {
      RouteService.IdleCall(w.env, w.route, st, site, id);
    } else if Converged(w.env, d, st, site) {
      RouteService.NothingLeft(w.env, w.route, st, site);
    } else {
      RouteService.CallMutates(w.env, w.route, st, site, id);
    }
  }

  lemma FittingLaws(w: Wanted)
    requires Fitting(w)
    ensures LawfulOwner(w.env.own) && LawfulNet(w.env.net) && DesiredFor(w.env.net, w.route).Some?
  {
  }

  /** Once the Gateway is complete it stays so, and an acting route call finds
      nothing to do or leaves one call fewer. */
  lemma ServingStep(w: Wanted, st: Store, site: Site, event: Event)
    requires Fitting(w) && Serving(w, st, site) && EventFresh(w, st, event)
    ensures var st' := After(w, st, event);
            Serving(w, st', site) &&
            var left, left' := RouteLeft(w, st, site), RouteLeft(w, st', site);
            if event.RouteCall? && Acts(st, site.loadBalancer) then left' < left || left' == left == 0 else left' == left
  {
    hide Fitting, Fresh, EnsureRouteResult, EnsureGatewayResult, DesiredFor, RouteService.Serviceable, RouteService.FloatingIPsReady,
         RouteService.CallsLeft, RouteBound, FindLoadBalancer;
    var lb, d := site.loadBalancer, DesiredFor(w.env.net, w.route).value;
    FittingLaws(w);
    ServingFound(w, st, site);
    match event {
      case GatewayCall(choice) =>
        if Acts(st, lb) {
          CompleteGatewayReady(w, st, site, choice);
        } else {
          IdleGatewayCall(w, st, lb, choice);
        }
      case RouteCall(id) =>
        RouteService.EventProgress(w.env, w.route, st, site, RouteService.Call(id));
        RouteCallKeepsUp(w, st, site, id);
      case Becomes(status) =>
        RouteService.StatusKeepsAwaiting(w.env, w.route, st, site, status);
        RouteService.StatusIrrelevant(w.env, d, st, site, status);
    }
  }

  /** Every event keeps the run on its way. */
  lemma ReachableStep(w: Wanted, st: Store, event: Event)
    requires Fitting(w) && Reachable(w, st) && EventFresh(w, st, event)
    ensures var st' := After(w, st, event);
            Reachable(w, st') &&
            var left, left' := GatewayLeft(w, st), GatewayLeft(w, st');
            if event.GatewayCall? && Open(w, st) then left' < left || left' == left == 0 else left' == left
  {
    hide Fitting, Building, Serving, GatewayLeft, After, FindLoadBalancer, EventFresh;
    var st' := After(w, st, event);
    if Nothing(w, st) {
      NothingStep(w, st, event);
    } else if lb :| Building(w, st, lb) {
      BuildingFound(w, st, lb);
      BuildingStep(w, st, lb, event);
    } else {
      var site :| Serving(w, st, site);
      ServingStep(w, st, site, event);
      ServingLeft(w, st, site);
      ServingLeft(w, st', site);
    }
  }

  // ----- whole runs -----

  ghost function Run(w: Wanted, st: Store, events: seq<Event>): Store
    decreases |events|
  {
    if events == [] then st else Run(w, After(w, st, events[0]), events[1..])
  }

  ghost predicate RunFresh(w: Wanted, st: Store, events: seq<Event>)
    decreases |events|
  {
    events == [] || (EventFresh(w, st, events[0]) && RunFresh(w, After(w, st, events[0]), events[1..]))
  }

  /** Calls of a run that no pending or broken load balancer keeps waiting. */
  ghost function GatewayCalls(w: Wanted, st: Store, events: seq<Event>): nat
    decreases |events|
  {
    if events == [] then 0
    else (if events[0].GatewayCall? && Open(w, st) then 1 else 0) + GatewayCalls(w, After(w, st, events[0]), events[1..])
  }

  ghost function RouteCalls(w: Wanted, st: Store, events: seq<Event>): nat
    decreases |events|
  {
    if events == [] then 0
    else (if events[0].RouteCall? && Open(w, st) then 1 else 0) + RouteCalls(w, After(w, st, events[0]), events[1..])
  }

  lemma {:induction false} GatewayCompletes(w: Wanted, st: Store, events: seq<Event>)
    requires Fitting(w) && Reachable(w, st) && RunFresh(w, st, events)
    ensures Reachable(w, Run(w, st, events))
    ensures GatewayCalls(w, st, events) >= GatewayLeft(w, st) ==> GatewayLeft(w, Run(w, st, events)) == 0
    decreases |events|
  {
    hide Fitting, Reachable, GatewayLeft, After, EventFresh, Open;
    if events != [] {
      ReachableStep(w, st, events[0]);
      GatewayCompletes(w, After(w, st, events[0]), events[1..]);
    }
  }

  lemma NoneLeftIsServing(w: Wanted, st: Store)
    requires Reachable(w, st) && GatewayLeft(w, st) == 0
    ensures exists site :: Serving(w, st, site)
  {
    hide Building, Serving, FindLoadBalancer, FindListener;
    if lb :| Building(w, st, lb) {
      BuildingLeft(w, st, lb);
    }
  }

  lemma {:induction false} RouteCompletes(w: Wanted, st: Store, site: Site, events: seq<Event>)
    requires Fitting(w) && Serving(w, st, site) && RunFresh(w, st, events)
    ensures Serving(w, Run(w, st, events), site)
    ensures RouteCalls(w, st, events) >= RouteLeft(w, st, site) ==> RouteLeft(w, Run(w, st, events), site) == 0
    decreases |events|
  {
    hide Fitting, Serving, RouteLeft, After, EventFresh, FindLoadBalancer, DesiredFor;
    FittingLaws(w);
    if events != [] {
      ServingFound(w, st, site);
      ServingStep(w, st, site, events[0]);
      RouteCompletes(w, After(w, st, events[0]), site, events[1..]);
    }
  }

  /** Both controllers report Ready and write nothing whenever the load balancer is
      active. */
  ghost predicate BothReady(w: Wanted, st: Store, lb: Id)
    requires lb in st.loadBalancers
  {
    (forall choice :: EnsureGatewayResult(w.env, w.gateway, Rested(st, lb), choice) == Result(Rested(st, lb), Ready)) &&
    (forall id :: EnsureRouteResult(w.env, w.route, Rested(st, lb), id) == Result(Rested(st, lb), Ready))
  }

  /** A request is routed exactly when the Gateway API says so, by one policy. */
  ghost predicate Delivers(w: Wanted, st: Store, listener: Id)
    requires ValidPath(w.route)
  {
    forall request :: Absolute(request) ==>
      (RouteMatches(w.route, request) <==> exists p :: Routes(st, listener, p, request)) &&
      (forall p, q :: Routes(st, listener, p, request) && Routes(st, listener, q, request) ==> p == q)
  }

  lemma DoneReports(w: Wanted, st: Store, site: Site)
    requires Fitting(w) && Serving(w, st, site) && RouteLeft(w, st, site) == 0
    ensures BothReady(w, st, site.loadBalancer)
  {
    hide Fitting, DesiredFor, RouteService.Serviceable, RouteService.FloatingIPsReady, RouteService.CallsLeft, RouteBound,
         FindLoadBalancer, EnsureGatewayResult, EnsureRouteResult;
    var a := Rested(st, site.loadBalancer);
    FittingLaws(w);
    ServingStep(w, st, site, Becomes(Active));
    ServingFound(w, st, site);
    forall choice ensures EnsureGatewayResult(w.env, w.gateway, a, choice) == Result(a, Ready) {
      CompleteGatewayReady(w, a, site, choice);
    }
    RouteService.NothingLeft(w.env, w.route, st, site);
  }

  lemma DoneDelivers(w: Wanted, st: Store, site: Site)
    requires Fitting(w) && Serving(w, st, site) && RouteLeft(w, st, site) == 0 && ValidPath(w.route)
    ensures Delivers(w, st, site.listener)
  {
    hide DesiredFor, LawfulOwner, LawfulNet, ViewGateway, TreeOk, ProtocolsOk, Converged, Measure, RouteBound, Absolute,
         RouteService.FloatingIPsReady, Routes, RouteMatches, ValidPath, DesiredOk, GatewayService.SpecValid, RouteService.CallsLeft;
    var a, d := Rested(st, site.loadBalancer), DesiredFor(w.env.net, w.route).value;
    RouteService.StatusIrrelevant(w.env, d, st, site, Active);
    RouteService.LeftZero(w.env, w.route, a, site);
    RouteService.ReadyListener(w.env, w.route, a, site);
    DesiredForOk(w.env.net, w.route, d);
    forall request | Absolute(request)
      ensures (RouteMatches(w.route, request) <==> exists p :: Routes(st, site.listener, p, request)) &&
              (forall p, q :: Routes(st, site.listener, p, request) && Routes(st, site.listener, q, request) ==> p == q)
    {
      ConvergedServes(w.env, d, a, site, request);
      SameTraffic(st, a, site.listener, request);
    }
  }

  lemma SameTraffic(st: Store, st': Store, listener: Id, request: Request)
    requires st' == st.(loadBalancers := st'.loadBalancers)
    ensures forall p :: Routes(st', listener, p, request) <==> Routes(st, listener, p, request)
  {
  }

  /** From an empty cloud, with Gateway calls, route calls and status changes in any
      order: once three Gateway calls have acted, and after them as many route calls
      as the members plus 43, both controllers report Ready whenever the load
      balancer is active, and exactly the requests the Gateway API accepts are
      routed, each by one policy. */
  lemma FromNothing(w: Wanted, st: Store, first: seq<Event>, second: seq<Event>)
    requires Fitting(w) && Nothing(w, st) && RunFresh(w, st, first) && RunFresh(w, Run(w, st, first), second) && ValidPath(w.route)
    requires GatewayCalls(w, st, first) >= 3 && RouteCalls(w, Run(w, st, first), second) >= RouteBound(w)
    ensures var final := Run(w, Run(w, st, first), second);
            exists site :: RouteService.Up(final, site) && BothReady(w, final, site.loadBalancer) && Delivers(w, final, site.listener)
  {
    hide Fitting, Building, GatewayCalls, RouteCalls, Run, RunFresh, ValidPath, RouteLeft, RouteBound, BothReady, Delivers,
         RouteService.Awaiting;
    FittingLaws(w);
    GatewayCompletes(w, st, first);
    var mid, final := Run(w, st, first), Run(w, Run(w, st, first), second);
    NoneLeftIsServing(w, mid);
    var site :| Serving(w, mid, site);
    RouteCompletes(w, mid, site, second);
    DoneReports(w, final, site);
    DoneDelivers(w, final, site);
  }

  // ----- such runs exist -----

  lemma {:induction false} LengthBound(s: set<Id>) returns (n: nat)
    ensures forall x :: x in s ==> |x| <= n
  {
    if s == {} {
      n := 0;
    } else {
      var x :| x in s;
      n := LengthBound(s - {x});
      n := if |x| > n then |x| else n;
    }
  }

  lemma OutsideId(s: set<Id>) returns (id: Id)
    ensures id != "" && id !in s
  {
    var n := LengthBound(s);
    id := seq(n + 1, i => 'x');
  }

  /** The cloud never runs out of IDs. */
  lemma FreshExists(st: Store) returns (id: Id)
    ensures Fresh(st, id)
  {
    hide UsedIds;
    var mentioned :=
      UsedIds(st) + (set l | l in st.listeners :: st.listeners[l].parent) + (set p | p in st.pools :: st.pools[p].parent) +
      (set m | m in st.members :: st.members[m].parent) + (set m | m in st.monitors :: st.monitors[m].parent) +
      (set p | p in st.policies :: st.policies[p].parent) + (set p | p in st.policies :: st.policies[p].redirectPool) +
      (set r | r in st.rules :: st.rules[r].parent);
    id := OutsideId(mentioned);
  }

  lemma FreePort(floatingIPs: map<Id, FloatingIP>) returns (port: Id)
    ensures FloatingIPsOf(floatingIPs, port) == {}
  {
    port := OutsideId(set f | f in floatingIPs :: floatingIPs[f].port);
  }

  lemma ActiveIsOpen(w: Wanted, st: Store)
    ensures Open(w, After(w, st, Becomes(Active)))
  {
    hide FindLoadBalancer;
    var found := FindLoadBalancer(w.env, st.loadBalancers);
    if found.Found? {
      StatusKeepsFound(w.env, st, found.id, Active);
    }
  }

  /** From every state of such a run the cloud can go on so that any number of
      calls of either controller act. */
  lemma {:induction false} Schedule(w: Wanted, st: Store, route: bool, n: nat) returns (events: seq<Event>)
    ensures RunFresh(w, st, events)
    ensures if route then RouteCalls(w, st, events) >= n else GatewayCalls(w, st, events) >= n
    decreases n
  {
    hide After, Open, Fresh, FindLoadBalancer;
    if n == 0 {
      return [];
    }
    var active := After(w, st, Becomes(Active));
    ActiveIsOpen(w, st);
    var id := FreshExists(active);
    var port := FreePort(active.floatingIPs);
    var call := if route then RouteCall(id) else GatewayCall(Choice(id, port, w.gateway.provider));
    var rest := Schedule(w, After(w, active, call), route, n - 1);
    events := [Becomes(Active), call] + rest;
    assert events[1..] == [call] + rest && events[1..][1..] == rest;
  }

  /** Every fitting Gateway and route can be brought from an empty cloud to serving
      exactly the requests the Gateway API accepts. */
  lemma ServiceReachable(w: Wanted, st: Store) returns (first: seq<Event>, second: seq<Event>)
    requires Fitting(w) && Nothing(w, st) && ValidPath(w.route)
    ensures RunFresh(w, st, first) && RunFresh(w, Run(w, st, first), second)
    ensures var final := Run(w, Run(w, st, first), second);
            exists site :: RouteService.Up(final, site) && BothReady(w, final, site.loadBalancer) && Delivers(w, final, site.listener)
  {
    hide Fitting, Nothing, GatewayCalls, RouteCalls, Run, RunFresh, ValidPath, RouteBound, BothReady, Delivers;
    FittingLaws(w);
    first := Schedule(w, st, false, 3);
    second := Schedule(w, Run(w, st, first), true, RouteBound(w));
    FromNothing(w, st, first, second);
  }

  // ----- the two controllers' identities -----

  /** Two owners that agree on everything asked about a Gateway. */
  ghost predicate SameGatewayPart(a: Owner, b: Owner)
  {
    (forall tags, role :: a.exactGateway(tags, role) == b.exactGateway(tags, role)) &&
    (forall tags, role :: a.discoversGateway(tags, role) == b.discoversGateway(tags, role)) &&
    (forall tags :: a.listsLoadBalancer(tags) == b.listsLoadBalancer(tags)) &&
    (forall text :: a.matchesDescription(text) == b.matchesDescription(text)) &&
    (forall role :: a.gatewayTags(role) == b.gatewayTags(role)) && a.description == b.description
  }

  lemma SameLookups(a: Env, b: Env, st: Store)
    requires SameGatewayPart(a.own, b.own) && a.project == b.project
    ensures FindLoadBalancer(a, st.loadBalancers) == FindLoadBalancer(b, st.loadBalancers)
    ensures forall lb :: FindListener(a, st.listeners, lb) == FindListener(b, st.listeners, lb)
  {
    assert ListedLoadBalancers(a.own, st.loadBalancers) == ListedLoadBalancers(b.own, st.loadBalancers);
    assert forall lb, l :: l in st.listeners ==> (ListenerManaged(a, lb, st.listeners[l]) <==> ListenerManaged(b, lb, st.listeners[l]));
  }

  lemma SamePolicies(a: Env, b: Env, policies: Policies, rules: Rules, l: Id)
    requires SameGatewayPart(a.own, b.own) && a.project == b.project && PoliciesOwned(a, policies, rules, l)
    ensures PoliciesOwned(b, policies, rules, l)
  {
    forall p | p in PoliciesOf(policies, l) ensures PolicyOwned(b, l, policies[p]) && RulesOwned(b, rules, p) {
      assert PolicyOwned(a, l, policies[p]);
      forall r | r in RulesOf(rules, p) ensures RuleOwned(b, rules[r]) {
        assert RuleOwned(a, rules[r]);
      }
    }
  }

  lemma SamePoolSubtree(a: Env, b: Env, st: Store, lb: Id, p: Id)
    requires SameGatewayPart(a.own, b.own) && a.project == b.project
    requires p in st.pools && PoolOwned(a, lb, st.pools[p]) && PoolSubtreeOwned(a, st.members, st.monitors, p)
    ensures PoolOwned(b, lb, st.pools[p]) && PoolSubtreeOwned(b, st.members, st.monitors, p)
  {
    forall m | m in MonitorsOf(st.monitors, p) ensures MonitorOwned(b, p, st.monitors[m]) {
      assert MonitorOwned(a, p, st.monitors[m]);
    }
    forall m | m in MembersOf(st.members, p) ensures MemberOwned(b, p, st.members[m]) {
      assert MemberOwned(a, p, st.members[m]);
    }
  }

  lemma SameTreeChecks(a: Env, b: Env, st: Store, lb: Id)
    requires SameGatewayPart(a.own, b.own) && a.project == b.project && GatewayTreeOk(a, st, lb)
    ensures GatewayTreeOk(b, st, lb)
  {
    hide PoliciesOwned, PoolOwned, PoolSubtreeOwned;
    forall l | l in ListenersOf(st.listeners, lb) ensures ListenerSubtreeOwned(b, st, lb, l) {
      assert ListenerSubtreeOwned(a, st, lb, l);
      SamePolicies(a, b, st.policies, st.rules, l);
    }
    forall p | p in PoolsOf(st.pools, lb) ensures PoolOwned(b, lb, st.pools[p]) && PoolSubtreeOwned(b, st.members, st.monitors, p) {
      SamePoolSubtree(a, b, st, lb, p);
    }
  }

  lemma SameFloatingIPs(a: Env, b: Env, floatingIPs: map<Id, FloatingIP>, port: Id, network: Id)
    requires SameGatewayPart(a.own, b.own) && a.project == b.project
    ensures FloatingIPStateOf(a, floatingIPs, port, network) == FloatingIPStateOf(b, floatingIPs, port, network)
  {
    assert FloatingIPsTrusted(a, floatingIPs, port) <==> FloatingIPsTrusted(b, floatingIPs, port);
  }

  lemma SameEnsureGateway(a: Env, b: Env, spec: GatewaySpec, st: Store, choice: Choice)
    requires SameGatewayPart(a.own, b.own) && a.project == b.project
    ensures EnsureGatewayResult(a, spec, st, choice) == EnsureGatewayResult(b, spec, st, choice)
  {
    hide FindLoadBalancer, FindListener, GatewayTreeOk, FloatingIPStateOf, Blank, HasRouteResources;
    SameLookups(a, b, st);
    var found := FindLoadBalancer(a, st.loadBalancers);
    if found.Found? {
      if GatewayTreeOk(a, st, found.id) {
        SameTreeChecks(a, b, st, found.id);
      }
      if GatewayTreeOk(b, st, found.id) {
        SameTreeChecks(b, a, st, found.id);
      }
      SameFloatingIPs(a, b, st.floatingIPs, st.loadBalancers[found.id].vipPort, spec.externalNetwork);
    }
  }

  /** EnsureGateway does the same for a route's identity as for its Gateway's, so a
      run may use one identity for both controllers. */
  lemma GatewayIdentityDecides(
    c: OwnershipTags.Codec, id: Kube.Identity, env: Env, spec: GatewaySpec, st: Store, choice: Choice)
    requires env.own == OwnershipTags.OwnerOf(c, id)
    ensures var gatewayEnv := env.(own := OwnershipTags.OwnerOf(c, OwnershipTags.GatewayOnly(id)));
            EnsureGatewayResult(gatewayEnv, spec, st, choice) == EnsureGatewayResult(env, spec, st, choice)
  {
    hide EnsureGatewayResult;
    var gatewayEnv := env.(own := OwnershipTags.OwnerOf(c, OwnershipTags.GatewayOnly(id)));
    SameEnsureGateway(gatewayEnv, env, spec, st, choice);
  }
}
