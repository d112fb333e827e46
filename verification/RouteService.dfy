/** End to end: what repeated EnsureRoute calls achieve, and what a Ready report
    means for traffic. */
module RouteService {
  import opened Ownership
  import opened Octavia
  import opened RouteModel
  import opened RouteTree
  import opened RoutePlan
  import opened RouteSteps
  import opened PolicyViews
  import opened RouteProgress
  import opened RouteConvergence
  import opened RouteTraffic
  import opened RouteDeletion
  import opened Provider
  import opened Isolation

  /** The Gateway is in place for the route, the tree is valid, and what the
      reconciler cannot change is as it must be. */
  ghost predicate Serviceable(env: Env, spec: RouteSpec, st: Store, site: Site)
  {
    ViewGateway(env, st, Some(spec)) == GatewayReady(site) && GatewayIdsMatch(spec, site) && DesiredFor(env.net, spec).Some? &&
    "" !in st.listeners && TreeOk(env, st, site) && ProtocolsOk(st, site)
  }

  ghost predicate FloatingIPsReady(env: Env, spec: RouteSpec, st: Store, site: Site)
  {
    site.loadBalancer in st.loadBalancers &&
    FloatingIPStateOf(env, st.floatingIPs, st.loadBalancers[site.loadBalancer].vipPort, spec.externalNetwork) == AsRequired
  }

  ghost predicate Up(st: Store, site: Site)
  {
    site.listener in st.listeners && site.loadBalancer in st.loadBalancers &&
    st.listeners[site.listener].up && st.loadBalancers[site.loadBalancer].up
  }

  /** Mutations plus admin-state repairs still to come. */
  ghost function Remaining(env: Env, d: Desired, st: Store, site: Site): nat
  {
    Measure(env, d, st, site) +
    (if site.listener in st.listeners && st.listeners[site.listener].up then 0 else 1) +
    (if site.loadBalancer in st.loadBalancers && st.loadBalancers[site.loadBalancer].up then 0 else 1)
  }

  lemma ReadyListener(env: Env, spec: RouteSpec, st: Store, site: Site)
    requires ViewGateway(env, st, Some(spec)) == GatewayReady(site) && "" !in st.listeners
    ensures site.loadBalancer in st.loadBalancers && site.listener in st.listeners && site.listener != ""
  {
    ReadySite(env, st, spec, site);
  }

  // ----- the report -----

  /** EnsureRoute reports Ready exactly when the Gateway is in place, the route has
      converged, and listener and load balancer are switched on. */
  lemma EnsureRouteReady(env: Env, spec: RouteSpec, st: Store, id: Id)
    requires LawfulNet(env.net) && "" !in st.listeners
    ensures EnsureRouteResult(env, spec, st, id).outcome == Ready <==>
            exists site :: Serviceable(env, spec, st, site) && Up(st, site) &&
              Converged(env, DesiredFor(env.net, spec).value, st, site)
  {
    hide LawfulNet, DesiredFor, ViewGateway, TreeOk, GraphOf, EnsurePlan, Execute, Converged, DesiredOk, ProtocolsOk,
         FloatingIPStateOf;
    var d, view := DesiredFor(env.net, spec), ViewGateway(env, st, Some(spec));
    if d.Some? && view.GatewayReady? {
      ReadyListener(env, spec, st, view.site);
      DesiredForOk(env.net, spec, d.value);
      if TreeOk(env, st, view.site) {
        PlanDefined(env, d.value, st, view.site);
        var plan := EnsurePlan(env.net, d.value, GraphOf(env, st, view.site));
        if plan.Some? {
          PlanEmptyIff(env, d.value, st, view.site, plan.value);
        }
      }
    }
    forall site | Serviceable(env, spec, st, site) ensures view == GatewayReady(site) {
    }
  }

  /** What Ready means for a client: an absolute request is routed exactly when the
      Gateway API says so, by one policy of the enabled listener. */
  lemma ReadyServes(env: Env, spec: RouteSpec, st: Store, id: Id, request: Request)
    requires LawfulNet(env.net) && "" !in st.listeners && ValidPath(spec) && Absolute(request)
    requires EnsureRouteResult(env, spec, st, id).outcome == Ready
    ensures exists site :: Serviceable(env, spec, st, site) && Up(st, site) &&
              (RouteMatches(spec, request) <==> exists p :: Routes(st, site.listener, p, request)) &&
              (forall p, q :: Routes(st, site.listener, p, request) && Routes(st, site.listener, q, request) ==> p == q)
  {
    hide LawfulNet, DesiredFor, ViewGateway, TreeOk, Converged, DesiredOk, ProtocolsOk, EnsureRouteResult, Routes,
         RouteMatches, ValidPath;
    EnsureRouteReady(env, spec, st, id);
    var site :| Serviceable(env, spec, st, site) && Up(st, site) && Converged(env, DesiredFor(env.net, spec).value, st, site);
    ReadyListener(env, spec, st, site);
    DesiredForOk(env.net, spec, DesiredFor(env.net, spec).value);
    ConvergedServes(env, DesiredFor(env.net, spec).value, st, site, request);
  }

  // ----- progress of one call -----

  lemma SameGateway(env: Env, spec: RouteSpec, st: Store, st': Store, site: Site)
    requires ViewGateway(env, st, Some(spec)) == GatewayReady(site)
    requires st'.loadBalancers == st.loadBalancers && st'.listeners == st.listeners
    ensures ViewGateway(env, st', Some(spec)) == GatewayReady(site)
  {
  }

  lemma SameRoute(env: Env, d: Desired, st: Store, st': Store, site: Site)
    requires st' == st.(loadBalancers := st'.loadBalancers, listeners := st'.listeners)
    ensures TreeOk(env, st', site) <==> TreeOk(env, st, site)
    ensures ProtocolsOk(st', site) <==> ProtocolsOk(st, site)
    ensures Measure(env, d, st', site) == Measure(env, d, st, site)
  {
    hide PoolTreeOk, PolicyTreeOk, PolicyDistance, NonPolicyCost, ViewPolicy, BeneathHTTP;
  }

  lemma ConvergedCostsNothing(env: Env, d: Desired, st: Store, site: Site)
    requires LawfulNet(env.net) && DesiredOk(env.net, d) && TreeOk(env, st, site) && ProtocolsOk(st, site) && site.listener != ""
    requires Converged(env, d, st, site)
    ensures EnsurePlan(env.net, d, GraphOf(env, st, site)) == Some([])
  {
    hide LawfulNet, DesiredOk, TreeOk, ProtocolsOk, Converged, EnsurePlan, GraphOf;
    PlanDefined(env, d, st, site);
    PlanEmptyIff(env, d, st, site, EnsurePlan(env.net, d, GraphOf(env, st, site)).value);
  }

  /** One call on a serviceable route that has not converged is one route step. */
  lemma CallMutates(env: Env, spec: RouteSpec, st: Store, site: Site, id: Id)
    requires LawfulOwner(env.own) && LawfulNet(env.net) && Serviceable(env, spec, st, site) && Fresh(st, id)
    requires !Converged(env, DesiredFor(env.net, spec).value, st, site)
    ensures var d := DesiredFor(env.net, spec).value;
            var r := EnsureRouteResult(env, spec, st, id);
            r == Result(EnsureStep(env, d, site, st, id), Progressing) && Serviceable(env, spec, r.store, site) &&
            Remaining(env, d, r.store, site) < Remaining(env, d, st, site) &&
            r.store.floatingIPs == st.floatingIPs && r.store.loadBalancers == st.loadBalancers &&
            r.store.listeners == st.listeners
  {
    hide LawfulOwner, LawfulNet, DesiredFor, ViewGateway, TreeOk, GraphOf, EnsurePlan, Execute, Converged, DesiredOk, ProtocolsOk,
         Fresh, Measure, RepairAdminState;
    var d := DesiredFor(env.net, spec).value;
    ReadyListener(env, spec, st, site);
    DesiredForOk(env.net, spec, d);
    PlanDefined(env, d, st, site);
    var plan := EnsurePlan(env.net, d, GraphOf(env, st, site)).value;
    PlanEmptyIff(env, d, st, site, plan);
    ExecuteKeepsGateway(env, d, site, st, plan[0], id);
    EnsureStepProgress(env, d, st, site, id);
    SameGateway(env, spec, st, EnsureStep(env, d, site, st, id), site);
  }

  /** One call on a converged route switches on what is still off. */
  lemma CallRepairs(env: Env, spec: RouteSpec, st: Store, site: Site, id: Id)
    requires LawfulNet(env.net) && Serviceable(env, spec, st, site)
    requires site.loadBalancer in st.loadBalancers && site.listener in st.listeners
    requires Converged(env, DesiredFor(env.net, spec).value, st, site)
    ensures EnsureRouteResult(env, spec, st, id) == RepairAdminState(env, spec, st, site)
  {
    hide LawfulNet, DesiredFor, ViewGateway, TreeOk, GraphOf, EnsurePlan, Execute, Converged, DesiredOk, ProtocolsOk,
         RepairAdminState, FloatingIPStateOf;
    var d := DesiredFor(env.net, spec).value;
    ReadyListener(env, spec, st, site);
    DesiredForOk(env.net, spec, d);
    ConvergedCostsNothing(env, d, st, site);
  }

  lemma RaisedView(env: Env, spec: RouteSpec, st: Store, st': Store, site: Site)
    requires ViewGateway(env, st, Some(spec)) == GatewayReady(site) && "" !in st.listeners
    requires site.loadBalancer in st.loadBalancers && site.listener in st.listeners
    requires st' == EnableListener(st, site.listener) || st' == EnableLoadBalancer(st, site.loadBalancer)
    ensures ViewGateway(env, st', Some(spec)) == GatewayReady(site) && "" !in st'.listeners
  {
    hide ListenerManaged;
    var lb, l := site.loadBalancer, site.listener;
    assert ListedLoadBalancers(env.own, st'.loadBalancers) == ListedLoadBalancers(env.own, st.loadBalancers);
    assert ListenersOf(st'.listeners, lb) == ListenersOf(st.listeners, lb);
    assert ListenerManaged(env, lb, st'.listeners[l]) == ListenerManaged(env, lb, st.listeners[l]) by {
      SameListenerChecks(env, lb, st.listeners[l]);
    }
  }

  lemma SameListenerChecks(env: Env, lb: Id, listener: Listener)
    ensures ListenerManaged(env, lb, listener.(up := true)) == ListenerManaged(env, lb, listener)
  {
  }

  /** Every call that does not report Ready gets strictly closer. */
  lemma CallProgress(env: Env, spec: RouteSpec, st: Store, site: Site, id: Id)
    requires LawfulOwner(env.own) && LawfulNet(env.net) && Fresh(st, id)
    requires Serviceable(env, spec, st, site) && FloatingIPsReady(env, spec, st, site)
    ensures var d := DesiredFor(env.net, spec).value;
            var r := EnsureRouteResult(env, spec, st, id);
            Serviceable(env, spec, r.store, site) && FloatingIPsReady(env, spec, r.store, site) &&
            (r == Result(st, Ready) ||
             (r.outcome == Progressing && Remaining(env, d, r.store, site) < Remaining(env, d, st, site)))
  {
    hide LawfulOwner, LawfulNet, DesiredFor, ViewGateway, TreeOk, Converged, ProtocolsOk, Fresh, Measure, EnsureRouteResult,
         FloatingIPStateOf, EnsureStep, GatewayIdsMatch;
    var d := DesiredFor(env.net, spec).value;
    ReadyListener(env, spec, st, site);
    if !Converged(env, d, st, site) {
      CallMutates(env, spec, st, site, id);
    } else {
      CallRepairs(env, spec, st, site, id);
      RepairProgress(env, spec, d, st, site);
    }
  }

  lemma RepairProgress(env: Env, spec: RouteSpec, d: Desired, st: Store, site: Site)
    requires Serviceable(env, spec, st, site) && FloatingIPsReady(env, spec, st, site)
    requires site.loadBalancer in st.loadBalancers && site.listener in st.listeners
    ensures var r := RepairAdminState(env, spec, st, site);
            Serviceable(env, spec, r.store, site) && FloatingIPsReady(env, spec, r.store, site) &&
            (r == Result(st, Ready) ||
             (r.outcome == Progressing && Remaining(env, d, r.store, site) < Remaining(env, d, st, site)))
  {
    hide ViewGateway, TreeOk, ProtocolsOk, Measure, FloatingIPStateOf, DesiredFor, GatewayIdsMatch;
    var r := RepairAdminState(env, spec, st, site);
    if r.store != st {
      RaisedView(env, spec, st, r.store, site);
      SameRoute(env, d, st, r.store, site);
    }
  }

  // ----- whole runs -----

  /** One moment of a run: a call, in which the cloud may assign `id`, or a change
      of the load balancer's status. */
  datatype Event = Call(id: Id) | Becomes(status: Status)

  ghost function After(env: Env, spec: RouteSpec, lb: Id, st: Store, event: Event): Store
  {
    match event
    case Call(id) => EnsureRouteResult(env, spec, st, id).store
    case Becomes(status) => if lb in st.loadBalancers then WithStatus(st, lb, status) else st
  }

  ghost function EnsureRouteRun(env: Env, spec: RouteSpec, lb: Id, st: Store, events: seq<Event>): Store
    decreases |events|
  {
    if events == [] then st else EnsureRouteRun(env, spec, lb, After(env, spec, lb, st, events[0]), events[1..])
  }

  ghost predicate EventsFresh(env: Env, spec: RouteSpec, lb: Id, st: Store, events: seq<Event>)
    decreases |events|
  {
    events == [] ||
    ((events[0].Call? ==> Fresh(st, events[0].id)) && EventsFresh(env, spec, lb, After(env, spec, lb, st, events[0]), events[1..]))
  }

  /** The calls of a run that find the load balancer active. */
  ghost function ActingCalls(env: Env, spec: RouteSpec, lb: Id, st: Store, events: seq<Event>): nat
    decreases |events|
  {
    if events == [] then 0
    else
      (if events[0].Call? && Acts(st, lb) then 1 else 0) +
      ActingCalls(env, spec, lb, After(env, spec, lb, st, events[0]), events[1..])
  }

  /** Serviceable whenever the load balancer is active, with the Floating IP as
      required. */
  ghost predicate Awaiting(env: Env, spec: RouteSpec, st: Store, site: Site)
  {
    DesiredFor(env.net, spec).Some? && site.loadBalancer in st.loadBalancers &&
    Serviceable(env, spec, Rested(st, site.loadBalancer), site) && FloatingIPsReady(env, spec, Rested(st, site.loadBalancer), site)
  }

  /** Acting calls still needed: none once converged and switched on. */
  ghost function CallsLeft(env: Env, d: Desired, st: Store, site: Site): nat
  {
    if Converged(env, d, st, site) && Up(st, site) then 0 else Remaining(env, d, st, site)
  }

  lemma StatusIrrelevant(env: Env, d: Desired, st: Store, site: Site, status: Status)
    requires site.loadBalancer in st.loadBalancers
    ensures CallsLeft(env, d, WithStatus(st, site.loadBalancer, status), site) == CallsLeft(env, d, st, site)
  {
    hide Measure, PoolInPlace, PolicyInPlace, View;
    var st' := WithStatus(st, site.loadBalancer, status);
    SameRoute(env, d, st, st', site);
    SameConverged(env, d, st, st', site);
  }

  lemma SameConverged(env: Env, d: Desired, st: Store, st': Store, site: Site)
    requires st' == st.(loadBalancers := st'.loadBalancers)
    ensures Converged(env, d, st', site) <==> Converged(env, d, st, site)
  {
    hide PolicyInPlace, ViewPolicy, MembersInPlace;
    assert forall p :: PoolInPlace(env, d, st', site, p) <==> PoolInPlace(env, d, st, site, p);
  }

  lemma StatusKeepsAwaiting(env: Env, spec: RouteSpec, st: Store, site: Site, status: Status)
    requires Awaiting(env, spec, st, site)
    ensures Awaiting(env, spec, WithStatus(st, site.loadBalancer, status), site)
  {
    hide Serviceable, FloatingIPsReady;
    var lb := site.loadBalancer;
    assert Rested(WithStatus(st, lb, status), lb) == Rested(st, lb);
  }

  /** A call that finds the load balancer pending or broken changes nothing. */
  lemma IdleCall(env: Env, spec: RouteSpec, st: Store, site: Site, id: Id)
    requires Awaiting(env, spec, st, site) && !Acts(st, site.loadBalancer)
    ensures EnsureRouteResult(env, spec, st, id).store == st
  {
    hide FindLoadBalancer, FloatingIPsReady, DesiredFor, TreeOk, ProtocolsOk, GatewayIdsMatch, FindListener, EnsureRouteAt;
    StatusKeepsFound(env, st, site.loadBalancer, Active);
  }

  /** One acting call: Ready and idle, or one call fewer to go. */
  lemma ActingCall(env: Env, spec: RouteSpec, st: Store, site: Site, id: Id)
    requires LawfulOwner(env.own) && LawfulNet(env.net) && Fresh(st, id)
    requires Serviceable(env, spec, st, site) && FloatingIPsReady(env, spec, st, site)
    ensures var d := DesiredFor(env.net, spec).value;
            var r := EnsureRouteResult(env, spec, st, id);
            Serviceable(env, spec, r.store, site) && FloatingIPsReady(env, spec, r.store, site) &&
            (r.outcome == Ready <==> CallsLeft(env, d, st, site) == 0) &&
            (r.outcome == Ready ==> r.store == st) &&
            (r.outcome != Ready ==> CallsLeft(env, d, r.store, site) < CallsLeft(env, d, st, site))
  {
    hide LawfulOwner, LawfulNet, DesiredFor, ViewGateway, TreeOk, Converged, ProtocolsOk, Fresh, Measure, EnsureRouteResult,
         FloatingIPsReady, GatewayIdsMatch, Remaining, Up;
    CallProgress(env, spec, st, site, id);
    EnsureRouteReady(env, spec, st, id);
    assert forall other :: Serviceable(env, spec, st, other) ==> other == site;
  }

  /** With a status that may change at any moment: from any serviceable state whose
      Floating IP is as required, every run stays so, and once it holds as many
      acting calls as remained, the next acting call reports Ready and changes
      nothing. */
  lemma {:induction false} EnsureRouteTerminates(env: Env, spec: RouteSpec, st: Store, site: Site, events: seq<Event>)
    requires LawfulOwner(env.own) && LawfulNet(env.net) && Awaiting(env, spec, st, site)
    requires EventsFresh(env, spec, site.loadBalancer, st, events)
    ensures var lb, d := site.loadBalancer, DesiredFor(env.net, spec).value;
            var final := EnsureRouteRun(env, spec, lb, st, events);
            Awaiting(env, spec, final, site) &&
            (ActingCalls(env, spec, lb, st, events) >= CallsLeft(env, d, st, site) ==>
              CallsLeft(env, d, final, site) == 0 &&
              forall id :: EnsureRouteResult(env, spec, Rested(final, lb), id) == Result(Rested(final, lb), Ready))
    decreases |events|
  {
    hide LawfulOwner, LawfulNet, DesiredFor, Fresh, EnsureRouteResult, Serviceable, FloatingIPsReady, CallsLeft;
    var lb, d := site.loadBalancer, DesiredFor(env.net, spec).value;
    if events == [] {
      if CallsLeft(env, d, st, site) == 0 {
        NothingLeft(env, spec, st, site);
      }
    } else {
      EventProgress(env, spec, st, site, events[0]);
      EnsureRouteTerminates(env, spec, After(env, spec, lb, st, events[0]), site, events[1..]);
    }
  }

  /** No call is left exactly when the route has converged and is switched on. */
  lemma LeftZero(env: Env, spec: RouteSpec, st: Store, site: Site)
    requires LawfulOwner(env.own) && LawfulNet(env.net) && Serviceable(env, spec, st, site)
    ensures var d := DesiredFor(env.net, spec).value;
            CallsLeft(env, d, st, site) == 0 <==> Converged(env, d, st, site) && Up(st, site)
  {
    hide LawfulOwner, LawfulNet, DesiredFor, ViewGateway, TreeOk, Converged, ProtocolsOk, Measure, GatewayIdsMatch, DesiredOk;
    var d := DesiredFor(env.net, spec).value;
    ReadyListener(env, spec, st, site);
    DesiredForOk(env.net, spec, d);
    if Measure(env, d, st, site) == 0 {
      ZeroIsConverged(env, d, st, site);
    }
  }

  lemma NothingLeft(env: Env, spec: RouteSpec, st: Store, site: Site)
    requires LawfulOwner(env.own) && LawfulNet(env.net) && Awaiting(env, spec, st, site)
    requires CallsLeft(env, DesiredFor(env.net, spec).value, st, site) == 0
    ensures var a := Rested(st, site.loadBalancer);
            forall id :: EnsureRouteResult(env, spec, a, id) == Result(a, Ready)
  {
    hide LawfulOwner, LawfulNet, DesiredFor, EnsureRouteResult, FloatingIPsReady, CallsLeft, ViewGateway, TreeOk, ProtocolsOk,
         Converged, Up;
    var a := Rested(st, site.loadBalancer);
    StatusIrrelevant(env, DesiredFor(env.net, spec).value, st, site, Active);
    LeftZero(env, spec, a, site);
    forall id ensures EnsureRouteResult(env, spec, a, id) == Result(a, Ready) {
      EnsureRouteReady(env, spec, a, id);
      OnlyProgressWrites(env, EnsureRouteOp(spec, id), a);
    }
  }

  /** Any event keeps the run going, and no event but an acting call changes how
      many calls are left. */
  lemma EventProgress(env: Env, spec: RouteSpec, st: Store, site: Site, event: Event)
    requires LawfulOwner(env.own) && LawfulNet(env.net) && Awaiting(env, spec, st, site)
    requires event.Call? ==> Fresh(st, event.id)
    ensures var lb, d := site.loadBalancer, DesiredFor(env.net, spec).value;
            var st' := After(env, spec, lb, st, event);
            Awaiting(env, spec, st', site) &&
            var left, left' := CallsLeft(env, d, st, site), CallsLeft(env, d, st', site);
            if event.Call? && Acts(st, lb) then left' < left || left' == left == 0 else left' == left
  {
    hide LawfulOwner, LawfulNet, DesiredFor, Fresh, EnsureRouteResult, Serviceable, FloatingIPsReady, CallsLeft;
    var lb, d := site.loadBalancer, DesiredFor(env.net, spec).value;
    match event {
      case Becomes(status) =>
        StatusKeepsAwaiting(env, spec, st, site, status);
        StatusIrrelevant(env, d, st, site, status);
      case Call(id) =>
        if Acts(st, lb) {
          ActingCall(env, spec, st, site, id);
          ActingKeepsStatus(env, spec, st, site, id);
        } else {
          IdleCall(env, spec, st, site, id);
        }
    }
  }

  lemma ActingKeepsStatus(env: Env, spec: RouteSpec, st: Store, site: Site, id: Id)
    requires Serviceable(env, spec, EnsureRouteResult(env, spec, st, id).store, site)
    ensures var st' := EnsureRouteResult(env, spec, st, id).store;
            site.loadBalancer in st'.loadBalancers && Rested(st', site.loadBalancer) == st'
  {
    hide EnsureRouteResult, TreeOk, ProtocolsOk, GatewayIdsMatch, DesiredFor, FindListener;
  }

  // ----- deletion reports -----

  /** DeleteRoute reports Ready exactly when no route resource is left beneath the
      Gateway, or there is no Gateway. */
  lemma DeleteRouteReady(env: Env, st: Store)
    ensures DeleteRouteResult(env, st).outcome == Ready <==>
            (ViewGateway(env, st, None).GatewayAbsent? ||
             (ViewGateway(env, st, None).GatewayReady? && TreeOk(env, st, ViewGateway(env, st, None).site) &&
              NoRouteResources(st, ViewGateway(env, st, None).site)))
  {
    hide ViewGateway, TreeOk, GraphOf, DeletionPlan, NoRouteResources, DeleteStep;
    var view := ViewGateway(env, st, None);
    if view.GatewayReady? && TreeOk(env, st, view.site) {
      EmptyDeletionPlan(env, st, view.site);
    }
  }
}
