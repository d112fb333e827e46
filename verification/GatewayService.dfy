/** End to end for Gateways: what repeated EnsureGateway calls achieve, and what a
    Ready report means. */
module GatewayService {
  import opened Ownership
  import opened Octavia
  import opened RouteModel
  import opened RouteTree
  import opened GatewayTree
  import opened GatewayDeletion
  import opened Provider
  import Isolation
  import opened AdminGating

  // ----- the report -----

  predicate SpecValid(spec: GatewaySpec)
  {
    !Blank(spec.vipSubnet) && PortOk(spec.listenerPort)
  }

  predicate FieldsMatch(spec: GatewaySpec, record: LoadBalancer)
  {
    record.vipSubnet == spec.vipSubnet && (spec.provider == "" || record.provider == spec.provider)
  }

  /** The Gateway's load balancer is active, has the immutable fields, and nothing
      foreign is beneath it; a listener, if any, has the right protocol and port. */
  ghost predicate InPlace(env: Env, spec: GatewaySpec, st: Store, lb: Id)
  {
    SpecValid(spec) && FindLoadBalancer(env, st.loadBalancers) == Found(lb) && lb in st.loadBalancers &&
    FieldsMatch(spec, st.loadBalancers[lb]) && st.loadBalancers[lb].status == Active && GatewayTreeOk(env, st, lb) &&
    ListenerUsable(env, spec, st.listeners, lb)
  }

  ghost predicate ListenerUsable(env: Env, spec: GatewaySpec, listeners: map<Id, Listener>, lb: Id)
  {
    var l := FindListener(env, listeners, lb);
    !l.Conflict? && (l.Found? ==> listeners[l.id].protocol == HTTP && listeners[l.id].port == spec.listenerPort)
  }

  ghost function FloatingIPs(env: Env, spec: GatewaySpec, st: Store, lb: Id): FloatingIPState
    requires lb in st.loadBalancers
  {
    FloatingIPStateOf(env, st.floatingIPs, st.loadBalancers[lb].vipPort, spec.externalNetwork)
  }

  /** Listener and load balancer exist and are on. */
  ghost predicate AllUp(env: Env, st: Store, lb: Id)
  {
    var l := FindListener(env, st.listeners, lb);
    lb in st.loadBalancers && st.loadBalancers[lb].up && l.Found? && st.listeners[l.id].up
  }

  /** EnsureGateway reports Ready exactly when the load balancer is in place, the
      Floating IP is as required, and the listener exists and everything is on. */
  lemma EnsureGatewayReady(env: Env, spec: GatewaySpec, st: Store, choice: Choice)
    ensures EnsureGatewayResult(env, spec, st, choice).outcome == Ready <==>
            exists lb :: InPlace(env, spec, st, lb) && FloatingIPs(env, spec, st, lb) == AsRequired && AllUp(env, st, lb)
  {
    hide FindLoadBalancer, FindListener, FloatingIPStateOf, GatewayTreeOk, HasRouteResources, Blank, NewLoadBalancer, NewListener,
         NewFloatingIP;
    var found := FindLoadBalancer(env, st.loadBalancers);
    if found.Found? && InPlace(env, spec, st, found.id) && FloatingIPs(env, spec, st, found.id) == AsRequired &&
       AllUp(env, st, found.id)
    {
      assert EnsureGatewayAt(env, spec, st, found.id, choice).outcome == Ready;
    }
    if EnsureGatewayResult(env, spec, st, choice).outcome == Ready {
      ReadyIsInPlace(env, spec, st, choice);
    }
  }

  lemma ReadyIsInPlace(env: Env, spec: GatewaySpec, st: Store, choice: Choice)
    requires EnsureGatewayResult(env, spec, st, choice).outcome == Ready
    ensures FindLoadBalancer(env, st.loadBalancers).Found?
    ensures var lb := FindLoadBalancer(env, st.loadBalancers).id;
            InPlace(env, spec, st, lb) && FloatingIPs(env, spec, st, lb) == AsRequired && AllUp(env, st, lb)
  {
    hide FindLoadBalancer, FindListener, FloatingIPStateOf, GatewayTreeOk, HasRouteResources, Blank, NewLoadBalancer, NewListener,
         NewFloatingIP;
  }

  // ----- progress of one call -----

  ghost function FloatingIPCost(state: FloatingIPState, floatingIPs: map<Id, FloatingIP>, port: Id): nat
  {
    match state
    case AsRequired => 0
    case Superfluous(_) => |FloatingIPsOf(floatingIPs, port)|
    case _ => 1
  }

  ghost function ListenerCost(env: Env, listeners: map<Id, Listener>, lb: Id): nat
  {
    var l := FindListener(env, listeners, lb);
    if l.Found? && listeners[l.id].up then 0 else 1
  }

  /** Calls still needed. */
  ghost function GatewayRemaining(env: Env, spec: GatewaySpec, st: Store, lb: Id): nat
    requires lb in st.loadBalancers
  {
    FloatingIPCost(FloatingIPs(env, spec, st, lb), st.floatingIPs, st.loadBalancers[lb].vipPort) +
    ListenerCost(env, st.listeners, lb) + if st.loadBalancers[lb].up then 0 else 1
  }

  /** A Gateway without route resources whose Floating IPs are usable. */
  ghost predicate Provisionable(env: Env, spec: GatewaySpec, st: Store, lb: Id)
  {
    InPlace(env, spec, st, lb) && NothingBeneath(st, lb) && !FloatingIPs(env, spec, st, lb).Unusable?
  }

  ghost predicate Closer(env: Env, spec: GatewaySpec, st: Store, st': Store, lb: Id)
    requires lb in st.loadBalancers
  {
    Provisionable(env, spec, st', lb) && GatewayRemaining(env, spec, st', lb) < GatewayRemaining(env, spec, st, lb)
  }

  lemma NewFloatingIPAsRequired(env: Env, floatingIPs: map<Id, FloatingIP>, port: Id, network: Id, id: Id)
    requires LawfulGatewayOwner(env.own) && id !in floatingIPs && network != ""
    requires FloatingIPStateOf(env, floatingIPs, port, network) == Missing
    ensures FloatingIPStateOf(env, floatingIPs[id := NewFloatingIP(env, port, network)], port, network) == AsRequired
  {
    var floatingIPs' := floatingIPs[id := NewFloatingIP(env, port, network)];
    assert FloatingIPsOf(floatingIPs, port) == {};
    assert FloatingIPsOf(floatingIPs', port) == {id};
    assert FloatingIPTrusted(env, port, floatingIPs'[id]);
  }

  lemma DroppedFloatingIP(env: Env, floatingIPs: map<Id, FloatingIP>, port: Id, f: Id)
    requires FloatingIPStateOf(env, floatingIPs, port, "") == Superfluous(f)
    ensures var floatingIPs' := floatingIPs - {f};
            var state := FloatingIPStateOf(env, floatingIPs', port, "");
            !state.Unusable? && FloatingIPCost(state, floatingIPs', port) < FloatingIPCost(Superfluous(f), floatingIPs, port)
  {
    hide FloatingIPTrusted;
    var floatingIPs' := floatingIPs - {f};
    assert FloatingIPsOf(floatingIPs', port) == FloatingIPsOf(floatingIPs, port) - {f};
  }

  lemma StateKinds(env: Env, floatingIPs: map<Id, FloatingIP>, port: Id, network: Id)
    ensures var state := FloatingIPStateOf(env, floatingIPs, port, network);
            (state.Missing? ==> network != "") && (state.Superfluous? ==> network == "")
  {
  }

  lemma SameTreeWithFloatingIPs(env: Env, spec: GatewaySpec, st: Store, st': Store, lb: Id)
    requires InPlace(env, spec, st, lb) && NothingBeneath(st, lb) && st' == st.(floatingIPs := st'.floatingIPs)
    ensures InPlace(env, spec, st', lb) && NothingBeneath(st', lb)
  {
    hide FindLoadBalancer, FindListener, GatewayTreeOk, Blank;
    SameTree(env, st, st', lb);
  }

  lemma FloatingIPStep(env: Env, spec: GatewaySpec, st: Store, lb: Id, choice: Choice)
    requires LawfulGatewayOwner(env.own) && Provisionable(env, spec, st, lb) && Fresh(st, choice.id)
    requires FloatingIPs(env, spec, st, lb) != AsRequired
    ensures var r := EnsureGatewayAt(env, spec, st, lb, choice); r.outcome == Progressing && Closer(env, spec, st, r.store, lb)
  {
    hide LawfulGatewayOwner, FindLoadBalancer, FindListener, FloatingIPStateOf, GatewayTreeOk, NothingBeneath, Blank, NewFloatingIP;
    var port := st.loadBalancers[lb].vipPort;
    var r := EnsureGatewayAt(env, spec, st, lb, choice);
    StateKinds(env, st.floatingIPs, port, spec.externalNetwork);
    assert choice.id !in st.floatingIPs;
    SameTreeWithFloatingIPs(env, spec, st, r.store, lb);
    if FloatingIPs(env, spec, st, lb).Missing? {
      NewFloatingIPAsRequired(env, st.floatingIPs, port, spec.externalNetwork, choice.id);
    } else {
      DroppedFloatingIP(env, st.floatingIPs, port, FloatingIPs(env, spec, st, lb).first);
    }
  }

  // ----- the listener -----

  lemma NewListenerFound(env: Env, spec: GatewaySpec, listeners: map<Id, Listener>, lb: Id, id: Id)
    requires LawfulGatewayOwner(env.own) && id !in listeners && FindListener(env, listeners, lb) == Absent
    ensures var listeners' := listeners[id := NewListener(env, spec, lb)];
            ListenersOf(listeners', lb) == {id} && FindListener(env, listeners', lb) == Found(id) &&
            ListenerUsable(env, spec, listeners', lb) && ListenerCost(env, listeners', lb) == 0
  {
    var listeners' := listeners[id := NewListener(env, spec, lb)];
    assert ListenersOf(listeners', lb) == {id};
    assert ListenerManaged(env, lb, listeners'[id]);
  }

  lemma NewListenerOwned(env: Env, spec: GatewaySpec, st: Store, lb: Id, id: Id)
    requires LawfulGatewayOwner(env.own) && Fresh(st, id) && GatewayTreeOk(env, st, lb) && NothingBeneath(st, lb)
    requires ListenersOf(st.listeners[id := NewListener(env, spec, lb)], lb) == {id}
    ensures var st' := st.(listeners := st.listeners[id := NewListener(env, spec, lb)]);
            GatewayTreeOk(env, st', lb) && NothingBeneath(st', lb)
  {
    hide PoolsOwned;
    var st' := st.(listeners := st.listeners[id := NewListener(env, spec, lb)]);
    assert PoliciesOf(st.policies, id) == {};
    assert ListenerOwned(env, lb, st'.listeners[id]);
    SamePools(env, st, st', lb);
  }

  lemma NewListenerStep(env: Env, spec: GatewaySpec, st: Store, lb: Id, choice: Choice)
    requires LawfulGatewayOwner(env.own) && Provisionable(env, spec, st, lb) && Fresh(st, choice.id)
    requires FindListener(env, st.listeners, lb) == Absent
    ensures Closer(env, spec, st, st.(listeners := st.listeners[choice.id := NewListener(env, spec, lb)]), lb)
  {
    hide LawfulGatewayOwner, FindLoadBalancer, FindListener, FloatingIPStateOf, GatewayTreeOk, NothingBeneath, Blank, NewListener,
         FloatingIPCost, ListenerUsable;
    assert choice.id !in st.listeners;
    hide Fresh;
    NewListenerFound(env, spec, st.listeners, lb, choice.id);
    NewListenerOwned(env, spec, st, lb, choice.id);
    assert ListenerCost(env, st.listeners, lb) == 1;
  }

  lemma RaisedListenerFound(env: Env, spec: GatewaySpec, listeners: map<Id, Listener>, lb: Id, l: Id)
    requires FindListener(env, listeners, lb) == Found(l) && l in listeners && ListenerUsable(env, spec, listeners, lb)
    ensures var listeners' := listeners[l := listeners[l].(up := true)];
            ListenersOf(listeners', lb) == {l} && FindListener(env, listeners', lb) == Found(l) &&
            ListenerUsable(env, spec, listeners', lb) && ListenerCost(env, listeners', lb) == 0
  {
    var listeners' := listeners[l := listeners[l].(up := true)];
    assert ListenersOf(listeners', lb) == ListenersOf(listeners, lb) == {l};
    assert ListenerManaged(env, lb, listeners[l]);
    assert ListenerManaged(env, lb, listeners'[l]);
  }

  lemma RaisedListenerOwned(env: Env, st: Store, lb: Id, l: Id)
    requires GatewayTreeOk(env, st, lb) && NothingBeneath(st, lb) && l in ListenersOf(st.listeners, lb)
    ensures GatewayTreeOk(env, EnableListener(st, l), lb) && NothingBeneath(EnableListener(st, l), lb)
  {
    hide PoolsOwned, PoliciesOwned;
    var st' := EnableListener(st, l);
    assert ListenersOf(st'.listeners, lb) == ListenersOf(st.listeners, lb);
    forall x | x in ListenersOf(st'.listeners, lb) ensures ListenerSubtreeOwned(env, st', lb, x) {
      assert ListenerSubtreeOwned(env, st, lb, x);
    }
    SamePools(env, st, st', lb);
  }

  lemma RaiseListenerStep(env: Env, spec: GatewaySpec, st: Store, lb: Id, l: Id)
    requires Provisionable(env, spec, st, lb) && FindListener(env, st.listeners, lb) == Found(l) && l in st.listeners
    requires !st.listeners[l].up
    ensures Closer(env, spec, st, EnableListener(st, l), lb)
  {
    hide FindLoadBalancer, FindListener, FloatingIPStateOf, GatewayTreeOk, NothingBeneath, Blank, FloatingIPCost, ListenerUsable;
    RaisedListenerFound(env, spec, st.listeners, lb, l);
    RaisedListenerOwned(env, st, lb, l);
  }

  // ----- the load balancer -----

  lemma RaisedLoadBalancerFound(env: Env, lbs: map<Id, LoadBalancer>, lb: Id)
    requires FindLoadBalancer(env, lbs) == Found(lb) && lb in lbs
    ensures FindLoadBalancer(env, lbs[lb := lbs[lb].(up := true)]) == Found(lb)
  {
    assert ListedLoadBalancers(env.own, lbs[lb := lbs[lb].(up := true)]) == ListedLoadBalancers(env.own, lbs);
  }

  lemma SameTreeWithLoadBalancers(env: Env, st: Store, st': Store, lb: Id)
    requires st' == st.(loadBalancers := st'.loadBalancers)
    ensures GatewayTreeOk(env, st', lb) <==> GatewayTreeOk(env, st, lb)
    ensures NothingBeneath(st', lb) <==> NothingBeneath(st, lb)
  {
    hide ListenerOwned, PoliciesOwned, PoolsOwned;
    SamePools(env, st, st', lb);
    assert forall l :: l in st.listeners ==> (ListenerSubtreeOwned(env, st', lb, l) <==> ListenerSubtreeOwned(env, st, lb, l));
  }

  lemma RaiseLoadBalancerStep(env: Env, spec: GatewaySpec, st: Store, lb: Id)
    requires Provisionable(env, spec, st, lb) && lb in st.loadBalancers && !st.loadBalancers[lb].up
    ensures Closer(env, spec, st, EnableLoadBalancer(st, lb), lb)
  {
    hide FindLoadBalancer, FindListener, FloatingIPStateOf, GatewayTreeOk, NothingBeneath, Blank, FloatingIPCost, ListenerUsable;
    RaisedLoadBalancerFound(env, st.loadBalancers, lb);
    SameTreeWithLoadBalancers(env, st, EnableLoadBalancer(st, lb), lb);
  }

  /** A created load balancer is the one the next call finds, and once it is active
      the Gateway can be provisioned beneath it. */
  lemma CreatedLoadBalancer(env: Env, spec: GatewaySpec, st: Store, choice: Choice)
    requires LawfulGatewayOwner(env.own) && Fresh(st, choice.id) && SpecValid(spec)
    requires FindLoadBalancer(env, st.loadBalancers) == Absent
    ensures var st' := EnsureGatewayResult(env, spec, st, choice).store;
            choice.id in st'.loadBalancers && FindLoadBalancer(env, st'.loadBalancers) == Found(choice.id) &&
            var active := st'.(loadBalancers := st'.loadBalancers[choice.id := st'.loadBalancers[choice.id].(status := Active)]);
            InPlace(env, spec, active, choice.id) && NothingBeneath(active, choice.id)
  {
    hide Blank, FindLoadBalancer, GatewayTreeOk, NothingBeneath, ListenerUsable;
    var id := choice.id;
    assert id !in st.loadBalancers;
    var record := NewLoadBalancer(env, spec, choice);
    NewLoadBalancerFound(env, spec, st.loadBalancers, choice, record);
    NewLoadBalancerFound(env, spec, st.loadBalancers, choice, record.(status := Active));
    var st' := EnsureGatewayResult(env, spec, st, choice).store;
    assert st'.loadBalancers[id := record.(status := Active)] == st.loadBalancers[id := record.(status := Active)];
    NothingBeneathFresh(env, spec, st, st'.(loadBalancers := st'.loadBalancers[id := record.(status := Active)]), id);
  }

  lemma NothingBeneathFresh(env: Env, spec: GatewaySpec, st: Store, st': Store, id: Id)
    requires Fresh(st, id) && st' == st.(loadBalancers := st'.loadBalancers)
    ensures GatewayTreeOk(env, st', id) && NothingBeneath(st', id) && ListenerUsable(env, spec, st'.listeners, id)
  {
    assert ListenersOf(st.listeners, id) == {} && PoolsOf(st.pools, id) == {};
  }

  lemma NewLoadBalancerFound(env: Env, spec: GatewaySpec, lbs: map<Id, LoadBalancer>, choice: Choice, record: LoadBalancer)
    requires LawfulGatewayOwner(env.own) && choice.id !in lbs && FindLoadBalancer(env, lbs) == Absent
    requires record.tags == env.own.gatewayTags(LoadBalancerRole) && record.project == env.project
    ensures FindLoadBalancer(env, lbs[choice.id := record]) == Found(choice.id)
  {
    assert ListedLoadBalancers(env.own, lbs) == {};
    assert ListedLoadBalancers(env.own, lbs[choice.id := record]) == {choice.id};
  }

  // ----- whole runs -----

  /** Every call on a provisionable Gateway reports Ready and writes nothing, or
      gets strictly closer and keeps the Gateway provisionable. */
  lemma GatewayCallProgress(env: Env, spec: GatewaySpec, st: Store, lb: Id, choice: Choice)
    requires LawfulGatewayOwner(env.own) && Provisionable(env, spec, st, lb) && Fresh(st, choice.id)
    ensures lb in st.loadBalancers
    ensures var r := EnsureGatewayResult(env, spec, st, choice);
            r == Result(st, Ready) || (r.outcome == Progressing && Closer(env, spec, st, r.store, lb))
  {
    hide LawfulGatewayOwner, FindLoadBalancer, FindListener, FloatingIPStateOf, GatewayTreeOk, NothingBeneath, Blank, NewListener,
         NewFloatingIP, HasRouteResources, Closer, Fresh, EnableListener, EnableLoadBalancer;
    RouteResourcesBeneath(st, lb);
    var l := FindListener(env, st.listeners, lb);
    if FloatingIPs(env, spec, st, lb) != AsRequired {
      FloatingIPStep(env, spec, st, lb, choice);
    } else if l.Absent? {
      NewListenerStep(env, spec, st, lb, choice);
    } else if !st.listeners[l.id].up {
      RaiseListenerStep(env, spec, st, lb, l.id);
    } else if !st.loadBalancers[lb].up {
      RaiseLoadBalancerStep(env, spec, st, lb);
    }
  }

  /** No call is left exactly when listener, Floating IP and admin states are as
      required, which is exactly when a call reports Ready. */
  lemma NothingRemains(env: Env, spec: GatewaySpec, st: Store, lb: Id, choice: Choice)
    requires Provisionable(env, spec, st, lb) && lb in st.loadBalancers
    ensures GatewayRemaining(env, spec, st, lb) == 0 <==> AllUp(env, st, lb) && FloatingIPs(env, spec, st, lb) == AsRequired
    ensures GatewayRemaining(env, spec, st, lb) == 0 <==> EnsureGatewayResult(env, spec, st, choice).outcome == Ready
    ensures GatewayRemaining(env, spec, st, lb) == 0 ==> EnsureGatewayResult(env, spec, st, choice) == Result(st, Ready)
  {
    hide FindLoadBalancer, FindListener, GatewayTreeOk, NothingBeneath, Blank, EnsureGatewayResult, ListenerUsable, FloatingIPStateOf;
    EnsureGatewayReady(env, spec, st, choice);
    SuperfluousCounts(env, st.floatingIPs, st.loadBalancers[lb].vipPort, spec.externalNetwork);
    assert forall other :: InPlace(env, spec, st, other) ==> other == lb;
    Isolation.OnlyProgressWrites(env, Isolation.EnsureGatewayOp(spec, choice), st);
  }

  lemma SuperfluousCounts(env: Env, floatingIPs: map<Id, FloatingIP>, port: Id, network: Id)
    ensures var state := FloatingIPStateOf(env, floatingIPs, port, network);
            FloatingIPCost(state, floatingIPs, port) == 0 <==> state == AsRequired
  {
    hide FloatingIPTrusted;
  }

  /** One moment of a run: a call with what the cloud would decide in it, or a
      change of the load balancer's status. */
  datatype Event = Call(choice: Choice) | Becomes(status: Status)

  ghost function After(env: Env, spec: GatewaySpec, lb: Id, st: Store, event: Event): Store
  {
    match event
    case Call(choice) => EnsureGatewayResult(env, spec, st, choice).store
    case Becomes(status) => if lb in st.loadBalancers then WithStatus(st, lb, status) else st
  }

  ghost function EnsureGatewayRun(env: Env, spec: GatewaySpec, lb: Id, st: Store, events: seq<Event>): Store
    decreases |events|
  {
    if events == [] then st else EnsureGatewayRun(env, spec, lb, After(env, spec, lb, st, events[0]), events[1..])
  }

  ghost predicate EventsFresh(env: Env, spec: GatewaySpec, lb: Id, st: Store, events: seq<Event>)
    decreases |events|
  {
    events == [] ||
    ((events[0].Call? ==> Fresh(st, events[0].choice.id)) &&
     EventsFresh(env, spec, lb, After(env, spec, lb, st, events[0]), events[1..]))
  }

  /** The calls of a run that find the load balancer active. */
  ghost function ActingCalls(env: Env, spec: GatewaySpec, lb: Id, st: Store, events: seq<Event>): nat
    decreases |events|
  {
    if events == [] then 0
    else
      (if events[0].Call? && Acts(st, lb) then 1 else 0) +
      ActingCalls(env, spec, lb, After(env, spec, lb, st, events[0]), events[1..])
  }

  /** Provisionable whenever the load balancer is active. */
  ghost predicate Awaiting(env: Env, spec: GatewaySpec, st: Store, lb: Id)
  {
    lb in st.loadBalancers && Provisionable(env, spec, Rested(st, lb), lb)
  }

  /** A call that finds the load balancer pending or broken changes nothing. */
  lemma IdleCall(env: Env, spec: GatewaySpec, st: Store, lb: Id, choice: Choice)
    requires Awaiting(env, spec, st, lb) && !Acts(st, lb)
    ensures EnsureGatewayResult(env, spec, st, choice).store == st
  {
    hide FindLoadBalancer, GatewayTreeOk, NothingBeneath, Blank, ListenerUsable, FloatingIPs, EnsureGatewayAt;
    StatusKeepsFound(env, st, lb, Active);
  }

  /** Any event keeps the Gateway provisionable, and no event but an acting call
      changes how many calls remain. */
  lemma EventProgress(env: Env, spec: GatewaySpec, st: Store, lb: Id, event: Event)
    requires LawfulGatewayOwner(env.own) && Awaiting(env, spec, st, lb) && (event.Call? ==> Fresh(st, event.choice.id))
    ensures var st' := After(env, spec, lb, st, event);
            Awaiting(env, spec, st', lb) &&
            var left, left' := GatewayRemaining(env, spec, st, lb), GatewayRemaining(env, spec, st', lb);
            if event.Call? && Acts(st, lb) then left' < left || left' == left == 0 else left' == left
  {
    hide LawfulGatewayOwner, Provisionable, Fresh, EnsureGatewayResult, FloatingIPStateOf, FloatingIPCost, ListenerCost, FindListener;
    match event {
      case Becomes(status) =>
        assert Rested(WithStatus(st, lb, status), lb) == Rested(st, lb);
      case Call(choice) =>
        if Acts(st, lb) {
          GatewayCallProgress(env, spec, st, lb, choice);
          NothingRemains(env, spec, st, lb, choice);
          var st' := EnsureGatewayResult(env, spec, st, choice).store;
          StillThere(env, spec, st', lb);
          assert Rested(st', lb) == st';
        } else {
          IdleCall(env, spec, st, lb, choice);
        }
    }
  }

  /** With a status that may change at any moment: every run on a provisionable
      Gateway stays so, and once it holds as many acting calls as remained, listener,
      Floating IP and admin states are as required and the next acting call reports
      Ready. */
  lemma {:induction false} EnsureGatewayTerminates(env: Env, spec: GatewaySpec, st: Store, lb: Id, events: seq<Event>)
    requires LawfulGatewayOwner(env.own) && Awaiting(env, spec, st, lb) && EventsFresh(env, spec, lb, st, events)
    ensures var final := EnsureGatewayRun(env, spec, lb, st, events);
            Awaiting(env, spec, final, lb) &&
            (ActingCalls(env, spec, lb, st, events) >= GatewayRemaining(env, spec, st, lb) ==>
              var a := Rested(final, lb);
              InPlace(env, spec, a, lb) && AllUp(env, a, lb) && FloatingIPs(env, spec, a, lb) == AsRequired &&
              forall choice :: EnsureGatewayResult(env, spec, a, choice) == Result(a, Ready))
    decreases |events|
  {
    hide LawfulGatewayOwner, InPlace, NothingBeneath, AllUp, FloatingIPs, GatewayRemaining, Fresh, EnsureGatewayResult;
    if events == [] {
      SameRemaining(env, spec, st, lb);
      forall choice | GatewayRemaining(env, spec, st, lb) == 0
        ensures var a := Rested(st, lb);
                EnsureGatewayResult(env, spec, a, choice) == Result(a, Ready) && AllUp(env, a, lb) &&
                FloatingIPs(env, spec, a, lb) == AsRequired
      {
        NothingRemains(env, spec, Rested(st, lb), lb, choice);
      }
      var any := Choice("", "", "");
      assert GatewayRemaining(env, spec, st, lb) == 0 ==> EnsureGatewayResult(env, spec, Rested(st, lb), any).outcome == Ready;
    } else {
      EventProgress(env, spec, st, lb, events[0]);
      EnsureGatewayTerminates(env, spec, After(env, spec, lb, st, events[0]), lb, events[1..]);
    }
  }

  lemma SameRemaining(env: Env, spec: GatewaySpec, st: Store, lb: Id)
    requires lb in st.loadBalancers
    ensures GatewayRemaining(env, spec, Rested(st, lb), lb) == GatewayRemaining(env, spec, st, lb)
  {
  }

  lemma StillThere(env: Env, spec: GatewaySpec, st: Store, lb: Id)
    requires Provisionable(env, spec, st, lb)
    ensures Acts(st, lb)
  {
  }
}
