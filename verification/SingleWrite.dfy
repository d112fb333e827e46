/** No call changes more than one resource. */
module SingleWrite {
  import opened Ownership
  import opened Octavia
  import opened RouteModel
  import opened RouteTree
  import opened RoutePlan
  import opened RouteSteps
  import opened RouteDeletion
  import opened GatewayTree
  import opened GatewayDeletion
  import opened Provider
  import opened Isolation

  /** The maps agree except perhaps at one key. */
  ghost predicate OneKey<T>(m: map<Id, T>, m': map<Id, T>)
  {
    exists k :: m - {k} == m' - {k}
  }

  /** At most one resource of one kind was created, changed or removed. */
  ghost predicate OneWrite(st: Store, st': Store)
  {
    (st' == st.(loadBalancers := st'.loadBalancers) && OneKey(st.loadBalancers, st'.loadBalancers)) ||
    (st' == st.(listeners := st'.listeners) && OneKey(st.listeners, st'.listeners)) ||
    (st' == st.(floatingIPs := st'.floatingIPs) && OneKey(st.floatingIPs, st'.floatingIPs)) ||
    (st' == st.(pools := st'.pools) && OneKey(st.pools, st'.pools)) ||
    (st' == st.(members := st'.members) && OneKey(st.members, st'.members)) ||
    (st' == st.(monitors := st'.monitors) && OneKey(st.monitors, st'.monitors)) ||
    (st' == st.(policies := st'.policies) && OneKey(st.policies, st'.policies)) ||
    (st' == st.(rules := st'.rules) && OneKey(st.rules, st'.rules))
  }

  lemma KeyWritten<T>(m: map<Id, T>, k: Id, v: T)
    ensures OneKey(m, m[k := v]) && OneKey(m, m - {k}) && OneKey(m, m)
  {
    assert m - {k} == m[k := v] - {k};
    assert m - {k} == (m - {k}) - {k};
    assert m - {k} == m - {k};
  }

  lemma ExecuteWritesOnce(env: Env, d: Desired, site: Site, st: Store, m: Mutation, id: Id)
    ensures OneWrite(st, Execute(env, d, site, st, m, id))
  {
    hide OneKey, NewPool, NewMember, NewMonitor, RepairedMonitor, NewPolicy, RepairedPolicy, NewRule, RepairedRule;
    NothingWritten(st);
    match m {
      case CreatePool => KeyWritten(st.pools, id, NewPool(env, site.loadBalancer));
      case UpdatePool(p) =>
        if p in st.pools {
          KeyWritten(st.pools, p, st.pools[p].(lbMethod := RoundRobin, up := true));
        }
      case DeletePool(p) => KeyWritten(st.pools, p, NewPool(env, site.loadBalancer));
      case CreateMember(p, e) => KeyWritten(st.members, id, NewMember(env, d, p, e));
      case UpdateMember(x, _) =>
        if x in st.members {
          KeyWritten(st.members, x, st.members[x].(up := true));
        }
      case DeleteMember(x, p) => KeyWritten(st.members, x, NewMember(env, d, p, Endpoint("", 0)));
      case CreateMonitor(p) => KeyWritten(st.monitors, id, NewMonitor(env, d, p));
      case UpdateMonitor(x, _) =>
        if x in st.monitors {
          KeyWritten(st.monitors, x, RepairedMonitor(d, st.monitors[x]));
        }
      case DeleteMonitor(x, p) => KeyWritten(st.monitors, x, NewMonitor(env, d, p));
      case _ => PolicyWritesOnce(env, d, site, st, m, id);
    }
  }

  lemma PolicyWritesOnce(env: Env, d: Desired, site: Site, st: Store, m: Mutation, id: Id)
    requires m.CreatePolicy? || m.UpdatePolicy? || m.EnablePolicy? || m.DisablePolicy? || m.DeletePolicy? || m.CreateRule? ||
             m.UpdateRule? || m.DeleteRule?
    ensures OneWrite(st, Execute(env, d, site, st, m, id))
  {
    hide OneKey, NewPolicy, RepairedPolicy, NewRule, RepairedRule;
    NothingWritten(st);
    match m {
      case CreatePolicy(p, w) => KeyWritten(st.policies, id, NewPolicy(env, site.listener, p, w));
      case UpdatePolicy(x, p, w) =>
        if x in st.policies {
          KeyWritten(st.policies, x, RepairedPolicy(st.policies[x], p, w));
        }
      case EnablePolicy(x) =>
        if x in st.policies {
          KeyWritten(st.policies, x, st.policies[x].(up := true));
        }
      case DisablePolicy(x) =>
        if x in st.policies {
          KeyWritten(st.policies, x, st.policies[x].(up := false));
        }
      case DeletePolicy(x) => KeyWritten(st.policies, x, NewPolicy(env, site.listener, x, DesiredPolicy(PolicyExact, 0, EqualTo, "")));
      case CreateRule(p, w) => KeyWritten(st.rules, id, NewRule(env, p, w));
      case UpdateRule(x, _, w) =>
        if x in st.rules {
          KeyWritten(st.rules, x, RepairedRule(st.rules[x], w));
        }
      case DeleteRule(x, p) => KeyWritten(st.rules, x, NewRule(env, p, DesiredRule(RulePath, PathType, EqualTo, "")));
    }
  }

  lemma NothingWritten(st: Store)
    ensures OneWrite(st, st)
  {
    assert st.rules - {""} == st.rules - {""};
  }

  lemma Dropped<T>(m: map<Id, T>, k: Id)
    ensures OneKey(m, m - {k})
  {
    assert m - {k} == (m - {k}) - {k};
  }

  lemma RemoveWritesOnce(st: Store, m: Removal)
    ensures OneWrite(st, Remove(st, m))
  {
    hide OneKey;
    match m {
      case RemoveRule(x, _) => Dropped(st.rules, x);
      case RemovePolicy(x) => Dropped(st.policies, x);
      case RemoveMonitor(x, _) => Dropped(st.monitors, x);
      case RemoveMember(x, _) => Dropped(st.members, x);
      case RemovePool(x) => Dropped(st.pools, x);
      case RemoveListener(x) => Dropped(st.listeners, x);
      case RemoveFloatingIP(x) => Dropped(st.floatingIPs, x);
      case RemoveLoadBalancer(x) => Dropped(st.loadBalancers, x);
    }
  }

  lemma EnableWritesOnce(st: Store, lb: Id, l: Id)
    ensures lb in st.loadBalancers ==> OneWrite(st, EnableLoadBalancer(st, lb))
    ensures l in st.listeners ==> OneWrite(st, EnableListener(st, l))
  {
    hide OneKey;
    if lb in st.loadBalancers {
      KeyWritten(st.loadBalancers, lb, st.loadBalancers[lb].(up := true));
    }
    if l in st.listeners {
      KeyWritten(st.listeners, l, st.listeners[l].(up := true));
    }
  }

  lemma EnsureGatewayWritesOnce(env: Env, spec: GatewaySpec, st: Store, choice: Choice)
    ensures OneWrite(st, EnsureGatewayResult(env, spec, st, choice).store)
  {
    hide FindLoadBalancer, FindListener, FloatingIPStateOf, GatewayTreeOk, HasRouteResources, Blank, NewLoadBalancer, NewListener,
         NewFloatingIP, EnsureGatewayAdmin, OneKey;
    NothingWritten(st);
    KeyWritten(st.loadBalancers, choice.id, NewLoadBalancer(env, spec, choice));
    var found := FindLoadBalancer(env, st.loadBalancers);
    if found.Found? {
      var port := st.loadBalancers[found.id].vipPort;
      KeyWritten(st.floatingIPs, choice.id, NewFloatingIP(env, port, spec.externalNetwork));
      var state := FloatingIPStateOf(env, st.floatingIPs, port, spec.externalNetwork);
      if state.Superfluous? {
        Dropped(st.floatingIPs, state.first);
      }
      AdminWritesOnce(env, spec, st, found.id, FindListener(env, st.listeners, found.id), choice);
    }
  }

  lemma AdminWritesOnce(env: Env, spec: GatewaySpec, st: Store, lb: Id, listener: Lookup, choice: Choice)
    requires lb in st.loadBalancers && (listener.Found? ==> listener.id in st.listeners)
    ensures OneWrite(st, EnsureGatewayAdmin(env, spec, st, lb, listener, choice).store)
  {
    hide HasRouteResources, NewListener, EnableListener, EnableLoadBalancer, OneKey;
    NothingWritten(st);
    KeyWritten(st.listeners, choice.id, NewListener(env, spec, lb));
    EnableWritesOnce(st, lb, if listener.Found? then listener.id else "");
  }

  lemma EnsureRouteWritesOnce(env: Env, spec: RouteSpec, st: Store, id: Id)
    ensures OneWrite(st, EnsureRouteResult(env, spec, st, id).store)
  {
    hide DesiredFor, ViewGateway, TreeOk, GraphOf, EnsurePlan, FloatingIPStateOf, Execute, OneWrite, EnableListener,
         EnableLoadBalancer;
    NothingWritten(st);
    var d, view := DesiredFor(env.net, spec), ViewGateway(env, st, Some(spec));
    if d.Some? && view.GatewayReady? {
      ReadySite(env, st, spec, view.site);
      EnableWritesOnce(st, view.site.loadBalancer, view.site.listener);
      if TreeOk(env, st, view.site) {
        var plan := EnsurePlan(env.net, d.value, GraphOf(env, st, view.site));
        if plan.Some? && plan.value != [] {
          ExecuteWritesOnce(env, d.value, view.site, st, plan.value[0], id);
        }
      }
    }
  }

  lemma DeleteRouteWritesOnce(env: Env, st: Store)
    ensures OneWrite(st, DeleteRouteResult(env, st).store)
  {
    hide OneWrite, ViewGateway, TreeOk, GraphOf, DeletionPlan, Execute;
    NothingWritten(st);
    var view := ViewGateway(env, st, None);
    if view.GatewayReady? && TreeOk(env, st, view.site) {
      var plan := DeletionPlan(GraphOf(env, st, view.site));
      if plan != [] {
        ExecuteWritesOnce(env, NO_ROUTE, view.site, st, plan[0], "");
      }
    }
  }

  /** Whatever the operation, the identity and the state of the cloud, one call
      creates, changes or removes at most one resource. */
  lemma OperationWritesOnce(env: Env, op: Operation, st: Store)
    ensures OneWrite(st, Perform(env, op, st).store)
  {
    hide OneWrite, EnsureGatewayResult, EnsureRouteResult, FindLoadBalancer, ViewGateway, TreeOk, GraphOf, DeletionPlan, Execute,
         Deletable, FullPlan, Remove;
    NothingWritten(st);
    match op {
      case EnsureGatewayOp(spec, choice) => EnsureGatewayWritesOnce(env, spec, st, choice);
      case EnsureRouteOp(spec, id) => EnsureRouteWritesOnce(env, spec, st, id);
      case DeleteRouteOp => DeleteRouteWritesOnce(env, st);
      case DeleteGatewayOp =>
        var found := FindLoadBalancer(env, st.loadBalancers);
        if found.Found? {
          RemoveWritesOnce(st, FullPlan(st, found.id)[0]);
        }
    }
  }
}
