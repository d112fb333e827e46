/** Which HTTPRoute owns a Gateway's single slot: the supported route profile, the
    precedence between candidates, and the lookup of candidates. */
module RouteSelection {
  import opened Order
  import opened Ownership
  import opened Octavia
  import opened RouteModel
  import opened Kube
  import opened RouteBinding

  // ----- routes and services -----

  datatype ParentRef = ParentRef(
    group: Option<string>, kind: Option<string>, namespace: Option<string>, name: string,
    sectionName: Option<string>, port: Option<int>)

  datatype PathSpec = PathSpec(pathType: Option<string>, value: Option<string>)

  datatype MatchSpec = MatchSpec(headers: nat, queryParams: nat, methodSet: bool, path: Option<PathSpec>)

  datatype BackendRef = BackendRef(
    filters: nat, weight: Option<int>, group: Option<string>, kind: Option<string>, namespace: Option<string>,
    name: string, port: Option<int>)

  datatype RuleSpec = RuleSpec(
    named: bool, filters: nat, timeouts: bool, retry: bool, sessionPersistence: bool,
    matches: seq<MatchSpec>, backends: seq<BackendRef>)

  datatype Route = Route(
    meta: RouteMeta, generation: int, resourceVersion: string, deleting: bool, created: int,
    parents: seq<ParentRef>, hostnames: seq<string>, rules: seq<RuleSpec>)

  datatype ServicePort = ServicePort(port: int, protocol: string, appProtocol: Option<string>, nodePort: int)

  datatype Service = Service(nodePortType: bool, ports: seq<ServicePort>)

  type Services = map<Key, Service>

  // ----- the supported profile -----

  predicate Contains(s: string, sub: string)
  {
    exists i :: 0 <= i <= |s| && sub <= s[i..]
  }

  predicate EndsWith(s: string, suffix: string)
  {
    |suffix| <= |s| && s[|s| - |suffix|..] == suffix
  }

  predicate ValidHTTPPath(value: string)
  {
    "/" <= value && !Contains(value, "//") && !Contains(value, "/./") && !Contains(value, "/../") &&
    value != "/." && value != "/.." && !EndsWith(value, "/.") && !EndsWith(value, "/..")
  }

  datatype PathChoice = PathChoice(pathType: PathMatch, value: string)

  function OrElse(o: Option<string>, default: string): string
  {
    if o.Some? then o.value else default
  }

  function SupportedMatch(matches: seq<MatchSpec>): (r: Option<PathChoice>)
    ensures r.Some? ==> !r.value.pathType.OtherMatch? && r.value.value != "" && r.value.value[0] == '/'
  {
    if matches == [] then Some(PathChoice(PrefixMatch, "/"))
    else if |matches| != 1 then None
    else
      var m := matches[0];
      if m.headers != 0 || m.queryParams != 0 || m.methodSet then None
      else
        var pathType := if m.path.Some? then OrElse(m.path.value.pathType, "PathPrefix") else "PathPrefix";
        var value := if m.path.Some? then OrElse(m.path.value.value, "/") else "/";
        if !ValidHTTPPath(value) then None
        else if pathType == "Exact" then Some(PathChoice(ExactMatch, value))
        else if pathType == "PathPrefix" then Some(PathChoice(PrefixMatch, value))
        else None
  }

  predicate PlainRule(rule: RuleSpec)
  {
    !rule.named && rule.filters == 0 && !rule.timeouts && !rule.retry && !rule.sessionPersistence
  }

  predicate PlainBackend(namespace: string, b: BackendRef)
  {
    b.filters == 0 && b.weight != Some(0) && (b.group.None? || b.group.value == "") &&
    (b.kind.None? || b.kind.value == "Service") && OrElse(b.namespace, namespace) == namespace && b.port.Some?
  }

  predicate ExactHostname(route: Route)
  {
    |route.hostnames| == 0 || (|route.hostnames| == 1 && !("*." <= route.hostnames[0]))
  }

  predicate StructurallySupported(route: Route)
  {
    |route.parents| == 1 && ExactHostname(route) && |route.rules| == 1 && PlainRule(route.rules[0]) &&
    |route.rules[0].backends| == 1 && SupportedMatch(route.rules[0].matches).Some? &&
    PlainBackend(route.meta.namespace, route.rules[0].backends[0])
  }

  datatype PortChoice = PortFound(nodePort: int) | PortRejected | PortPending

  predicate Acceptable(p: ServicePort)
  {
    (p.protocol == "" || p.protocol == "TCP") &&
    (p.appProtocol.None? || p.appProtocol.value == "http" || p.appProtocol.value == "kubernetes.io/http") && p.nodePort != 0
  }

  /** The first service port with the number decides. */
  function NodePortFor(ports: seq<ServicePort>, port: int): (r: PortChoice)
    ensures r.PortPending? <==> forall i :: 0 <= i < |ports| ==> ports[i].port != port
  {
    if ports == [] then PortPending
    else if ports[0].port != port then NodePortFor(ports[1..], port)
    else if Acceptable(ports[0]) then PortFound(ports[0].nodePort)
    else PortRejected
  }

  method NodePortForBackend(ports: seq<ServicePort>, port: int) returns (r: PortChoice)
    ensures r == NodePortFor(ports, port)
  {
    for i := 0 to |ports|
      invariant NodePortFor(ports[i..], port) == NodePortFor(ports, port)
    {
      assert ports[i..][0] == ports[i] && ports[i..][1..] == ports[i + 1..];
      if ports[i].port != port {
        continue;
      }
      return if Acceptable(ports[i]) then PortFound(ports[i].nodePort) else PortRejected;
    }
    r := PortPending;
  }

  /** A missing Service or port keeps the slot; a Service that can never serve the
      route does not. */
  predicate CanReserve(services: Services, route: Route)
    requires StructurallySupported(route)
  {
    var backend := route.rules[0].backends[0];
    var key := Key(route.meta.namespace, backend.name);
    key !in services ||
    (services[key].nodePortType && !NodePortFor(services[key].ports, backend.port.value).PortRejected?)
  }

  // ----- the desired specification -----

  /** The outcome of building a route specification: rejected by its own content or
      by the state of its backend, without its Service, or complete. */
  datatype Built = Rejected | NoService | BuiltSpec(spec: RouteSpec)

  datatype Settings = Settings(provider: string, vipSubnet: string, externalNetwork: Id, memberSubnet: string, healthPath: string)

  /** `members` stands for the member lookup over EndpointSlices and Nodes. */
  function BuildSpec(
    settings: Settings, services: Services, members: (Service, int) -> Option<seq<Endpoint>>, route: Route, listenerPort: int): Built
  {
    if !ExactHostname(route) || |route.rules| != 1 || !PlainRule(route.rules[0]) then Rejected
    else
      var rule := route.rules[0];
      var path := SupportedMatch(rule.matches);
      if path.None? || |rule.backends| != 1 || !PlainBackend(route.meta.namespace, rule.backends[0]) then Rejected
      else
        var key := Key(route.meta.namespace, rule.backends[0].name);
        if key !in services then NoService
        else if !services[key].nodePortType then Rejected
        else
          var port := NodePortFor(services[key].ports, rule.backends[0].port.value);
          if !port.PortFound? then Rejected
          else
            var endpoints := members(services[key], port.nodePort);
            if endpoints.None? then Rejected
            else
              BuiltSpec(RouteSpec(
                "", "", settings.provider, settings.vipSubnet, settings.externalNetwork, listenerPort,
                settings.memberSubnet, settings.healthPath,
                if route.hostnames == [] then "" else route.hostnames[0],
                path.value.pathType, path.value.value, endpoints.value))
  }

  /** A specification can be built only for a structurally supported route that may
      hold the slot, and its path satisfies what path compilation asks for. */
  lemma BuiltIsSupported(
    settings: Settings, services: Services, members: (Service, int) -> Option<seq<Endpoint>>, route: Route, listenerPort: int)
    requires |route.parents| == 1 && BuildSpec(settings, services, members, route, listenerPort).BuiltSpec?
    ensures StructurallySupported(route) && CanReserve(services, route)
    ensures var spec := BuildSpec(settings, services, members, route, listenerPort).spec;
            !spec.pathType.OtherMatch? && spec.pathValue != "" && spec.pathValue[0] == '/'
  {
  }

  // ----- parents -----

  predicate IsGatewayRef(ref: ParentRef)
  {
    OrElse(ref.group, GATEWAY_GROUP) == GATEWAY_GROUP && OrElse(ref.kind, "Gateway") == "Gateway"
  }

  function TargetOf(ref: ParentRef, namespace: string): Key
  {
    Key(OrElse(ref.namespace, namespace), ref.name)
  }

  predicate SameTarget(a: ParentRef, aNamespace: string, b: ParentRef, bNamespace: string)
  {
    OrElse(a.group, GATEWAY_GROUP) == OrElse(b.group, GATEWAY_GROUP) && OrElse(a.kind, "Gateway") == OrElse(b.kind, "Gateway") &&
    TargetOf(a, aNamespace) == TargetOf(b, bNamespace)
  }

  predicate AllowsHTTPRoutes(allowed: AllowedRoutes)
  {
    (allowed.kinds == [] || exists i :: 0 <= i < |allowed.kinds| && IsHTTPRouteKind(allowed.kinds[i])) &&
    (allowed.from.None? || allowed.from.value == "Same")
  }

  /** The route may attach to this listener of this Gateway. */
  predicate ParentOk(route: Route, ref: ParentRef, gateway: Gateway, listener: Option<ListenerSpec>)
  {
    !gateway.deleting && gateway.namespace == route.meta.namespace && listener.Some? &&
    listener.value.protocol == "HTTP" && !listener.value.tls &&
    (ref.sectionName.None? || ref.sectionName.value == listener.value.name) &&
    (ref.port.None? || ref.port.value == listener.value.port) &&
    (listener.value.allowed.None? || AllowsHTTPRoutes(listener.value.allowed.value))
  }

  // ----- selection -----

  /** Older first, then by name. */
  predicate Precedes(a: Route, b: Route)
  {
    if a.created != b.created then a.created < b.created
    else StrLess(a.meta.namespace + "/" + a.meta.name, b.meta.namespace + "/" + b.meta.name)
  }

  /** The Gateway for which routes compete, as one of them references it. */
  datatype Contest = Contest(gateway: Gateway, listener: Option<ListenerSpec>, ref: ParentRef, namespace: string)

  predicate Eligible(services: Services, contest: Contest, c: Route)
  {
    !c.deleting && |c.parents| == 1 && SameTarget(c.parents[0], c.meta.namespace, contest.ref, contest.namespace) &&
    ParentOk(c, c.parents[0], contest.gateway, contest.listener) && StructurallySupported(c) && CanReserve(services, c)
  }

  /** No other eligible route precedes this one. */
  predicate Selected(services: Services, contest: Contest, routes: seq<Route>, route: Route)
  {
    forall i :: 0 <= i < |routes| && routes[i].meta.name != route.meta.name && Eligible(services, contest, routes[i]) ==>
      !Precedes(routes[i], route)
  }

  lemma SameNamespaceOrder(ns: string, a: string, b: string)
    ensures StrLess(ns + "/" + a, ns + "/" + b) <==> StrLess(a, b)
    decreases |ns|
  {
    var x, y := ns + "/" + a, ns + "/" + b;
    if ns == "" {
      assert x[1..] == a && y[1..] == b;
    } else {
      assert x[1..] == ns[1..] + "/" + a && y[1..] == ns[1..] + "/" + b;
      SameNamespaceOrder(ns[1..], a, b);
    }
  }

  /** Within one namespace: the older route first, then the lesser name. */
  lemma OldestFirst(a: Route, b: Route)
    requires a.meta.namespace == b.meta.namespace
    ensures Precedes(a, b) <==>
            a.created < b.created || (a.created == b.created && StrLess(a.meta.name, b.meta.name))
  {
    SameNamespaceOrder(a.meta.namespace, a.meta.name, b.meta.name);
  }

  /** Within one namespace precedence is a strict total order on names. */
  lemma PrecedenceOrder(a: Route, b: Route, c: Route)
    requires a.meta.namespace == b.meta.namespace == c.meta.namespace
    ensures !Precedes(a, a)
    ensures Precedes(a, b) && Precedes(b, c) ==> Precedes(a, c)
    ensures a.meta.name != b.meta.name ==> Precedes(a, b) || Precedes(b, a)
    ensures !(Precedes(a, b) && Precedes(b, a))
  {
    var ns := a.meta.namespace;
    var na, nb, nc := a.meta.name, b.meta.name, c.meta.name;
    SameNamespaceOrder(ns, na, na);
    SameNamespaceOrder(ns, na, nb);
    SameNamespaceOrder(ns, nb, na);
    SameNamespaceOrder(ns, nb, nc);
    SameNamespaceOrder(ns, na, nc);
    StrIrreflexive(na);
    if StrLess(na, nb) && StrLess(nb, nc) {
      StrTransitive(na, nb, nc);
    }
    if StrLess(na, nb) && StrLess(nb, na) {
      StrTransitive(na, nb, na);
    }
    StrTotal(na, nb);
  }

  /** The listing as the controller scans it, keeping the best candidate so far. */
  method IsSelectedRoute(services: Services, contest: Contest, routes: seq<Route>, route: Route) returns (r: bool)
    requires forall i :: 0 <= i < |routes| ==> routes[i].meta.namespace == route.meta.namespace
    ensures r == Selected(services, contest, routes, route)
  {
    hide Eligible, Precedes;
    var winner := route;
    for i := 0 to |routes|
      invariant winner.meta.namespace == route.meta.namespace
      invariant winner == route || (winner.meta.name != route.meta.name && Precedes(winner, route))
      invariant winner != route ==>
        exists j :: 0 <= j < i && routes[j].meta.name != route.meta.name && Eligible(services, contest, routes[j]) &&
          Precedes(routes[j], route)
      invariant winner == route ==>
        forall j :: 0 <= j < i && routes[j].meta.name != route.meta.name && Eligible(services, contest, routes[j]) ==>
          !Precedes(routes[j], route)
    {
      var candidate := routes[i];
      if candidate.meta.name == route.meta.name || !Eligible(services, contest, candidate) {
        continue;
      }
      if Precedes(candidate, winner) {
        PrecedenceOrder(candidate, winner, route);
        winner := candidate;
      }
    }
    r := winner.meta.name == route.meta.name;
  }

  // ----- exactly one winner -----

  function ContestOf(gateway: Gateway, listener: Option<ListenerSpec>, route: Route): Contest
    requires |route.parents| == 1
  {
    Contest(gateway, listener, route.parents[0], route.meta.namespace)
  }

  /** The route considers itself selected for the Gateway. */
  predicate Wins(services: Services, gateway: Gateway, listener: Option<ListenerSpec>, routes: seq<Route>, route: Route)
  {
    |route.parents| == 1 && Selected(services, ContestOf(gateway, listener, route), routes, route)
  }

  /** All routes that reference the same Gateway see the same field of candidates. */
  lemma SameField(services: Services, a: Contest, b: Contest, c: Route)
    requires a.gateway == b.gateway && a.listener == b.listener && SameTarget(a.ref, a.namespace, b.ref, b.namespace)
    ensures Eligible(services, a, c) <==> Eligible(services, b, c)
  {
    hide ParentOk, StructurallySupported, CanReserve;
  }

  lemma EligibleContest(services: Services, contest: Contest, r: Route)
    requires Eligible(services, contest, r)
    ensures |r.parents| == 1
    ensures forall c :: Eligible(services, ContestOf(contest.gateway, contest.listener, r), c) <==> Eligible(services, contest, c)
  {
    hide ParentOk, StructurallySupported, CanReserve;
    forall c ensures Eligible(services, ContestOf(contest.gateway, contest.listener, r), c) <==> Eligible(services, contest, c) {
      SameField(services, ContestOf(contest.gateway, contest.listener, r), contest, c);
    }
  }

  /** A listing of one namespace: names are distinct. */
  predicate OneNamespace(routes: seq<Route>)
  {
    (forall i, j :: 0 <= i < |routes| && 0 <= j < |routes| ==> routes[i].meta.namespace == routes[j].meta.namespace) &&
    (forall i, j :: 0 <= i < j < |routes| ==> routes[i].meta.name != routes[j].meta.name)
  }

  /** Among eligible routes there is a first one. */
  lemma {:induction false} FirstEligible(services: Services, contest: Contest, routes: seq<Route>, n: nat) returns (w: int)
    requires OneNamespace(routes) && n <= |routes|
    ensures w == -1 ==> forall i :: 0 <= i < n ==> !Eligible(services, contest, routes[i])
    ensures w != -1 ==> 0 <= w < n && Eligible(services, contest, routes[w])
    ensures w != -1 ==>
              forall i :: 0 <= i < n && Eligible(services, contest, routes[i]) && i != w ==> Precedes(routes[w], routes[i])
  {
    hide Eligible, Precedes;
    if n == 0 {
      w := -1;
    } else {
      w := FirstEligible(services, contest, routes, n - 1);
      var c := routes[n - 1];
      if Eligible(services, contest, c) {
        if w == -1 {
          w := n - 1;
        } else {
          PrecedenceOrder(c, routes[w], c);
          if Precedes(c, routes[w]) {
            forall i | 0 <= i < n - 1 && Eligible(services, contest, routes[i]) ensures Precedes(c, routes[i]) {
              PrecedenceOrder(c, routes[w], routes[i]);
            }
            w := n - 1;
          }
        }
      }
    }
  }

  /** For any listing with an eligible route, exactly one eligible route considers
      itself selected: the oldest one, and among equally old ones the first by name. */
  lemma ExactlyOneSelected(services: Services, contest: Contest, routes: seq<Route>) returns (w: int)
    requires OneNamespace(routes) && exists i :: 0 <= i < |routes| && Eligible(services, contest, routes[i])
    ensures 0 <= w < |routes| && Eligible(services, contest, routes[w])
    ensures forall i :: 0 <= i < |routes| && Eligible(services, contest, routes[i]) ==>
              (Wins(services, contest.gateway, contest.listener, routes, routes[i]) <==> i == w)
    ensures forall i :: 0 <= i < |routes| && Eligible(services, contest, routes[i]) && i != w ==>
              routes[w].created < routes[i].created ||
              (routes[w].created == routes[i].created && StrLess(routes[w].meta.name, routes[i].meta.name))
  {
    hide Eligible, Precedes;
    w := FirstEligible(services, contest, routes, |routes|);
    forall i | 0 <= i < |routes| && Eligible(services, contest, routes[i]) && i != w
      ensures routes[w].created < routes[i].created ||
              (routes[w].created == routes[i].created && StrLess(routes[w].meta.name, routes[i].meta.name))
    {
      OldestFirst(routes[w], routes[i]);
    }
    forall i | 0 <= i < |routes| && Eligible(services, contest, routes[i])
      ensures Wins(services, contest.gateway, contest.listener, routes, routes[i]) <==> i == w
    {
      EligibleContest(services, contest, routes[i]);
      PrecedenceOrder(routes[w], routes[i], routes[w]);
      if i == w {
        forall j | 0 <= j < |routes| && j != w && Eligible(services, contest, routes[j]) ensures !Precedes(routes[j], routes[w]) {
          PrecedenceOrder(routes[w], routes[j], routes[w]);
        }
      }
    }
  }

  /** The answer depends on which routes are listed, not on their order. */
  lemma OrderIrrelevant(services: Services, contest: Contest, routes: seq<Route>, others: seq<Route>, route: Route)
    requires forall c :: c in routes <==> c in others
    ensures Selected(services, contest, routes, route) <==> Selected(services, contest, others, route)
  {
    hide Eligible, Precedes;
    SelectedMeans(services, contest, routes, route);
    SelectedMeans(services, contest, others, route);
  }

  lemma SelectedMeans(services: Services, contest: Contest, routes: seq<Route>, route: Route)
    ensures Selected(services, contest, routes, route) <==>
            forall c :: c in routes && c.meta.name != route.meta.name && Eligible(services, contest, c) ==> !Precedes(c, route)
  {
    hide Eligible, Precedes;
  }

  // ----- the index -----

  function IndexText(key: Key): string
  {
    key.namespace + "/" + key.name
  }

  predicate Indexable(route: Route, ref: ParentRef)
  {
    IsGatewayRef(ref) && ref.name != "" && OrElse(ref.namespace, route.meta.namespace) != ""
  }

  function IndexKeys(route: Route): set<string>
  {
    set i | 0 <= i < |route.parents| && Indexable(route, route.parents[i]) ::
      IndexText(TargetOf(route.parents[i], route.meta.namespace))
  }

  method ParentGatewayKeys(route: Route) returns (keys: seq<string>)
    ensures keys == SortedIds(IndexKeys(route))
  {
    var found: set<string> := {};
    for i := 0 to |route.parents|
      invariant found == set j | 0 <= j < i && Indexable(route, route.parents[j]) ::
                  IndexText(TargetOf(route.parents[j], route.meta.namespace))
    {
      if Indexable(route, route.parents[i]) {
        found := found + {IndexText(TargetOf(route.parents[i], route.meta.namespace))};
      }
    }
    keys := ListIds(found);
  }

  /** The indexed listing holds the routes that carry the Gateway's key. */
  ghost predicate IsIndexedListing(routes: seq<Route>, indexed: seq<Route>, key: Key)
  {
    forall c :: c in indexed <==> c in routes && IndexText(key) in IndexKeys(c)
  }

  /** Selection over the index and over the whole namespace agree, for a route
      whose single parent reference leads to the Gateway. */
  lemma IndexAgrees(services: Services, contest: Contest, routes: seq<Route>, indexed: seq<Route>, route: Route)
    requires IsGatewayRef(contest.ref) && TargetOf(contest.ref, contest.namespace) == Key(contest.gateway.namespace, contest.gateway.name)
    requires contest.gateway.namespace != "" && contest.gateway.name != ""
    requires IsIndexedListing(routes, indexed, Key(contest.gateway.namespace, contest.gateway.name))
    ensures Selected(services, contest, indexed, route) <==> Selected(services, contest, routes, route)
  {
    SelectedMeans(services, contest, routes, route);
    SelectedMeans(services, contest, indexed, route);
    hide Selected, Precedes;
    var key := Key(contest.gateway.namespace, contest.gateway.name);
    forall c | c in routes && Eligible(services, contest, c) ensures c in indexed {
      EligibleIndexed(services, contest, c);
    }
  }

  lemma EligibleIndexed(services: Services, contest: Contest, c: Route)
    requires IsGatewayRef(contest.ref) && TargetOf(contest.ref, contest.namespace) == Key(contest.gateway.namespace, contest.gateway.name)
    requires contest.gateway.namespace != "" && contest.gateway.name != "" && Eligible(services, contest, c)
    ensures IndexText(Key(contest.gateway.namespace, contest.gateway.name)) in IndexKeys(c)
  {
    hide ParentOk, StructurallySupported, CanReserve;
    assert Indexable(c, c.parents[0]);
  }
}
