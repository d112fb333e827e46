/** What a supported HTTPRoute means, written over the route object itself, and
    that the specification built from it and the graph reconciled from that say the
    same. */
module RouteMeaning {
  import opened Ownership
  import opened Octavia
  import opened RouteModel
  import opened RouteTree
  import opened RouteTraffic
  import opened Kube
  import opened RouteSelection
  import opened Provider
  import RouteService
  import RouteContents

  // ----- the supported profile, field by field -----

  /** A path without empty, "." or ".." elements; only the last may be empty. */
  predicate CleanPath(value: string)
  {
    value != "" && value[0] == '/' && CleanLabels(Split(value[1..]))
  }

  predicate PlainMatch(m: MatchSpec)
  {
    m.headers == 0 && m.queryParams == 0 && !m.methodSet &&
    (m.path.None? ||
     (m.path.value.pathType in {None, Some("Exact"), Some("PathPrefix")} &&
      (m.path.value.value.None? || CleanPath(m.path.value.value.value))))
  }

  /** One unnamed rule without extras, with at most one match and one backend of
      the route's own namespace, and at most one hostname that is no wildcard. */
  predicate Profile(route: Route)
  {
    |route.hostnames| <= 1 && (forall h :: h in route.hostnames ==> !("*." <= h)) && |route.rules| == 1 &&
    var rule := route.rules[0];
    !rule.named && rule.filters == 0 && !rule.timeouts && !rule.retry && !rule.sessionPersistence &&
    |rule.matches| <= 1 && (forall m :: m in rule.matches ==> PlainMatch(m)) && |rule.backends| == 1 &&
    var b := rule.backends[0];
    b.filters == 0 && b.weight != Some(0) && b.group in {None, Some("")} && b.kind in {None, Some("Service")} &&
    b.namespace in {None, Some(route.meta.namespace)} && b.port.Some?
  }

  // ----- clean paths -----

  /** The first label ends at the first slash. */
  lemma {:induction false} SplitAtSlash(a: string, b: string)
    requires '/' !in a
    ensures Split(a) == [a] && Split(a + "/" + b) == [a] + Split(b)
  {
    var s := a + "/" + b;
    if a == "" {
      assert s[1..] == b;
    } else {
      assert s[1..] == a[1..] + "/" + b;
      SplitAtSlash(a[1..], b);
      assert [a[0]] + a[1..] == a;
    }
  }

  lemma {:induction false} FirstSlash(s: string) returns (k: int)
    ensures 0 <= k <= |s| && '/' !in s[..k] && (k < |s| ==> s[k] == '/')
  {
    if s == "" || s[0] == '/' {
      k := 0;
    } else {
      k := FirstSlash(s[1..]);
      k := k + 1;
      assert s[..k] == [s[0]] + s[1..][..k - 1];
    }
  }

  predicate CleanLabels(labels: seq<string>)
  {
    forall i :: 0 <= i < |labels| ==> labels[i] != "." && labels[i] != ".." && (labels[i] == "" ==> i == |labels| - 1)
  }

  /** A pattern framed by slashes occurs in "/" + a + "/" + b exactly when it is the
      first element or occurs later. */
  lemma FramedOccurs(a: string, b: string, mid: string)
    requires '/' !in a && '/' !in mid
    ensures Contains("/" + a + "/" + b, "/" + mid + "/") <==> a == mid || Contains("/" + b, "/" + mid + "/")
  {
    var s, p, n := "/" + a + "/" + b, "/" + mid + "/", |a| + 1;
    assert forall i :: 0 <= i <= |b| + 1 ==> s[i + n..] == ("/" + b)[i..];
    forall i | 0 < i < n ensures !(p <= s[i..]) {
      assert s[i..][0] == s[i] == a[i - 1];
    }
    FramedFirst(a, b, mid);
    assert s[0..] == s;
    hide Contains;
    OccursLate(s, "/" + b, n, p);
  }

  /** An occurrence is at the start, strictly inside the first part, or in the rest. */
  lemma OccursLate(s: string, rest: string, n: nat, p: string)
    requires n + |rest| == |s| && (forall i :: 0 <= i <= |rest| ==> s[i + n..] == rest[i..])
    requires forall i :: 0 < i < n ==> !(p <= s[i..])
    requires n > 0
    ensures Contains(s, p) <==> p <= s || Contains(rest, p)
  {
    assert s[0..] == s;
    if i :| 0 <= i <= |rest| && p <= rest[i..] {
      assert p <= s[i + n..];
    }
    if i :| 0 <= i <= |s| && p <= s[i..] {
      if i >= n {
        assert p <= rest[i - n..];
      }
    }
  }

  lemma FramedFirst(a: string, b: string, mid: string)
    requires '/' !in a && '/' !in mid
    ensures "/" + mid + "/" <= "/" + a + "/" + b <==> a == mid
  {
    var s, p := "/" + a + "/" + b, "/" + mid + "/";
    assert forall k :: 0 <= k < |a| ==> s[k + 1] == a[k];
    assert forall k :: 0 <= k < |mid| ==> p[k + 1] == mid[k];
    assert s[|a| + 1] == '/' && p[|mid| + 1] == '/';
    if p <= s {
      assert forall k :: 0 <= k < |p| ==> p[k] == s[k];
      assert |a| <= |mid|;
      assert |a| == |mid|;
      assert forall k :: 0 <= k < |a| ==> a[k] == s[k + 1] == p[k + 1] == mid[k];
    }
  }

  lemma EndsLater(a: string, b: string, mid: string)
    requires '/' !in mid
    ensures EndsWith("/" + a + "/" + b, "/" + mid) <==> EndsWith("/" + b, "/" + mid)
  {
    var s, p := "/" + a + "/" + b, "/" + mid;
    if |mid| <= |b| {
      assert s[|s| - |p|..] == ("/" + b)[|b| - |mid|..];
    } else {
      var k := |mid| - |b|;
      assert p[k] == mid[k - 1];
      assert |p| <= |s| ==> s[|s| - |p|..][k] == '/';
    }
  }

  lemma NotFramed(s: string, mid: string)
    requires '/' !in s
    ensures !Contains("/" + s, "/" + mid + "/")
  {
    var v, p := "/" + s, "/" + mid + "/";
    forall i | 0 <= i <= |v| ensures !(p <= v[i..]) {
      if i + |p| <= |v| {
        assert v[i..][|p| - 1] == v[i + |p| - 1] == s[i + |p| - 2];
      }
    }
  }

  lemma EndsInOneLabel(s: string, mid: string)
    requires '/' !in s
    ensures EndsWith("/" + s, "/" + mid) <==> s == mid
  {
    var v, p := "/" + s, "/" + mid;
    assert v[1..] == s && p[1..] == mid;
    if |p| < |v| {
      assert v[|v| - |p|..][0] == v[|v| - |p|] == s[|s| - |mid| - 1];
    } else if |p| == |v| {
      assert v[0..] == v;
    }
  }

  lemma OneLabel(s: string)
    requires '/' !in s
    ensures ValidHTTPPath("/" + s) <==> s != "." && s != ".."
  {
    hide Contains, EndsWith;
    Framed();
    NotFramed(s, "");
    NotFramed(s, ".");
    NotFramed(s, "..");
    EndsInOneLabel(s, ".");
    EndsInOneLabel(s, "..");
    assert ("/" + s)[1..] == s;
  }

  lemma Framed()
    ensures "/" + "" + "/" == "//" && "/" + "." + "/" == "/./" && "/" + ".." + "/" == "/../"
    ensures "/" + "." == "/." && "/" + ".." == "/.."
  {
  }

  lemma MoreLabels(a: string, b: string)
    requires '/' !in a
    ensures ValidHTTPPath("/" + a + "/" + b) <==> a != "" && a != "." && a != ".." && ValidHTTPPath("/" + b)
  {
    hide Contains, EndsWith;
    Framed();
    FramedOccurs(a, b, "");
    FramedOccurs(a, b, ".");
    FramedOccurs(a, b, "..");
    EndsLater(a, b, ".");
    EndsLater(a, b, "..");
    EndsWhole(".");
    EndsWhole("..");
    assert ("/" + a + "/" + b)[|a| + 1] == '/';
  }

  lemma EndsWhole(mid: string)
    ensures EndsWith("/" + mid, "/" + mid)
  {
  }

  lemma {:induction false} ValidIsClean(s: string)
    ensures ValidHTTPPath("/" + s) <==> CleanLabels(Split(s))
    decreases |s|
  {
    hide ValidHTTPPath;
    var k := FirstSlash(s);
    var a := s[..k];
    if k == |s| {
      assert a == s;
      SplitAtSlash(s, "");
      OneLabel(s);
      assert [s][0] == s;
    } else {
      var b := s[k + 1..];
      assert s == a + "/" + b && "/" + s == "/" + a + "/" + b;
      SplitAtSlash(a, b);
      MoreLabels(a, b);
      ValidIsClean(b);
      CleanCons(a, Split(b));
    }
  }

  lemma CleanCons(a: string, rest: seq<string>)
    requires rest != []
    ensures CleanLabels([a] + rest) <==> a != "" && a != "." && a != ".." && CleanLabels(rest)
  {
    var labels := [a] + rest;
    assert forall i :: 0 < i < |labels| ==> labels[i] == rest[i - 1];
    if CleanLabels(labels) {
      assert labels[0] == a;
      forall i | 0 <= i < |rest| ensures rest[i] != "." && rest[i] != ".." && (rest[i] == "" ==> i == |rest| - 1) {
        assert rest[i] == labels[i + 1];
      }
    }
  }

  /** The textual check accepts exactly the clean paths. */
  lemma PathCheckExact(value: string)
    ensures ValidHTTPPath(value) <==> CleanPath(value)
  {
    if value != "" && value[0] == '/' {
      assert value == "/" + value[1..];
      ValidIsClean(value[1..]);
    }
  }

  // ----- when a specification is built, and what it holds -----

  lemma MatchesExact(matches: seq<MatchSpec>)
    ensures SupportedMatch(matches).Some? <==> |matches| <= 1 && forall m :: m in matches ==> PlainMatch(m)
  {
    hide ValidHTTPPath, CleanPath;
    PathCheckExact("/");
    RootIsClean();
    if |matches| == 1 {
      var m := matches[0];
      assert m in matches;
      if m.path.Some? && m.path.value.value.Some? {
        PathCheckExact(m.path.value.value.value);
      }
    }
  }

  lemma RootIsClean()
    ensures CleanPath("/")
  {
    assert "/"[1..] == "";
    assert Split("") == [""];
  }

  /** The first port with the backend's number, acceptable for HTTP. */
  predicate FirstPort(ports: seq<ServicePort>, number: int, i: int)
  {
    0 <= i < |ports| && ports[i].port == number && (forall j :: 0 <= j < i ==> ports[j].port != number)
  }

  predicate ServesHTTP(p: ServicePort)
  {
    p.protocol in {"", "TCP"} && p.appProtocol in {None, Some("http"), Some("kubernetes.io/http")} && p.nodePort != 0
  }

  lemma {:induction false} FirstPortDecides(ports: seq<ServicePort>, number: int) returns (i: int)
    ensures if i == -1 then NodePortFor(ports, number).PortPending? && (forall j :: 0 <= j < |ports| ==> ports[j].port != number)
            else FirstPort(ports, number, i) &&
                 NodePortFor(ports, number) == (if ServesHTTP(ports[i]) then PortFound(ports[i].nodePort) else PortRejected)
  {
    if ports == [] {
      i := -1;
    } else if ports[0].port == number {
      i := 0;
    } else {
      i := FirstPortDecides(ports[1..], number);
      assert forall j :: 0 < j < |ports| ==> ports[j] == ports[1..][j - 1];
      if i != -1 {
        i := i + 1;
      }
    }
  }

  function BackendKey(route: Route): Key
    requires Profile(route)
  {
    Key(route.meta.namespace, route.rules[0].backends[0].name)
  }

  function BackendPort(route: Route): int
    requires Profile(route)
  {
    route.rules[0].backends[0].port.value
  }

  lemma ProfileExact(route: Route)
    ensures StructurallySupported(route) <==> |route.parents| == 1 && Profile(route)
    ensures Profile(route) <==>
            ExactHostname(route) && |route.rules| == 1 && PlainRule(route.rules[0]) &&
            |route.rules[0].backends| == 1 && SupportedMatch(route.rules[0].matches).Some? &&
            PlainBackend(route.meta.namespace, route.rules[0].backends[0])
  {
    hide PlainMatch, SupportedMatch, PlainBackend;
    assert |route.hostnames| == 1 ==> route.hostnames[0] in route.hostnames;
    if |route.rules| == 1 {
      MatchesExact(route.rules[0].matches);
      if |route.rules[0].backends| == 1 {
        BackendExact(route.meta.namespace, route.rules[0].backends[0]);
      }
    }
  }

  lemma BackendExact(namespace: string, b: BackendRef)
    ensures PlainBackend(namespace, b) <==>
            b.filters == 0 && b.weight != Some(0) && b.group in {None, Some("")} && b.kind in {None, Some("Service")} &&
            b.namespace in {None, Some(namespace)} && b.port.Some?
  {
  }

  /** Members for the NodePort of the backend Service's port i. */
  predicate BackedBy(
    services: Services, members: (Service, int) -> Option<seq<Endpoint>>, route: Route, i: int, endpoints: seq<Endpoint>)
    requires Profile(route)
  {
    BackendKey(route) in services &&
    var service := services[BackendKey(route)];
    service.nodePortType && FirstPort(service.ports, BackendPort(route), i) && ServesHTTP(service.ports[i]) &&
    members(service, service.ports[i].nodePort) == Some(endpoints)
  }

  /** A specification is built exactly for a route within the profile whose backend
      is a NodePort Service with members at its first port of that number; those
      members, the configured values and the listener's port are what it holds. */
  lemma BuiltExactly(
    settings: Settings, services: Services, members: (Service, int) -> Option<seq<Endpoint>>, route: Route, listenerPort: int)
    ensures var built := BuildSpec(settings, services, members, route, listenerPort);
            (built.BuiltSpec? <==> Profile(route) && exists i, e :: BackedBy(services, members, route, i, e)) &&
            (built.BuiltSpec? ==>
              var spec := built.spec;
              (exists i :: BackedBy(services, members, route, i, spec.members)) && spec.provider == settings.provider &&
              spec.vipSubnet == settings.vipSubnet && spec.externalNetwork == settings.externalNetwork &&
              spec.memberSubnet == settings.memberSubnet && spec.healthPath == settings.healthPath &&
              spec.listenerPort == listenerPort && spec.gatewayLoadBalancer == "" && spec.gatewayListener == "")
    ensures BuildSpec(settings, services, members, route, listenerPort).NoService? <==>
            Profile(route) && BackendKey(route) !in services
  {
    hide Profile, PlainRule, ExactHostname, SupportedMatch, PlainBackend, NodePortFor, ServesHTTP;
    ProfileExact(route);
    if Profile(route) && BackendKey(route) in services {
      var service := services[BackendKey(route)];
      var n := FirstPortDecides(service.ports, BackendPort(route));
      forall i, e | BackedBy(services, members, route, i, e) ensures i == n {
      }
      if n != -1 && service.nodePortType && ServesHTTP(service.ports[n]) {
        var found := members(service, service.ports[n].nodePort);
        if found.Some? {
          assert BackedBy(services, members, route, n, found.value);
        }
      }
    }
  }

  /** A route keeps its claim on the slot unless its Service exists and can never
      serve it. */
  lemma ReserveExactly(services: Services, route: Route)
    requires StructurallySupported(route)
    ensures Profile(route)
    ensures CanReserve(services, route) <==>
            (BackendKey(route) in services ==>
              var service := services[BackendKey(route)];
              service.nodePortType &&
              forall i :: FirstPort(service.ports, BackendPort(route), i) ==> ServesHTTP(service.ports[i]))
  {
    hide Profile, PlainRule, ExactHostname, SupportedMatch, PlainBackend, NodePortFor, ServesHTTP;
    ProfileExact(route);
    if BackendKey(route) in services {
      var n := FirstPortDecides(services[BackendKey(route)].ports, BackendPort(route));
      assert n != -1 ==> FirstPort(services[BackendKey(route)].ports, BackendPort(route), n);
    }
  }

  // ----- the requests an HTTPRoute accepts -----

  /** Without hostnames every host is accepted. An empty hostname, which the API
      does not admit, counts as none. */
  predicate HostAccepted(route: Route, host: string)
  {
    route.hostnames == [] || "" in route.hostnames || host in route.hostnames
  }

  /** Exact compares the whole path; otherwise, and by default, the elements of the
      value must begin the path. The default value is "/". */
  predicate PathAccepted(m: MatchSpec, path: string)
    requires path != "" && path[0] == '/'
  {
    var value := if m.path.Some? && m.path.value.value.Some? then m.path.value.value.value else "/";
    if m.path.Some? && m.path.value.pathType == Some("Exact") then path == value
    else PrefixElements(value) <= Split(path[1..])
  }

  predicate RouteAccepts(route: Route, request: Request)
    requires Absolute(request) && |route.rules| == 1
  {
    HostAccepted(route, request.host) &&
    (route.rules[0].matches == [] || exists m :: m in route.rules[0].matches && PathAccepted(m, request.path))
  }

  lemma RootAcceptsAll(path: string)
    requires path != "" && path[0] == '/'
    ensures GatewayAPIPathMatch(PrefixMatch, "/", path)
  {
    assert TrimRightSlashes("/") == "";
  }

  lemma MatchMeaning(matches: seq<MatchSpec>, path: string)
    requires SupportedMatch(matches).Some? && path != "" && path[0] == '/'
    ensures var choice := SupportedMatch(matches).value;
            GatewayAPIPathMatch(choice.pathType, choice.value, path) <==>
            matches == [] || exists m :: m in matches && PathAccepted(m, path)
  {
    hide ValidHTTPPath, PrefixElements;
    RootAcceptsAll(path);
    if |matches| == 1 {
      assert matches[0] in matches;
    }
  }

  /** The built specification accepts exactly the requests its HTTPRoute accepts. */
  lemma BuiltMeaning(
    settings: Settings, services: Services, members: (Service, int) -> Option<seq<Endpoint>>, route: Route, listenerPort: int,
    request: Request)
    requires BuildSpec(settings, services, members, route, listenerPort).BuiltSpec? && Absolute(request)
    ensures |route.rules| == 1
    ensures ValidPath(BuildSpec(settings, services, members, route, listenerPort).spec)
    ensures RouteMatches(BuildSpec(settings, services, members, route, listenerPort).spec, request) <==> RouteAccepts(route, request)
  {
    hide SupportedMatch, PlainRule, PlainBackend, NodePortFor, PathAccepted, GatewayAPIPathMatch;
    MatchMeaning(route.rules[0].matches, request.path);
  }

  /** From the HTTPRoute to the cloud: once EnsureRoute reports Ready for the
      specification built from a route, a request is routed exactly when the route
      accepts it, by one policy, to the one pool, whose members are those found for
      the backend and whose health check uses the configured path. */
  lemma ReadyServesHTTPRoute(
    env: Env, st: Store, id: Id, settings: Settings, services: Services, members: (Service, int) -> Option<seq<Endpoint>>,
    route: Route, listenerPort: int, request: Request)
    requires LawfulNet(env.net) && "" !in st.listeners && Absolute(request)
    requires BuildSpec(settings, services, members, route, listenerPort).BuiltSpec?
    requires EnsureRouteResult(env, BuildSpec(settings, services, members, route, listenerPort).spec, st, id).outcome == Ready
    ensures |route.rules| == 1
    ensures var spec := BuildSpec(settings, services, members, route, listenerPort).spec;
            exists site :: RouteService.Up(st, site) && RouteContents.AsSpecified(env, spec, st, site) &&
              (RouteAccepts(route, request) <==> exists p :: Routes(st, site.listener, p, request)) &&
              (forall p, q :: Routes(st, site.listener, p, request) && Routes(st, site.listener, q, request) ==> p == q)
  {
    hide BuildSpec, LawfulNet, EnsureRouteResult, RouteService.Serviceable, RouteContents.AsSpecified, Routes, RouteMatches,
         RouteAccepts, ValidPath;
    BuiltMeaning(settings, services, members, route, listenerPort, request);
    var spec := BuildSpec(settings, services, members, route, listenerPort).spec;
    RouteService.ReadyServes(env, spec, st, id, request);
    var site :| RouteService.Serviceable(env, spec, st, site) && RouteService.Up(st, site) &&
      (RouteMatches(spec, request) <==> exists p :: Routes(st, site.listener, p, request)) &&
      (forall p, q :: Routes(st, site.listener, p, request) && Routes(st, site.listener, q, request) ==> p == q);
    RouteContents.ReadyContentsAt(env, spec, st, id, site);
  }
}
