/** The Kubernetes objects the controllers read, the metadata keys they own, and
    the ownership identities they derive. */
module Kube {
  import opened Ownership

  type Annotations = map<string, string>

  /** The controller's fixed configuration. `controllerKey` is the digest of the
      controller name, `digest` the truncated SHA-256 used for route bindings. */
  datatype Config = Config(
    domain: string, controllerKey: string, controllerName: string, controllerVersion: string,
    project: string, cluster: string, digest: string -> string)
  {
    function GatewayFinalizer(): string { domain + "/gateway-finalizer-" + controllerKey }
    function GatewayPortKey(): string { domain + "/gateway-listener-port-" + controllerKey }
    function GatewayClusterKey(): string { domain + "/gateway-cluster-id-" + controllerKey }
    function GatewayProjectKey(): string { domain + "/gateway-project-id-" + controllerKey }
    function RouteFinalizer(): string { domain + "/httproute-finalizer-" + controllerKey }
    function RouteNamespaceKey(): string { domain + "/route-gateway-namespace-" + controllerKey }
    function RouteNameKey(): string { domain + "/route-gateway-name-" + controllerKey }
    function RouteUIDKey(): string { domain + "/route-gateway-uid-" + controllerKey }
    function RouteClusterKey(): string { domain + "/route-cluster-id-" + controllerKey }
    function RouteProjectKey(): string { domain + "/route-project-id-" + controllerKey }
    function RouteFailureKey(): string { domain + "/httproute-cleanup-failure-" + controllerKey }
    function BindingFinalizerPrefix(): string { domain + "/httproute-binding-" + controllerKey + "-" }
  }

  datatype Identity = Identity(
    project: string, cluster: string, controllerName: string, controllerVersion: string,
    gatewayNamespace: string, gatewayName: string, gatewayUID: string,
    routeNamespace: string, routeName: string, routeUID: string)

  datatype RouteKind = RouteKind(group: Option<string>, kind: string)

  datatype AllowedRoutes = AllowedRoutes(from: Option<string>, kinds: seq<RouteKind>)

  datatype ListenerSpec = ListenerSpec(
    name: string, protocol: string, tls: bool, hostname: Option<string>, port: int, allowed: Option<AllowedRoutes>)

  datatype GatewaySpecification = GatewaySpecification(
    className: string, addresses: nat, infrastructure: bool, allowedListeners: bool, tls: bool,
    listeners: seq<ListenerSpec>)

  /** `programmed` is the generation for which Programmed=True was observed. */
  datatype Gateway = Gateway(
    namespace: string, name: string, uid: string, generation: int, resourceVersion: string, deleting: bool,
    annotations: Annotations, finalizers: seq<string>, spec: GatewaySpecification, programmed: Option<int>)

  /** `supported` stands for a current SupportedVersion=True condition. */
  datatype GatewayClass = GatewayClass(name: string, controllerName: string, parametersRef: bool, supported: bool)

  datatype Key = Key(namespace: string, name: string)

  function Stored(annotations: Annotations, key: string): string
  {
    if key in annotations then annotations[key] else ""
  }

  function AddFinalizer(finalizers: seq<string>, f: string): (r: seq<string>)
    ensures f in r && forall g :: g in finalizers ==> g in r
  {
    if f in finalizers then finalizers else finalizers + [f]
  }

  /** Every occurrence goes; the order of the others stays. */
  function Without(finalizers: seq<string>, f: string): (r: seq<string>)
    ensures forall g :: g in r <==> g in finalizers && g != f
  {
    if finalizers == [] then []
    else (if finalizers[0] == f then [] else [finalizers[0]]) + Without(finalizers[1..], f)
  }

  const GATEWAY_GROUP := "gateway.networking.k8s.io"

  predicate IsHTTPRouteKind(k: RouteKind)
  {
    (k.group.None? || k.group.value == GATEWAY_GROUP) && k.kind == "HTTPRoute"
  }

  /** The single listener of a Gateway that fits the supported profile. */
  function ValidGateway(spec: GatewaySpecification): (r: Option<ListenerSpec>)
    ensures r.Some? ==> spec.listeners == [r.value]
  {
    if spec.addresses != 0 || spec.infrastructure || spec.allowedListeners || spec.tls then None
    else if |spec.listeners| != 1 then None
    else
      var l := spec.listeners[0];
      if l.protocol != "HTTP" || l.tls || l.hostname.Some? then None
      else if l.allowed.Some? && l.allowed.value.from.Some? && l.allowed.value.from.value != "Same" then None
      else if l.allowed.Some? && exists i :: 0 <= i < |l.allowed.value.kinds| && !IsHTTPRouteKind(l.allowed.value.kinds[i])
      then None
      else Some(l)
  }

  /** Decimal text of a port, as stored in the binding. */
  function Itoa(n: int): string
  {
    if n < 0 then "-" + Digits(-n) else Digits(n)
  }

  function Digits(n: nat): (r: string)
    ensures r != ""
  {
    var last := [(n % 10 + 48) as char];
    if n < 10 then last else Digits(n / 10) + last
  }

  /** The number a decimal text stands for. */
  function NumberOf(s: string): int
  {
    if s == "" then 0 else 10 * NumberOf(s[..|s| - 1]) + (s[|s| - 1] as int - 48)
  }

  lemma {:induction false} DigitsRoundTrip(n: nat)
    ensures NumberOf(Digits(n)) == n && Digits(n)[0] != '-'
  {
    var last := [(n % 10 + 48) as char];
    if n < 10 {
      assert Digits(n)[..0] == "";
    } else {
      DigitsRoundTrip(n / 10);
      assert Digits(n)[..|Digits(n)| - 1] == Digits(n / 10);
    }
  }

  /** A stored port text stands for one port. */
  lemma PortTextUnique(a: nat, b: nat)
    requires Itoa(a) == Itoa(b)
    ensures a == b && NumberOf(Itoa(a)) == a
  {
    DigitsRoundTrip(a);
    DigitsRoundTrip(b);
  }

  function GatewayIdentity(config: Config, namespace: string, name: string, uid: string): Identity
  {
    Identity(config.project, config.cluster, config.controllerName, config.controllerVersion, namespace, name, uid, "", "", "")
  }

  // ----- the keys are different -----

  lemma CancelPrefix(p: string, a: string, b: string)
    requires p + a == p + b
    ensures a == b
  {
    assert (p + a)[|p|..] == a && (p + b)[|p|..] == b;
  }

  lemma CancelSuffix(s: string, a: string, b: string)
    requires a + s == b + s
    ensures a == b
  {
    assert |a| == |b|;
    assert (a + s)[..|a|] == a && (b + s)[..|b|] == b;
  }

  /** Two keys of one controller coincide only when their kinds do. */
  lemma KeysDiffer(config: Config, a: string, b: string)
    requires a != b
    ensures config.domain + a + config.controllerKey != config.domain + b + config.controllerKey
  {
    if config.domain + a + config.controllerKey == config.domain + b + config.controllerKey {
      CancelSuffix(config.controllerKey, config.domain + a, config.domain + b);
      CancelPrefix(config.domain, a, b);
    }
  }

  lemma GatewayKeysDiffer(config: Config)
    ensures config.GatewayPortKey() != config.GatewayClusterKey() && config.GatewayPortKey() != config.GatewayProjectKey()
    ensures config.GatewayClusterKey() != config.GatewayProjectKey()
  {
    KeysDiffer(config, "/gateway-listener-port-", "/gateway-cluster-id-");
    KeysDiffer(config, "/gateway-listener-port-", "/gateway-project-id-");
    KeysDiffer(config, "/gateway-cluster-id-", "/gateway-project-id-");
  }

  lemma RouteKeysDiffer(config: Config)
    ensures config.RouteNamespaceKey() != config.RouteNameKey() && config.RouteNamespaceKey() != config.RouteUIDKey()
    ensures config.RouteNamespaceKey() != config.RouteClusterKey() && config.RouteNamespaceKey() != config.RouteProjectKey()
    ensures config.RouteNameKey() != config.RouteUIDKey() && config.RouteNameKey() != config.RouteClusterKey()
    ensures config.RouteNameKey() != config.RouteProjectKey() && config.RouteUIDKey() != config.RouteClusterKey()
    ensures config.RouteUIDKey() != config.RouteProjectKey() && config.RouteClusterKey() != config.RouteProjectKey()
    ensures config.RouteFailureKey() !in
              {config.RouteNamespaceKey(), config.RouteNameKey(), config.RouteUIDKey(), config.RouteClusterKey(),
               config.RouteProjectKey()}
  {
    var ns, name, uid := "/route-gateway-namespace-", "/route-gateway-name-", "/route-gateway-uid-";
    var cluster, project, failure := "/route-cluster-id-", "/route-project-id-", "/httproute-cleanup-failure-";
    KeysDiffer(config, ns, name);
    KeysDiffer(config, ns, uid);
    KeysDiffer(config, ns, cluster);
    KeysDiffer(config, ns, project);
    KeysDiffer(config, ns, failure);
    KeysDiffer(config, name, uid);
    KeysDiffer(config, name, cluster);
    KeysDiffer(config, name, project);
    KeysDiffer(config, name, failure);
    KeysDiffer(config, uid, cluster);
    KeysDiffer(config, uid, project);
    KeysDiffer(config, uid, failure);
    KeysDiffer(config, cluster, project);
    KeysDiffer(config, cluster, failure);
    KeysDiffer(config, project, failure);
  }

  /** The controller's route finalizer is not one of its binding finalizers. */
  lemma RouteFinalizerIsNotBinding(config: Config)
    ensures !(config.BindingFinalizerPrefix() <= config.RouteFinalizer())
  {
    var p, f := config.BindingFinalizerPrefix(), config.RouteFinalizer();
    var i := |config.domain| + |"/httproute-"|;
    assert p[i] == 'b' && f[i] == 'f';
  }
}
