/** Who may act on a Gateway's graph: the live snapshots that authorise a
    metadata or provider mutation, and those that authorise cleanup. */
module GatewayAuthority {
  import opened Ownership
  import opened Kube

  /** What live reads return at one moment. `versionSupported` is the verdict on
      the installed Gateway API custom resource definitions. */
  datatype Cluster = Cluster(
    gateways: map<Key, Gateway>, classes: map<string, GatewayClass>, versionSupported: bool)

  function GatewayKey(g: Gateway): Key
  {
    Key(g.namespace, g.name)
  }

  // ----- the durable binding -----

  predicate HasFinalizer(config: Config, g: Gateway)
  {
    config.GatewayFinalizer() in g.finalizers
  }

  function Port(config: Config, g: Gateway): string { Stored(g.annotations, config.GatewayPortKey()) }
  function ClusterId(config: Config, g: Gateway): string { Stored(g.annotations, config.GatewayClusterKey()) }
  function ProjectId(config: Config, g: Gateway): string { Stored(g.annotations, config.GatewayProjectKey()) }

  predicate BindingComplete(config: Config, g: Gateway)
  {
    HasFinalizer(config, g) && Port(config, g) != "" && ClusterId(config, g) != "" && ProjectId(config, g) != ""
  }

  /** A stored binding is absent or complete, a finalizer requires a complete one,
      and it names this cluster and project. */
  predicate BindingValid(config: Config, g: Gateway)
  {
    var full := Port(config, g) != "" && ClusterId(config, g) != "" && ProjectId(config, g) != "";
    var empty := Port(config, g) == "" && ClusterId(config, g) == "" && ProjectId(config, g) == "";
    (full || (empty && !HasFinalizer(config, g))) &&
    (ClusterId(config, g) == "" || ClusterId(config, g) == config.cluster) &&
    (ProjectId(config, g) == "" || ProjectId(config, g) == config.project)
  }

  /** The same check as the controller performs it, counting populated values. */
  method ValidateGatewayBinding(config: Config, g: Gateway) returns (ok: bool)
    ensures ok == BindingValid(config, g)
  {
    var values := [Port(config, g), ClusterId(config, g), ProjectId(config, g)];
    var populated := 0;
    for i := 0 to |values|
      invariant 0 <= populated <= i
      invariant populated == i <==> forall j :: 0 <= j < i ==> values[j] != ""
      invariant populated == 0 <==> forall j :: 0 <= j < i ==> values[j] == ""
    {
      if values[i] != "" {
        populated := populated + 1;
      }
    }
    assert values[0] == Port(config, g) && values[1] == ClusterId(config, g) && values[2] == ProjectId(config, g);
    if populated != |values| && (populated != 0 || HasFinalizer(config, g)) {
      return false;
    }
    if ClusterId(config, g) != "" && ClusterId(config, g) != config.cluster {
      return false;
    }
    if ProjectId(config, g) != "" && ProjectId(config, g) != config.project {
      return false;
    }
    ok := true;
  }

  predicate SameBinding(config: Config, a: Gateway, b: Gateway)
  {
    HasFinalizer(config, a) == HasFinalizer(config, b) && Port(config, a) == Port(config, b) &&
    ClusterId(config, a) == ClusterId(config, b) && ProjectId(config, a) == ProjectId(config, b)
  }

  predicate AnyBinding(config: Config, g: Gateway)
  {
    HasFinalizer(config, g) || Port(config, g) != "" || ClusterId(config, g) != "" || ProjectId(config, g) != ""
  }

  predicate Managed(config: Config, class_: GatewayClass)
  {
    class_.controllerName == config.controllerName && !class_.parametersRef
  }

  // ----- snapshots -----

  datatype Snapshot = Snapshot(gateway: Gateway, class_: GatewayClass, listener: ListenerSpec, required: bool)

  /** The model for one mutation, or None when anything is not as it must be.
      `port` is the expected listener port, "" for any. */
  function ObserveMutation(config: Config, cluster: Cluster, expected: Gateway, required: bool, port: string): (r: Option<Snapshot>)
    ensures r.Some? ==> GatewayKey(expected) in cluster.gateways && r.value.gateway == cluster.gateways[GatewayKey(expected)]
  {
    if GatewayKey(expected) !in cluster.gateways then None
    else
      var g := cluster.gateways[GatewayKey(expected)];
      if g.uid != expected.uid || g.generation != expected.generation || g.deleting then None
      else if g.spec.className !in cluster.classes then None
      else
        var class_ := cluster.classes[g.spec.className];
        if !Managed(config, class_) || !class_.supported then None
        else if required && !HasFinalizer(config, g) then None
        else if !BindingValid(config, g) then None
        else
          var listener := ValidGateway(g.spec);
          if listener.None? then None
          else if port != "" && Itoa(listener.value.port) != port then None
          else if required && Port(config, g) != Itoa(listener.value.port) then None
          else Some(Snapshot(g, class_, listener.value, required))
  }

  /** The fence just before a mutation: live state must still agree with what the
      snapshot was built from. */
  predicate Sealed(config: Config, cluster: Cluster, s: Snapshot)
  {
    cluster.versionSupported && GatewayKey(s.gateway) in cluster.gateways &&
    var g := cluster.gateways[GatewayKey(s.gateway)];
    g.uid == s.gateway.uid && g.generation == s.gateway.generation && !g.deleting && SameBinding(config, g, s.gateway) &&
    (s.required ==> BindingComplete(config, g) && BindingValid(config, g)) &&
    g.spec.className == s.class_.name && s.class_.name in cluster.classes &&
    Managed(config, cluster.classes[s.class_.name]) && cluster.classes[s.class_.name].supported
  }

  datatype Cleanup = CleanupError | CleanupDelete | CleanupHold

  function ObserveCleanup(config: Config, cluster: Cluster, expected: Gateway): Cleanup
  {
    if GatewayKey(expected) !in cluster.gateways then CleanupError
    else
      var g := cluster.gateways[GatewayKey(expected)];
      if g.uid != expected.uid || g.generation != expected.generation || g.resourceVersion != expected.resourceVersion ||
         g.deleting != expected.deleting
      then CleanupError
      else if !BindingValid(config, g) then CleanupError
      else if g.deleting then CleanupDelete
      else if g.spec.className !in cluster.classes then (if cluster.versionSupported then CleanupDelete else CleanupError)
      else
        var class_ := cluster.classes[g.spec.className];
        if class_.controllerName != config.controllerName then CleanupDelete
        else if !class_.supported || !cluster.versionSupported then CleanupError
        else if class_.parametersRef then CleanupDelete
        else
          var listener := ValidGateway(g.spec);
          if listener.None? then CleanupDelete
          else if Port(config, g) != "" && Port(config, g) != Itoa(listener.value.port) then CleanupDelete
          else CleanupHold
  }

  // ----- the same decisions, field by field -----

  /** All three stored values are there and name this cluster and project, or none
      of them is and there is no finalizer. */
  predicate SoundBinding(config: Config, g: Gateway)
  {
    (Port(config, g) != "" && ClusterId(config, g) != "" && ClusterId(config, g) == config.cluster &&
     ProjectId(config, g) != "" && ProjectId(config, g) == config.project) ||
    (Port(config, g) == "" && ClusterId(config, g) == "" && ProjectId(config, g) == "" &&
     config.GatewayFinalizer() !in g.finalizers)
  }

  /** The one listener of a Gateway without addresses, infrastructure, listener sets
      or TLS: plain HTTP for every host, open to HTTPRoutes of its own namespace. */
  predicate OnlyListener(spec: GatewaySpecification, l: ListenerSpec)
  {
    spec.listeners == [l] && spec.addresses == 0 && !spec.infrastructure && !spec.allowedListeners && !spec.tls &&
    l.protocol == "HTTP" && !l.tls && l.hostname.None? &&
    (l.allowed.Some? ==>
      l.allowed.value.from in {None, Some("Same")} &&
      forall k :: k in l.allowed.value.kinds ==> k.kind == "HTTPRoute" && k.group in {None, Some("gateway.networking.k8s.io")})
  }

  /** The listener, and a stored port that is absent or its own. */
  predicate PortAgrees(config: Config, g: Gateway, l: ListenerSpec)
  {
    OnlyListener(g.spec, l) && (Port(config, g) == "" || Port(config, g) == Itoa(l.port))
  }

  predicate UpToDate(cluster: Cluster, g: Gateway)
  {
    GatewayKey(g) in cluster.gateways && cluster.gateways[GatewayKey(g)] == g
  }

  lemma ListenerExact(spec: GatewaySpecification)
    ensures forall l :: ValidGateway(spec) == Some(l) <==> OnlyListener(spec, l)
  {
    forall l ensures ValidGateway(spec) == Some(l) <==> OnlyListener(spec, l) {
      if l.allowed.Some? {
        KindsExact(l.allowed.value.kinds);
      }
    }
  }

  lemma KindsExact(kinds: seq<RouteKind>)
    ensures (exists i :: 0 <= i < |kinds| && !IsHTTPRouteKind(kinds[i])) <==>
            !(forall k :: k in kinds ==> k.kind == "HTTPRoute" && k.group in {None, Some("gateway.networking.k8s.io")})
  {
  }

  lemma BindingExact(config: Config, g: Gateway)
    requires config.cluster != "" && config.project != ""
    ensures BindingValid(config, g) <==> SoundBinding(config, g)
  {
  }

  /** What cleanup decides on an up-to-date read. A deleting Gateway with a sound
      binding is always deleted, whatever its class and the installed version. A live
      one is deleted when its class is gone or foreign, or when it is ours and can
      no longer be served as bound; it is kept exactly when it still can. While the
      installed version is unsupported, only a foreign class decides about it. */
  lemma CleanupExactly(config: Config, cluster: Cluster, g: Gateway)
    requires config.cluster != "" && config.project != "" && UpToDate(cluster, g)
    ensures ObserveCleanup(config, cluster, g) == CleanupDelete <==>
            SoundBinding(config, g) &&
            (g.deleting ||
             (g.spec.className !in cluster.classes && cluster.versionSupported) ||
             (g.spec.className in cluster.classes &&
              var c := cluster.classes[g.spec.className];
              c.controllerName != config.controllerName ||
              (c.supported && cluster.versionSupported && (c.parametersRef || forall l :: !PortAgrees(config, g, l)))))
    ensures ObserveCleanup(config, cluster, g) == CleanupHold <==>
            SoundBinding(config, g) && !g.deleting && cluster.versionSupported && g.spec.className in cluster.classes &&
            var c := cluster.classes[g.spec.className];
            c.controllerName == config.controllerName && c.supported && !c.parametersRef &&
            exists l :: PortAgrees(config, g, l)
  {
    hide BindingValid, SoundBinding, ValidGateway, OnlyListener, Itoa, Port;
    BindingExact(config, g);
    ListenerExact(g.spec);
    var listener := ValidGateway(g.spec);
    assert listener.Some? ==> OnlyListener(g.spec, listener.value);
    assert forall l :: PortAgrees(config, g, l) ==> listener == Some(l);
    assert listener.Some? && (Port(config, g) == "" || Port(config, g) == Itoa(listener.value.port)) ==>
      PortAgrees(config, g, listener.value);
  }

  /** A read that is out of date decides nothing. */
  lemma StaleReadDecidesNothing(config: Config, cluster: Cluster, g: Gateway)
    requires GatewayKey(g) !in cluster.gateways ||
             var now := cluster.gateways[GatewayKey(g)];
             now.uid != g.uid || now.generation != g.generation || now.resourceVersion != g.resourceVersion ||
             now.deleting != g.deleting
    ensures ObserveCleanup(config, cluster, g) == CleanupError
  {
  }

  /** When a snapshot authorises a mutation, field by field. */
  lemma MutationExactly(config: Config, cluster: Cluster, g: Gateway, required: bool)
    requires config.cluster != "" && config.project != "" && UpToDate(cluster, g)
    ensures ObserveMutation(config, cluster, g, required, "").Some? <==>
            SoundBinding(config, g) && !g.deleting && g.spec.className in cluster.classes &&
            (var c := cluster.classes[g.spec.className];
             c.controllerName == config.controllerName && c.supported && !c.parametersRef) &&
            (if required then config.GatewayFinalizer() in g.finalizers && exists l :: OnlyListener(g.spec, l) && Port(config, g) == Itoa(l.port)
             else exists l :: OnlyListener(g.spec, l))
  {
    hide BindingValid, SoundBinding, ValidGateway, OnlyListener, Itoa, Port;
    BindingExact(config, g);
    ListenerExact(g.spec);
    var listener := ValidGateway(g.spec);
    assert listener.Some? ==> OnlyListener(g.spec, listener.value);
    assert forall l :: OnlyListener(g.spec, l) ==> listener == Some(l);
  }

  /** A snapshot that was built can be sealed as long as nothing changed and the
      installed version is supported. */
  lemma UnchangedSeals(config: Config, cluster: Cluster, g: Gateway, port: string, required: bool)
    requires NamesAgree(cluster) && cluster.versionSupported && UpToDate(cluster, g)
    requires ObserveMutation(config, cluster, g, required, port).Some?
    ensures Sealed(config, cluster, ObserveMutation(config, cluster, g, required, port).value)
  {
    hide ValidGateway, Itoa;
    if required && ValidGateway(g.spec).Some? {
      ItoaNotEmpty(ValidGateway(g.spec).value.port);
    }
  }

  // ----- exclusive authority -----

  /** No single state authorises both: when a binding-required snapshot succeeds,
      every cleanup snapshot of the same Gateway holds or fails. */
  lemma ExclusiveAuthority(config: Config, cluster: Cluster, expected: Gateway, other: Gateway, port: string)
    requires ObserveMutation(config, cluster, expected, true, port).Some? && GatewayKey(other) == GatewayKey(expected)
    ensures ObserveCleanup(config, cluster, other) != CleanupDelete
  {
  }

  /** API server law: the specification changes only together with the generation. */
  ghost predicate GenerationLaw(before: Cluster, after: Cluster)
  {
    forall k :: k in before.gateways && k in after.gateways && before.gateways[k].uid == after.gateways[k].uid &&
                before.gateways[k].generation == after.gateways[k].generation ==>
      before.gateways[k].spec == after.gateways[k].spec
  }

  /** API server law: an object stored under a key has that name. */
  ghost predicate NamesAgree(cluster: Cluster)
  {
    (forall k :: k in cluster.gateways ==> GatewayKey(cluster.gateways[k]) == k) &&
    (forall c :: c in cluster.classes ==> cluster.classes[c].name == c)
  }

  /** The two reads may see different states. If the model was built from one and
      the fence passed in a later one, then in the later state the binding is
      complete and no cleanup is authorised. */
  lemma SealedAuthority(
    config: Config, before: Cluster, after: Cluster, expected: Gateway, other: Gateway, port: string, s: Snapshot)
    requires ObserveMutation(config, before, expected, true, port) == Some(s) && Sealed(config, after, s)
    requires GenerationLaw(before, after) && NamesAgree(before) && NamesAgree(after) && GatewayKey(other) == GatewayKey(expected)
    ensures ObserveCleanup(config, after, other) != CleanupDelete
    ensures BindingComplete(config, after.gateways[GatewayKey(s.gateway)])
  {
    var k := GatewayKey(expected);
    assert before.gateways[k] == s.gateway && GatewayKey(s.gateway) == k;
    assert after.gateways[k].spec == s.gateway.spec;
    hide ValidGateway, Itoa;
  }

  // ----- the phase decision agrees with the authority -----

  datatype Phase =
    | PhaseIgnore | PhaseCleanupUnmanaged | PhaseUnsupportedVersion | PhaseInvalidBinding
    | PhaseUnsupportedParameters | PhaseInvalidSpec | PhaseReplaceGraph | PhaseBind | PhaseEnsure

  /** The classification of one reconciliation of a Gateway that is not deleting. */
  function DecidePhase(config: Config, cluster: Cluster, g: Gateway): Phase
  {
    var class_ := if g.spec.className in cluster.classes then Some(cluster.classes[g.spec.className]) else None;
    if class_.None? || class_.value.controllerName != config.controllerName then
      (if AnyBinding(config, g) then PhaseCleanupUnmanaged else PhaseIgnore)
    else if !class_.value.supported then PhaseUnsupportedVersion
    else if !BindingValid(config, g) then PhaseInvalidBinding
    else if class_.value.parametersRef then PhaseUnsupportedParameters
    else
      var listener := ValidGateway(g.spec);
      if listener.None? then PhaseInvalidSpec
      else if Port(config, g) != "" && Port(config, g) != Itoa(listener.value.port) then PhaseReplaceGraph
      else if !BindingComplete(config, g) then PhaseBind
      else PhaseEnsure
  }

  predicate Cleans(phase: Phase)
  {
    phase == PhaseCleanupUnmanaged || phase == PhaseUnsupportedParameters || phase == PhaseInvalidSpec ||
    phase == PhaseReplaceGraph
  }

  /** On an up-to-date read, the phase is Ensure exactly when a binding-required
      snapshot succeeds; the cleaning phases never get one, and what cleanup then
      observes is Delete or an error. Bind gets exactly the optional snapshot. */
  lemma PhaseAgrees(config: Config, cluster: Cluster, g: Gateway)
    requires GatewayKey(g) in cluster.gateways && cluster.gateways[GatewayKey(g)] == g && !g.deleting
    ensures DecidePhase(config, cluster, g) == PhaseEnsure <==> ObserveMutation(config, cluster, g, true, "").Some?
    ensures DecidePhase(config, cluster, g) == PhaseBind ==> ObserveMutation(config, cluster, g, false, "").Some?
    ensures Cleans(DecidePhase(config, cluster, g)) ==> ObserveCleanup(config, cluster, g) != CleanupHold
    ensures DecidePhase(config, cluster, g) in {PhaseBind, PhaseEnsure} ==>
              ObserveCleanup(config, cluster, g) == (if cluster.versionSupported then CleanupHold else CleanupError)
  {
    hide ValidGateway;
    if ValidGateway(g.spec).Some? {
      ItoaNotEmpty(ValidGateway(g.spec).value.port);
    }
  }

  /** The phase of a live Gateway, field by field. */
  lemma PhaseExactly(config: Config, cluster: Cluster, g: Gateway)
    requires config.cluster != "" && config.project != ""
    ensures var ours := g.spec.className in cluster.classes && cluster.classes[g.spec.className].controllerName == config.controllerName;
            var phase := DecidePhase(config, cluster, g);
            (phase == PhaseIgnore <==> !ours && !AnyBinding(config, g)) &&
            (phase == PhaseCleanupUnmanaged <==> !ours && AnyBinding(config, g)) &&
            (ours ==>
              var c := cluster.classes[g.spec.className];
              var usable := c.supported && SoundBinding(config, g) && !c.parametersRef;
              (phase == PhaseUnsupportedVersion <==> !c.supported) &&
              (phase == PhaseInvalidBinding <==> c.supported && !SoundBinding(config, g)) &&
              (phase == PhaseUnsupportedParameters <==> c.supported && SoundBinding(config, g) && c.parametersRef) &&
              (phase == PhaseInvalidSpec <==> usable && forall l :: !OnlyListener(g.spec, l)) &&
              (phase == PhaseReplaceGraph <==>
                usable && exists l :: OnlyListener(g.spec, l) && Port(config, g) != "" && Port(config, g) != Itoa(l.port)) &&
              (phase == PhaseBind <==>
                usable && exists l :: PortAgrees(config, g, l) && (Port(config, g) == "" || config.GatewayFinalizer() !in g.finalizers)) &&
              (phase == PhaseEnsure <==>
                usable && exists l :: OnlyListener(g.spec, l) && Port(config, g) == Itoa(l.port) && config.GatewayFinalizer() in g.finalizers))
  {
    BindingExact(config, g);
    ListenerExact(g.spec);
    var listener := ValidGateway(g.spec);
    if listener.Some? {
      ItoaNotEmpty(listener.value.port);
    }
    assert listener.Some? ==> OnlyListener(g.spec, listener.value);
    hide ValidGateway, OnlyListener, Itoa, BindingValid;
    assert forall l :: OnlyListener(g.spec, l) ==> listener == Some(l);
    assert listener.Some? && (Port(config, g) == "" || Port(config, g) == Itoa(listener.value.port)) ==>
      PortAgrees(config, g, listener.value);
  }

  lemma ItoaNotEmpty(n: int)
    ensures Itoa(n) != ""
  {
  }

  // ----- binding -----

  /** What the binding patch writes. */
  function Bound(config: Config, g: Gateway, port: string, resourceVersion: string): Gateway
  {
    g.(annotations := g.annotations[config.GatewayPortKey() := port][config.GatewayClusterKey() := config.cluster]
                        [config.GatewayProjectKey() := config.project],
       finalizers := AddFinalizer(g.finalizers, config.GatewayFinalizer()),
       resourceVersion := resourceVersion)
  }

  /** What the cleanup patch writes: exactly the owned keys and the finalizer go. */
  function Unbound(config: Config, g: Gateway, resourceVersion: string): Gateway
  {
    g.(annotations := g.annotations - {config.GatewayPortKey(), config.GatewayClusterKey(), config.GatewayProjectKey()},
       finalizers := Without(g.finalizers, config.GatewayFinalizer()),
       resourceVersion := resourceVersion)
  }

  /** Binding completes and validates the metadata and changes nothing else;
      clearing afterwards leaves nothing of it. */
  lemma BindingRoundTrip(config: Config, g: Gateway, port: string, rv: string, rv': string)
    requires port != "" && config.cluster != "" && config.project != ""
    ensures var b := Bound(config, g, port, rv);
            BindingComplete(config, b) && BindingValid(config, b) && Port(config, b) == port && b.spec == g.spec &&
            !AnyBinding(config, Unbound(config, b, rv')) && Bound(config, b, port, rv) == b &&
            (forall k :: k !in {config.GatewayPortKey(), config.GatewayClusterKey(), config.GatewayProjectKey()} ==>
              Stored(Unbound(config, b, rv').annotations, k) == Stored(g.annotations, k))
  {
    GatewayKeysDiffer(config);
    var b := Bound(config, g, port, rv);
    assert Bound(config, b, port, rv).annotations == b.annotations;
  }
}
