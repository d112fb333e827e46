/** The decisions about a route's graph, condition by condition: when its snapshot
    is Ready, and when its cleanup is required. */
module RouteConditions {
  import opened Order
  import opened Ownership
  import opened Kube
  import opened GatewayAuthority
  import opened RouteBinding
  import opened RouteSelection
  import opened RouteMeaning
  import opened RouteAuthority

  // ----- attachment and competition -----

  /** The route may use this listener: same namespace, plain HTTP, a reference that
      names it or leaves it open, and permission for HTTPRoutes of its namespace. */
  predicate Attaches(r: Route, ref: ParentRef, g: Gateway, l: ListenerSpec)
  {
    !g.deleting && g.namespace == r.meta.namespace && l.protocol == "HTTP" && !l.tls &&
    ref.sectionName in {None, Some(l.name)} && ref.port in {None, Some(l.port)} &&
    (l.allowed.Some? ==>
      l.allowed.value.from in {None, Some("Same")} &&
      (l.allowed.value.kinds == [] ||
       exists k :: k in l.allowed.value.kinds && k.kind == "HTTPRoute" && k.group in {None, Some("gateway.networking.k8s.io")}))
  }

  lemma AttachesExactly(r: Route, ref: ParentRef, g: Gateway, l: ListenerSpec)
    ensures ParentOk(r, ref, g, Some(l)) <==> Attaches(r, ref, g, l)
  {
    if l.allowed.Some? {
      AllowedExactly(l.allowed.value);
    }
    hide AllowsHTTPRoutes;
  }

  lemma AllowedExactly(allowed: AllowedRoutes)
    ensures AllowsHTTPRoutes(allowed) <==>
            allowed.from in {None, Some("Same")} &&
            (allowed.kinds == [] ||
             exists k :: k in allowed.kinds && k.kind == "HTTPRoute" && k.group in {None, Some("gateway.networking.k8s.io")})
  {
    SomeKind(allowed.kinds);
    assert allowed.from in {None, Some("Same")} <==> allowed.from.None? || allowed.from.value == "Same";
    hide IsHTTPRouteKind;
  }

  lemma SomeKind(kinds: seq<RouteKind>)
    ensures (exists i :: 0 <= i < |kinds| && IsHTTPRouteKind(kinds[i])) <==>
            exists k :: k in kinds && k.kind == "HTTPRoute" && k.group in {None, Some("gateway.networking.k8s.io")}
  {
    if i :| 0 <= i < |kinds| && IsHTTPRouteKind(kinds[i]) {
      assert kinds[i] in kinds;
    }
  }

  /** The backend Service is missing, or can serve the route. */
  ghost predicate Backable(services: Services, r: Route)
    requires Profile(r)
  {
    BackendKey(r) in services ==>
      services[BackendKey(r)].nodePortType &&
      forall i :: FirstPort(services[BackendKey(r)].ports, BackendPort(r), i) ==> ServesHTTP(services[BackendKey(r)].ports[i])
  }

  /** Another route that could hold the slot of the same Gateway. */
  ghost predicate Competes(services: Services, g: Gateway, l: ListenerSpec, r: Route, c: Route)
    requires |r.parents| == 1
  {
    !c.deleting && |c.parents| == 1 && SameTarget(c.parents[0], c.meta.namespace, r.parents[0], r.meta.namespace) &&
    Attaches(c, c.parents[0], g, l) && Profile(c) && Backable(services, c)
  }

  /** The older route, and among equally old ones the lesser name. */
  ghost predicate Older(a: Route, b: Route)
  {
    a.created < b.created || (a.created == b.created && StrLess(a.meta.name, b.meta.name))
  }

  /** No other route that could hold the slot is older. */
  ghost predicate HoldsSlot(services: Services, g: Gateway, l: ListenerSpec, listing: seq<Route>, r: Route)
    requires |r.parents| == 1
  {
    forall c :: c in listing && c.meta.name != r.meta.name && Competes(services, g, l, r, c) ==> !Older(c, r)
  }

  lemma BackableExactly(services: Services, r: Route)
    requires StructurallySupported(r)
    ensures Profile(r) && (CanReserve(services, r) <==> Backable(services, r))
  {
    hide Profile, StructurallySupported, FirstPort, ServesHTTP, CanReserve;
    ReserveExactly(services, r);
  }

  lemma CompetesExactly(services: Services, g: Gateway, l: ListenerSpec, r: Route, c: Route)
    requires |r.parents| == 1
    ensures Eligible(services, Contest(g, Some(l), r.parents[0], r.meta.namespace), c) <==> Competes(services, g, l, r, c)
  {
    hide ParentOk, Attaches, StructurallySupported, Profile, CanReserve, Backable, SameTarget;
    ProfileExact(c);
    if |c.parents| == 1 {
      AttachesExactly(c, c.parents[0], g, l);
    }
    if StructurallySupported(c) {
      BackableExactly(services, c);
    }
  }

  lemma SlotExactly(services: Services, g: Gateway, l: ListenerSpec, listing: seq<Route>, r: Route)
    requires |r.parents| == 1 && forall c :: c in listing ==> c.meta.namespace == r.meta.namespace
    ensures Selected(services, Contest(g, Some(l), r.parents[0], r.meta.namespace), listing, r) <==>
            HoldsSlot(services, g, l, listing, r)
  {
    hide Eligible, Competes, Precedes;
    SelectedMeans(services, Contest(g, Some(l), r.parents[0], r.meta.namespace), listing, r);
    forall c | c in listing
      ensures Eligible(services, Contest(g, Some(l), r.parents[0], r.meta.namespace), c) <==> Competes(services, g, l, r, c)
      ensures Precedes(c, r) <==> Older(c, r)
    {
      CompetesExactly(services, g, l, r, c);
      OldestFirst(c, r);
    }
  }

  // ----- the binding on the route -----

  /** Annotations and finalizers are exactly those of a binding to the target. */
  ghost predicate BoundExactly(config: Config, m: RouteMeta, t: Target)
  {
    Has(m.annotations, config.RouteNamespaceKey(), t.namespace) && Has(m.annotations, config.RouteNameKey(), t.name) &&
    Has(m.annotations, config.RouteUIDKey(), t.uid) && Has(m.annotations, config.RouteClusterKey(), config.cluster) &&
    Has(m.annotations, config.RouteProjectKey(), config.project) && config.RouteFailureKey() !in m.annotations &&
    config.RouteFinalizer() in m.finalizers && BindingFinalizer(config, t) in m.finalizers &&
    forall f :: f in m.finalizers && config.BindingFinalizerPrefix() <= f ==> f == BindingFinalizer(config, t)
  }

  predicate Has(a: Annotations, key: string, value: string)
  {
    key in a && a[key] == value
  }

  lemma WrittenAnnotations(config: Config, m: RouteMeta, t: Target)
    ensures var a := Applied(config, m, t).annotations;
            Has(a, config.RouteNamespaceKey(), t.namespace) && Has(a, config.RouteNameKey(), t.name) &&
            Has(a, config.RouteUIDKey(), t.uid) && Has(a, config.RouteClusterKey(), config.cluster) &&
            Has(a, config.RouteProjectKey(), config.project) && config.RouteFailureKey() !in a
  {
    hide BindingFinalizer, KeepExpected;
    RouteKeysDiffer(config);
  }

  lemma UnchangedAnnotations(config: Config, m: RouteMeta, t: Target)
    requires BoundExactly(config, m, t)
    ensures Applied(config, m, t).annotations == m.annotations
  {
    hide BindingFinalizer, KeepExpected;
    RouteKeysDiffer(config);
  }

  /** Applying a binding changes nothing exactly on a route bound to the target. */
  lemma BoundIsFixpoint(config: Config, m: RouteMeta, t: Target)
    ensures Applied(config, m, t) == m <==> BoundExactly(config, m, t)
  {
    if Applied(config, m, t) == m {
      WrittenAnnotations(config, m, t);
      AppliedFinalizers(config, m, t);
    }
    if BoundExactly(config, m, t) {
      UnchangedAnnotations(config, m, t);
      KeepAll(config, m.finalizers, BindingFinalizer(config, t));
    }
  }

  /** What a route's metadata reads as: bound when its annotations name a target of
      this cluster and project and its binding finalizers belong to that target,
      not bound when nothing of a binding is there. */
  lemma ReadsExactly(config: Config, m: RouteMeta)
    requires config.cluster != "" && config.controllerName != "" && m.namespace != "" && m.name != "" && m.uid != ""
    ensures var t := StoredTarget(config, m.annotations);
            var cluster, project := Stored(m.annotations, config.RouteClusterKey()), Stored(m.annotations, config.RouteProjectKey());
            (StoredIdentity(config, m).BoundTo? <==>
              t.namespace != "" && t.name != "" && t.uid != "" && cluster in {"", config.cluster} && project in {"", config.project} &&
              (config.RouteFinalizer() in m.finalizers ==> BindingFinalizer(config, t) in m.finalizers) &&
              forall f :: f in m.finalizers && config.BindingFinalizerPrefix() <= f ==> f == BindingFinalizer(config, t)) &&
            (StoredIdentity(config, m).BoundTo? ==>
              StoredIdentity(config, m).identity ==
                Identity(config.project, config.cluster, config.controllerName, config.controllerVersion, t.namespace, t.name, t.uid,
                         m.namespace, m.name, m.uid)) &&
            (StoredIdentity(config, m).NotBound? <==>
              t == Target("", "", "") && cluster == "" && project == "" &&
              forall f :: f in m.finalizers ==> !(config.BindingFinalizerPrefix() <= f))
  {
    hide BindingFinalizer;
    BindingFinalizersByValue(config, m.finalizers, BindingFinalizer(config, StoredTarget(config, m.annotations)));
    hide OnlyBinding, HasBindingFinalizer;
  }

  lemma BindingFinalizersByValue(config: Config, finalizers: seq<string>, expected: string)
    ensures OnlyBinding(config, finalizers, expected) <==>
            forall f :: f in finalizers && config.BindingFinalizerPrefix() <= f ==> f == expected
    ensures HasBindingFinalizer(config, finalizers) <==> !(forall f :: f in finalizers ==> !(config.BindingFinalizerPrefix() <= f))
  {
    assert forall i :: 0 <= i < |finalizers| ==> finalizers[i] in finalizers;
    forall f | f in finalizers && config.BindingFinalizerPrefix() <= f
      ensures exists i :: 0 <= i < |finalizers| && finalizers[i] == f && IsBindingFinalizer(config, finalizers[i])
    {
      var i :| 0 <= i < |finalizers| && finalizers[i] == f;
      assert IsBindingFinalizer(config, finalizers[i]);
    }
  }

  // ----- ensuring -----

  /** The Gateway can be worked on: live, of our class, bound to this cluster and
      project under our finalizer. */
  predicate Workable(config: Config, live: Live, g: Gateway)
  {
    !g.deleting && config.GatewayFinalizer() in g.finalizers && SoundBinding(config, g) &&
    g.spec.className in live.cluster.classes &&
    var c := live.cluster.classes[g.spec.className];
    c.controllerName == config.controllerName && !c.parametersRef && c.supported
  }

  /** What makes a route Ready: it is within the profile, attached to the bound
      listener of a workable Gateway, holds the slot, has members, and is bound. */
  ghost predicate PlainlyReady(config: Config, live: Live, r: Route, g: Gateway)
  {
    Workable(config, live, g) && |r.parents| == 1 && Profile(r) && BoundExactly(config, r.meta, TargetFor(g)) &&
    (exists i, e :: BackedBy(live.services, live.members, r, i, e)) &&
    exists l :: OnlyListener(g.spec, l) && Attaches(r, r.parents[0], g, l) && Port(config, g) == Itoa(l.port) &&
      HoldsSlot(live.services, g, l, live.listing, r)
  }

  ghost predicate Current(config: Config, live: Live, r: Route, g: Gateway)
  {
    config.cluster != "" && config.project != "" && config.controllerName != "" &&
    RouteKey(r) in live.routes && live.routes[RouteKey(r)] == r && UpToDate(live.cluster, g) &&
    r.meta.namespace != "" && r.meta.name != "" && r.meta.uid != "" && g.namespace != "" && g.name != "" && g.uid != "" &&
    forall c :: c in live.listing ==> c.meta.namespace == r.meta.namespace
  }

  lemma WorkableExactly(config: Config, live: Live, g: Gateway)
    requires config.cluster != "" && config.project != ""
    ensures GatewayUsable(config, live, g) <==> Workable(config, live, g)
  {
    hide BindingValid, SoundBinding;
    BindingExact(config, g);
  }

  lemma ModelExactly(config: Config, settings: Settings, live: Live, r: Route, g: Gateway, l: ListenerSpec)
    requires Current(config, live, r, g) && |r.parents| == 1
    ensures IsReady(ValidateModel(config, settings, live, r, g, l)) <==>
            Profile(r) && HoldsSlot(live.services, g, l, live.listing, r) && BoundExactly(config, r.meta, TargetFor(g)) &&
            exists i, e :: BackedBy(live.services, live.members, r, i, e)
  {
    var t := TargetFor(g);
    BoundIsFixpoint(config, r.meta, t);
    hide Profile, HoldsSlot, Selected, CanReserve, StructurallySupported, BuildSpec, BackedBy, StoredIdentity, Applied, Backable,
         RouteIdentity, BindingFinalizer;
    SlotExactly(live.services, g, l, live.listing, r);
    BuiltExactly(settings, live.services, live.members, r, l.port);
    ProfileExact(r);
    if BoundExactly(config, r.meta, t) {
      ApplyThenRead(config, r.meta, t);
    }
    if BuildSpec(settings, live.services, live.members, r, l.port).BuiltSpec? {
      BuiltIsSupported(settings, live.services, live.members, r, l.port);
    }
  }

  /** The Ready snapshot of an up-to-date read, condition by condition. */
  lemma ReadyExactly(config: Config, settings: Settings, live: Live, r: Route, g: Gateway)
    requires Current(config, live, r, g)
    ensures IsReady(ValidateForEnsure(config, settings, live, r, g)) <==> PlainlyReady(config, live, r, g)
  {
    hide GatewayUsable, Workable, ParentOk, Attaches, ValidateModel, OnlyListener, ValidGateway, Itoa, Profile, HoldsSlot, BackedBy,
         BoundExactly, Port;
    WorkableExactly(config, live, g);
    ProfileOfGateway(g.spec);
    var listener := ValidGateway(g.spec);
    if listener.Some? && |r.parents| == 1 {
      AttachesExactly(r, r.parents[0], g, listener.value);
      ModelExactly(config, settings, live, r, g, listener.value);
    }
  }

  lemma ProfileOfGateway(spec: GatewaySpecification)
    ensures forall l :: OnlyListener(spec, l) <==> ValidGateway(spec) == Some(l)
  {
    ListenerExact(spec);
  }

  /** A read that is out of date is refused. */
  lemma StaleReadRefused(config: Config, settings: Settings, live: Live, r: Route, g: Gateway)
    requires RouteKey(r) !in live.routes || GatewayKey(g) !in live.cluster.gateways ||
             (var r', g' := live.routes[RouteKey(r)], live.cluster.gateways[GatewayKey(g)];
              r'.meta.uid != r.meta.uid || r'.generation != r.generation || r'.deleting != r.deleting ||
              g'.uid != g.uid || g'.generation != g.generation)
    ensures ValidateForEnsure(config, settings, live, r, g) == Refused
  {
    hide GatewayUsable, ParentOk, ValidateModel, ValidGateway, Itoa;
  }

  // ----- cleaning up -----

  /** A parent reference that cannot stand in the way of cleanup: it leads to no
      Gateway, to one of a foreign class, or to the bound Gateway on its way out. */
  predicate LetsGo(config: Config, live: Live, r: Route, ref: ParentRef, identity: Identity)
  {
    !IsGatewayRef(ref) || TargetOf(ref, r.meta.namespace) !in live.cluster.gateways ||
    var g := live.cluster.gateways[TargetOf(ref, r.meta.namespace)];
    g.spec.className in live.cluster.classes &&
    (live.cluster.classes[g.spec.className].controllerName != config.controllerName ||
     (g.namespace == identity.gatewayNamespace && g.name == identity.gatewayName && g.uid == identity.gatewayUID && g.deleting))
  }

  /** The route's only parent is a Gateway of our class. */
  predicate OneOfOurs(config: Config, live: Live, r: Route)
  {
    |r.parents| == 1 && IsGatewayRef(r.parents[0]) && TargetOf(r.parents[0], r.meta.namespace) in live.cluster.gateways &&
    var g := live.cluster.gateways[TargetOf(r.parents[0], r.meta.namespace)];
    g.spec.className in live.cluster.classes && live.cluster.classes[g.spec.className].controllerName == config.controllerName
  }

  function OurGateway(config: Config, live: Live, r: Route): Gateway
    requires OneOfOurs(config, live, r)
  {
    live.cluster.gateways[TargetOf(r.parents[0], r.meta.namespace)]
  }

  /** The class admits a decision about the Gateway's routes. */
  ghost predicate Decidable(config: Config, live: Live, r: Route)
    requires OneOfOurs(config, live, r)
  {
    var c := live.cluster.classes[OurGateway(config, live, r).spec.className];
    c.supported && !c.parametersRef
  }

  /** The Gateway still asks for this route under the stored identity. */
  ghost predicate StillAsked(config: Config, live: Live, r: Route, g: Gateway, identity: Identity)
    requires |r.parents| == 1
  {
    Profile(r) && IdentityFor(config, g, r) == identity && (exists i, e :: BackedBy(live.services, live.members, r, i, e)) &&
    exists l :: g.spec.listeners == [l] && Attaches(r, r.parents[0], g, l) && HoldsSlot(live.services, g, l, live.listing, r)
  }

  lemma WithParentExactly(config: Config, settings: Settings, live: Live, r: Route, identity: Identity, g: Gateway, class_: GatewayClass)
    requires |r.parents| == 1 && forall c :: c in live.listing ==> c.meta.namespace == r.meta.namespace
    ensures CleanupWithParent(config, settings, live, r, identity, g, class_) ==
            if !class_.supported || class_.parametersRef then CleanupRefused
            else if StillAsked(config, live, r, g, identity) then StillDesired
            else CleanupRequired
  {
    hide Profile, HoldsSlot, Selected, CanReserve, StructurallySupported, BuildSpec, BackedBy, RouteIdentity, ParentOk, Attaches;
    ProfileExact(r);
    if |g.spec.listeners| == 1 {
      var l := g.spec.listeners[0];
      assert g.spec.listeners == [l];
      AttachesExactly(r, r.parents[0], g, l);
      SlotExactly(live.services, g, l, live.listing, r);
      BuiltExactly(settings, live.services, live.members, r, l.port);
      if BuildSpec(settings, live.services, live.members, r, l.port).BuiltSpec? {
        BuiltIsSupported(settings, live.services, live.members, r, l.port);
      }
    } else {
      NoParent(r, g);
    }
  }

  lemma NoParent(r: Route, g: Gateway)
    requires |r.parents| == 1
    ensures !ParentOk(r, r.parents[0], g, None)
  {
  }

  lemma {:induction false} LetsGoExactly(config: Config, live: Live, r: Route, refs: seq<ParentRef>, identity: Identity)
    ensures AllowedDuringMismatch(ViewParents(config, live, r, refs), identity) <==>
            forall ref :: ref in refs ==> LetsGo(config, live, r, ref, identity)
  {
    if refs != [] {
      LetsGoExactly(config, live, r, refs[1..], identity);
      var rest := ViewParents(config, live, r, refs[1..]);
      var views := ViewParents(config, live, r, refs);
      hide ViewParents;
      assert forall ref :: ref in refs <==> ref == refs[0] || ref in refs[1..];
      if IsGatewayRef(refs[0]) {
        var v := ViewParent(config, live, r, refs[0]);
        assert views == [v] + rest;
        assert ParentOutOfTheWay(v, identity) <==> LetsGo(config, live, r, refs[0], identity);
        HeadAllowed(v, rest, identity);
      } else {
        assert views == rest;
      }
    }
  }

  lemma HeadAllowed(v: ParentView, rest: seq<ParentView>, identity: Identity)
    ensures AllowedDuringMismatch([v] + rest, identity) <==> ParentOutOfTheWay(v, identity) && AllowedDuringMismatch(rest, identity)
  {
    hide ParentOutOfTheWay;
    var views := [v] + rest;
    assert views[0] == v;
    assert forall i :: 0 <= i < |rest| ==> rest[i] == views[i + 1];
    if AllowedDuringMismatch(views, identity) {
      forall i | 0 <= i < |rest| ensures ParentOutOfTheWay(rest[i], identity) {
        assert ParentOutOfTheWay(views[i + 1], identity);
      }
    }
  }

  lemma OneParentViews(config: Config, live: Live, r: Route)
    requires |r.parents| == 1
    ensures var views := ManagedViews(ViewParents(config, live, r, r.parents));
            if OneOfOurs(config, live, r) then
              var g := OurGateway(config, live, r);
              views == [ParentView(r.parents[0], Some(g), Some(live.cluster.classes[g.spec.className]), true)]
            else views == []
  {
    assert r.parents[1..] == [];
    var ref := r.parents[0];
    if IsGatewayRef(ref) {
      var v := ViewParent(config, live, r, ref);
      assert ViewParents(config, live, r, r.parents) == [v];
      assert [v][1..] == [];
    }
  }

  /** Cleanup of an up-to-date read, condition by condition. It is required for a
      bound route that is being deleted, or whose parents all let it go; and, while
      the installed version is supported, for one that no longer has a single parent
      of ours, or whose Gateway can be decided about and no longer asks for it. */
  lemma CleanupExactlyWhen(config: Config, settings: Settings, live: Live, r: Route, identity: Identity)
    requires RouteKey(r) in live.routes && live.routes[RouteKey(r)] == r
    requires forall c :: c in live.listing ==> c.meta.namespace == r.meta.namespace
    ensures ObserveRouteCleanup(config, settings, live, r, identity) == CleanupRequired <==>
            StoredIdentity(config, r.meta) == BoundTo(identity) &&
            (r.deleting || (forall ref :: ref in r.parents ==> LetsGo(config, live, r, ref, identity)) ||
             (live.cluster.versionSupported &&
              (!OneOfOurs(config, live, r) ||
               (Decidable(config, live, r) && !StillAsked(config, live, r, OurGateway(config, live, r), identity)))))
    ensures ObserveRouteCleanup(config, settings, live, r, identity) == StillDesired <==>
            StoredIdentity(config, r.meta) == BoundTo(identity) && !r.deleting && live.cluster.versionSupported &&
            OneOfOurs(config, live, r) && !LetsGo(config, live, r, r.parents[0], identity) && Decidable(config, live, r) &&
            StillAsked(config, live, r, OurGateway(config, live, r), identity)
  {
    hide StoredIdentity, ViewParents, ViewParent, LetsGo, CleanupWithParent, StillAsked, AllowedDuringMismatch, ManagedViews, IsGatewayRef;
    LetsGoExactly(config, live, r, r.parents, identity);
    if |r.parents| == 1 {
      assert forall ref :: ref in r.parents <==> ref == r.parents[0];
      OneParentViews(config, live, r);
      if OneOfOurs(config, live, r) {
        var g := OurGateway(config, live, r);
        WithParentExactly(config, settings, live, r, identity, g, live.cluster.classes[g.spec.className]);
      }
    }
  }

  /** The fence passes whenever nothing changed since a Ready snapshot and the
      installed version is supported. */
  lemma UnchangedRouteSeals(config: Config, settings: Settings, live: Live, r: Route, g: Gateway)
    requires Current(config, live, r, g) && live.cluster.versionSupported
    requires IsReady(ValidateForEnsure(config, settings, live, r, g))
    ensures RouteSealed(config, live, ValidateForEnsure(config, settings, live, r, g).snapshot, true)
  {
    hide ParentOk, Selected, BuildSpec, StructurallySupported, CanReserve, StoredIdentity, Itoa, BindingValid, RouteIdentity, Applied,
         ValidGateway, BindingFinalizer;
    ReadyMeans(config, settings, live, r, g);
    ApplyThenRead(config, r.meta, TargetFor(g));
    AppliedFinalizers(config, r.meta, TargetFor(g));
  }
}
