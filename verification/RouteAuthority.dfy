/** Who may act on a route's resources: the live snapshot that authorises ensuring
    them and the one that authorises deleting them. */
module RouteAuthority {
  import opened Ownership
  import opened RouteModel
  import opened Kube
  import opened GatewayAuthority
  import opened RouteBinding
  import opened RouteSelection

  /** Everything live reads return at one moment. */
  datatype Live = Live(
    cluster: Cluster, routes: map<Key, Route>, services: Services,
    members: (Service, int) -> Option<seq<Endpoint>>, listing: seq<Route>)

  function RouteKey(r: Route): Key
  {
    Key(r.meta.namespace, r.meta.name)
  }

  function TargetFor(g: Gateway): Target
  {
    Target(g.namespace, g.name, g.uid)
  }

  function IdentityFor(config: Config, g: Gateway, r: Route): Identity
  {
    RouteIdentity(config, TargetFor(g), r.meta.namespace, r.meta.name, r.meta.uid)
  }

  predicate SameRevision(r: Route, expected: Route)
  {
    r.meta.uid == expected.meta.uid && r.generation == expected.generation && r.deleting == expected.deleting
  }

  // ----- ensuring -----

  datatype Disposition = GatewayWaiting | BindingNeeded | ReadyToEnsure

  datatype RouteSnapshot = RouteSnapshot(route: Route, gateway: Gateway, spec: RouteSpec)

  datatype Validation = Refused | Validated(disposition: Disposition, snapshot: RouteSnapshot)

  /** The Gateway as it must be before any route reasoning starts. */
  predicate GatewayUsable(config: Config, live: Live, g: Gateway)
  {
    !g.deleting && g.spec.className in live.cluster.classes && Managed(config, live.cluster.classes[g.spec.className]) &&
    live.cluster.classes[g.spec.className].supported && HasFinalizer(config, g) && BindingValid(config, g)
  }

  predicate ProgrammedNow(g: Gateway)
  {
    g.programmed == Some(g.generation)
  }

  /** The Gateway is programmed, or the route is already bound to it. */
  predicate MayProceed(config: Config, g: Gateway, r: Route)
  {
    ProgrammedNow(g) ||
    (StoredIdentity(config, r.meta) == BoundTo(IdentityFor(config, g, r)) && config.RouteFinalizer() in r.meta.finalizers)
  }

  /** Slot, selection and specification, then the state of the binding. */
  function ValidateModel(config: Config, settings: Settings, live: Live, r: Route, g: Gateway, listener: ListenerSpec): Validation
    requires |r.parents| == 1
  {
    var contest := Contest(g, Some(listener), r.parents[0], r.meta.namespace);
    if StructurallySupported(r) && !CanReserve(live.services, r) then Refused
    else if !Selected(live.services, contest, live.listing, r) then Refused
    else
      var built := BuildSpec(settings, live.services, live.members, r, listener.port);
      if !built.BuiltSpec? || StoredIdentity(config, r.meta).Unreadable? then Refused
      else
        var snapshot := RouteSnapshot(r, g, built.spec);
        if !MayProceed(config, g, r) then Validated(GatewayWaiting, snapshot)
        else if Applied(config, r.meta, TargetFor(g)) != r.meta then Validated(BindingNeeded, snapshot)
        else Validated(ReadyToEnsure, snapshot)
  }

  function ValidateForEnsure(config: Config, settings: Settings, live: Live, expected: Route, gateway: Gateway): Validation
  {
    if RouteKey(expected) !in live.routes || GatewayKey(gateway) !in live.cluster.gateways then Refused
    else
      var r, g := live.routes[RouteKey(expected)], live.cluster.gateways[GatewayKey(gateway)];
      if !SameRevision(r, expected) || g.uid != gateway.uid || g.generation != gateway.generation then Refused
      else if !GatewayUsable(config, live, g) || |r.parents| != 1 then Refused
      else
        var listener := ValidGateway(g.spec);
        if listener.None? then
          Validated(GatewayWaiting, RouteSnapshot(r, g, RouteSpec("", "", "", "", "", 0, "", "", "", OtherMatch(""), "", [])))
        else if !ParentOk(r, r.parents[0], g, listener) || Port(config, g) != Itoa(listener.value.port) then Refused
        else ValidateModel(config, settings, live, r, g, listener.value)
  }

  // ----- cleaning up -----

  datatype RouteCleanup = CleanupRefused | CleanupRequired | StillDesired

  datatype ParentView = ParentView(ref: ParentRef, gateway: Option<Gateway>, class_: Option<GatewayClass>, managed: bool)

  function ViewParent(config: Config, live: Live, r: Route, ref: ParentRef): ParentView
  {
    var key := TargetOf(ref, r.meta.namespace);
    if key !in live.cluster.gateways then ParentView(ref, None, None, false)
    else
      var g := live.cluster.gateways[key];
      if g.spec.className !in live.cluster.classes then ParentView(ref, Some(g), None, false)
      else
        var class_ := live.cluster.classes[g.spec.className];
        ParentView(ref, Some(g), Some(class_), class_.controllerName == config.controllerName)
  }

  function ViewParents(config: Config, live: Live, r: Route, refs: seq<ParentRef>): seq<ParentView>
  {
    if refs == [] then []
    else
      (if IsGatewayRef(refs[0]) then [ViewParent(config, live, r, refs[0])] else []) + ViewParents(config, live, r, refs[1..])
  }

  /** A parent that does not stand in the way of cleanup whatever the installed
      version: gone, foreign, or the bound Gateway itself being deleted. */
  predicate ParentOutOfTheWay(v: ParentView, stored: Identity)
  {
    v.gateway.None? ||
    (v.class_.Some? &&
     (!v.managed ||
      (v.gateway.value.namespace == stored.gatewayNamespace && v.gateway.value.name == stored.gatewayName &&
       v.gateway.value.uid == stored.gatewayUID && v.gateway.value.deleting)))
  }

  predicate AllowedDuringMismatch(views: seq<ParentView>, stored: Identity)
  {
    forall i :: 0 <= i < |views| ==> ParentOutOfTheWay(views[i], stored)
  }

  function ManagedViews(views: seq<ParentView>): (r: seq<ParentView>)
    ensures forall i :: 0 <= i < |r| ==> r[i].managed && r[i] in views
  {
    if views == [] then [] else (if views[0].managed then [views[0]] else []) + ManagedViews(views[1..])
  }

  /** With a supported version and a single managed parent: is the route still
      what this Gateway should serve? */
  function CleanupWithParent(
    config: Config, settings: Settings, live: Live, r: Route, stored: Identity, g: Gateway, class_: GatewayClass): RouteCleanup
    requires |r.parents| == 1
  {
    var listener := if |g.spec.listeners| == 1 then Some(g.spec.listeners[0]) else None;
    var contest := Contest(g, listener, r.parents[0], r.meta.namespace);
    if !class_.supported || class_.parametersRef then CleanupRefused
    else if !ParentOk(r, r.parents[0], g, listener) || !StructurallySupported(r) then CleanupRequired
    else if !CanReserve(live.services, r) || !Selected(live.services, contest, live.listing, r) then CleanupRequired
    else
      var built := BuildSpec(settings, live.services, live.members, r, listener.value.port);
      if built.BuiltSpec? && IdentityFor(config, g, r) == stored then StillDesired else CleanupRequired
  }

  function ObserveRouteCleanup(config: Config, settings: Settings, live: Live, expected: Route, identity: Identity): RouteCleanup
  {
    if RouteKey(expected) !in live.routes then CleanupRefused
    else
      var r := live.routes[RouteKey(expected)];
      if !SameRevision(r, expected) || r.resourceVersion != expected.resourceVersion then CleanupRefused
      else if StoredIdentity(config, r.meta) != BoundTo(identity) then CleanupRefused
      else if r.deleting then CleanupRequired
      else
        var views := ViewParents(config, live, r, r.parents);
        if AllowedDuringMismatch(views, identity) then CleanupRequired
        else if !live.cluster.versionSupported then CleanupRefused
        else if |r.parents| != 1 || |ManagedViews(views)| != 1 then CleanupRequired
        else
          var v := ManagedViews(views)[0];
          if v.gateway.None? || v.class_.None? then CleanupRefused
          else CleanupWithParent(config, settings, live, r, identity, v.gateway.value, v.class_.value)
  }

  /** The parents in the order the controller visits them. */
  method ObserveParents(config: Config, live: Live, r: Route) returns (views: seq<ParentView>)
    ensures views == ViewParents(config, live, r, r.parents)
  {
    hide ViewParent, IsGatewayRef;
    views := [];
    for i := 0 to |r.parents|
      invariant views + ViewParents(config, live, r, r.parents[i..]) == ViewParents(config, live, r, r.parents)
    {
      assert r.parents[i..][0] == r.parents[i] && r.parents[i..][1..] == r.parents[i + 1..];
      var step := if IsGatewayRef(r.parents[i]) then [ViewParent(config, live, r, r.parents[i])] else [];
      Glue(views, step, ViewParents(config, live, r, r.parents[i + 1..]));
      views := views + step;
    }
  }

  lemma Glue(a: seq<ParentView>, b: seq<ParentView>, c: seq<ParentView>)
    ensures a + b + c == a + (b + c)
  {
  }

  method CleanupAllowedDuringVersionMismatch(views: seq<ParentView>, stored: Identity) returns (r: bool)
    ensures r == AllowedDuringMismatch(views, stored)
  {
    for i := 0 to |views|
      invariant forall j :: 0 <= j < i ==> ParentOutOfTheWay(views[j], stored)
    {
      if !ParentOutOfTheWay(views[i], stored) {
        return false;
      }
    }
    r := true;
  }

  // ----- exclusive authority -----

  /** Objects are stored under their own names, and names are not empty. */
  ghost predicate LiveNames(live: Live)
  {
    NamesAgree(live.cluster) && (forall k :: k in live.routes ==> RouteKey(live.routes[k]) == k) &&
    (forall k :: k in live.cluster.gateways ==> k.namespace != "" && k.name != "" && live.cluster.gateways[k].uid != "") &&
    (forall k :: k in live.routes ==> k.namespace != "" && k.name != "" && live.routes[k].meta.uid != "")
  }

  predicate IsReady(v: Validation)
  {
    v.Validated? && v.disposition == ReadyToEnsure
  }

  lemma ReadyMeans(config: Config, settings: Settings, live: Live, expected: Route, gateway: Gateway)
    requires IsReady(ValidateForEnsure(config, settings, live, expected, gateway))
    ensures RouteKey(expected) in live.routes && GatewayKey(gateway) in live.cluster.gateways
    ensures var r, g := live.routes[RouteKey(expected)], live.cluster.gateways[GatewayKey(gateway)];
            GatewayUsable(config, live, g) && |r.parents| == 1 && SameRevision(r, expected) &&
            |g.spec.listeners| == 1 && ParentOk(r, r.parents[0], g, Some(g.spec.listeners[0])) &&
            Selected(live.services, Contest(g, Some(g.spec.listeners[0]), r.parents[0], r.meta.namespace), live.listing, r) &&
            BuildSpec(settings, live.services, live.members, r, g.spec.listeners[0].port).BuiltSpec? &&
            Applied(config, r.meta, TargetFor(g)) == r.meta
  {
    hide GatewayUsable, ParentOk, Selected, BuildSpec, Applied, StructurallySupported, CanReserve, StoredIdentity, Itoa;
  }

  lemma OneParent(config: Config, live: Live, r: Route, g: Gateway)
    requires |r.parents| == 1 && IsGatewayRef(r.parents[0])
    requires TargetOf(r.parents[0], r.meta.namespace) in live.cluster.gateways
    requires live.cluster.gateways[TargetOf(r.parents[0], r.meta.namespace)] == g && GatewayUsable(config, live, g)
    ensures var v := ViewParent(config, live, r, r.parents[0]);
            ViewParents(config, live, r, r.parents) == [v] && ManagedViews([v]) == [v] && v.managed &&
            v.gateway == Some(g) && v.class_ == Some(live.cluster.classes[g.spec.className])
  {
    hide BindingValid;
    assert r.parents[1..] == [];
  }

  /** Cleanup of a bound route with one usable parent comes down to that parent. */
  lemma CleanupOfOneParent(
    config: Config, settings: Settings, live: Live, r: Route, g: Gateway, other: Route, identity: Identity, stored: Identity)
    requires RouteKey(other) in live.routes && live.routes[RouteKey(other)] == r && !r.deleting && |r.parents| == 1
    requires StoredIdentity(config, r.meta) == BoundTo(stored) && GatewayUsable(config, live, g)
    requires var v := ViewParent(config, live, r, r.parents[0]);
             ViewParents(config, live, r, r.parents) == [v] && ManagedViews([v]) == [v] && v.managed &&
             v.gateway == Some(g) && v.class_ == Some(live.cluster.classes[g.spec.className])
    ensures ObserveRouteCleanup(config, settings, live, other, identity) == CleanupRefused ||
            ObserveRouteCleanup(config, settings, live, other, identity) ==
              CleanupWithParent(config, settings, live, r, stored, g, live.cluster.classes[g.spec.className])
  {
    hide ViewParents, ViewParent, ManagedViews, StoredIdentity, BindingValid, CleanupWithParent;
    assert !ParentOutOfTheWay(ViewParents(config, live, r, r.parents)[0], identity);
  }

  /** A Ready snapshot of a route that is not being deleted, taken for the Gateway
      its parent reference names, leaves cleanup with StillDesired or a refusal. */
  lemma ReadyExcludesCleanup(
    config: Config, settings: Settings, live: Live, expected: Route, gateway: Gateway, other: Route, identity: Identity)
    requires IsReady(ValidateForEnsure(config, settings, live, expected, gateway)) && !expected.deleting
    requires LiveNames(live) && config.cluster != "" && config.controllerName != ""
    requires RouteKey(other) == RouteKey(expected)
    requires var r := live.routes[RouteKey(expected)];
             |r.parents| == 1 ==> IsGatewayRef(r.parents[0]) && TargetOf(r.parents[0], r.meta.namespace) == GatewayKey(gateway)
    ensures ObserveRouteCleanup(config, settings, live, other, identity) != CleanupRequired
  {
    ReadyMeans(config, settings, live, expected, gateway);
    var r, g := live.routes[RouteKey(expected)], live.cluster.gateways[GatewayKey(gateway)];
    hide ValidateForEnsure, BuildSpec, Applied, StoredIdentity, Selected, ParentOk, StructurallySupported, CanReserve,
         GatewayUsable, RouteIdentity, CleanupWithParent, ObserveRouteCleanup, ViewParents, ViewParent, ManagedViews;
    OneParent(config, live, r, g);
    BuiltIsSupported(settings, live.services, live.members, r, g.spec.listeners[0].port);
    ApplyThenRead(config, r.meta, TargetFor(g));
    StillWanted(config, settings, live, r, g, live.cluster.classes[g.spec.className]);
    CleanupOfOneParent(config, settings, live, r, g, other, identity, IdentityFor(config, g, r));
  }

  lemma StillWanted(config: Config, settings: Settings, live: Live, r: Route, g: Gateway, class_: GatewayClass)
    requires |r.parents| == 1 && |g.spec.listeners| == 1 && ParentOk(r, r.parents[0], g, Some(g.spec.listeners[0]))
    requires StructurallySupported(r) && CanReserve(live.services, r)
    requires Selected(live.services, Contest(g, Some(g.spec.listeners[0]), r.parents[0], r.meta.namespace), live.listing, r)
    requires BuildSpec(settings, live.services, live.members, r, g.spec.listeners[0].port).BuiltSpec?
    ensures CleanupWithParent(config, settings, live, r, IdentityFor(config, g, r), g, class_) != CleanupRequired
  {
    hide ParentOk, StructurallySupported, CanReserve, Selected, BuildSpec;
  }

  /** For a route that is being deleted a Ready snapshot does not exclude cleanup:
      cleanup is then required whenever the route has not changed since it was read.
      The controller never asks to ensure a deleting route. */
  lemma DeletingRouteIsNotExcluded(
    config: Config, settings: Settings, live: Live, expected: Route, gateway: Gateway)
    requires IsReady(ValidateForEnsure(config, settings, live, expected, gateway)) && expected.deleting
    requires LiveNames(live) && config.cluster != "" && config.controllerName != ""
    requires expected == live.routes[RouteKey(expected)]
    ensures var identity := IdentityFor(config, live.cluster.gateways[GatewayKey(gateway)], expected);
            ObserveRouteCleanup(config, settings, live, expected, identity) == CleanupRequired
  {
    ReadyMeans(config, settings, live, expected, gateway);
    var r, g := live.routes[RouteKey(expected)], live.cluster.gateways[GatewayKey(gateway)];
    ApplyThenRead(config, r.meta, TargetFor(g));
    hide ValidateForEnsure, ViewParents, ManagedViews, BuildSpec, Applied, StoredIdentity, Selected, ParentOk,
         GatewayUsable;
  }

  /** Exactly when a Ready snapshot meets a cleanup that would delete: the route is
      being deleted. */
  lemma ReadyMeetsCleanupIff(config: Config, settings: Settings, live: Live, expected: Route, gateway: Gateway)
    requires IsReady(ValidateForEnsure(config, settings, live, expected, gateway))
    requires LiveNames(live) && config.cluster != "" && config.controllerName != ""
    requires expected == live.routes[RouteKey(expected)]
    requires |expected.parents| == 1 ==>
               IsGatewayRef(expected.parents[0]) && TargetOf(expected.parents[0], expected.meta.namespace) == GatewayKey(gateway)
    ensures var identity := IdentityFor(config, live.cluster.gateways[GatewayKey(gateway)], expected);
            ObserveRouteCleanup(config, settings, live, expected, identity) == CleanupRequired <==> expected.deleting
  {
    hide ValidateForEnsure, ObserveRouteCleanup, LiveNames, IsGatewayRef, GatewayUsable, ParentOk, Selected,
         BuildSpec, Applied;
    ReadyMeans(config, settings, live, expected, gateway);
    if expected.deleting {
      DeletingRouteIsNotExcluded(config, settings, live, expected, gateway);
    } else {
      var identity := IdentityFor(config, live.cluster.gateways[GatewayKey(gateway)], expected);
      ReadyExcludesCleanup(config, settings, live, expected, gateway, expected, identity);
    }
  }

  // ----- the fence before a mutation -----

  /** Live state must still agree with what the snapshot was built from; with
      `required`, the route must also be bound to the Gateway. */
  predicate RouteSealed(config: Config, live: Live, s: RouteSnapshot, required: bool)
  {
    live.cluster.versionSupported && RouteKey(s.route) in live.routes && GatewayKey(s.gateway) in live.cluster.gateways &&
    var r, g := live.routes[RouteKey(s.route)], live.cluster.gateways[GatewayKey(s.gateway)];
    SameRevision(r, s.route) && g.uid == s.gateway.uid && g.generation == s.gateway.generation && !g.deleting &&
    HasFinalizer(config, g) && SameBinding(config, g, s.gateway) && BindingValid(config, g) &&
    (required ==>
      StoredIdentity(config, r.meta) == BoundTo(IdentityFor(config, g, r)) && config.RouteFinalizer() in r.meta.finalizers) &&
    g.spec.className in live.cluster.classes && Managed(config, live.cluster.classes[g.spec.className]) &&
    live.cluster.classes[g.spec.className].supported
  }

  /** API server law: the specification of a route changes only together with its
      generation, its creation time never. */
  ghost predicate RouteGenerationLaw(before: Live, after: Live)
  {
    forall k :: k in before.routes && k in after.routes && before.routes[k].meta.uid == after.routes[k].meta.uid &&
                before.routes[k].generation == after.routes[k].generation ==>
      SameSpecification(before.routes[k], after.routes[k])
  }

  predicate SameSpecification(a: Route, b: Route)
  {
    a.created == b.created && a.parents == b.parents && a.hostnames == b.hostnames && a.rules == b.rules
  }

  /** What only the Services, their members and the competing routes decide. */
  ghost predicate ServedNow(settings: Settings, live: Live, r: Route, g: Gateway)
    requires |r.parents| == 1 && |g.spec.listeners| == 1 && StructurallySupported(r)
  {
    CanReserve(live.services, r) &&
    Selected(live.services, Contest(g, Some(g.spec.listeners[0]), r.parents[0], r.meta.namespace), live.listing, r) &&
    BuildSpec(settings, live.services, live.members, r, g.spec.listeners[0].port).BuiltSpec?
  }

  /** The model and the fence saw the same specifications. */
  lemma SealedSpecifications(config: Config, settings: Settings, before: Live, after: Live, expected: Route, gateway: Gateway, required: bool)
    requires var v := ValidateForEnsure(config, settings, before, expected, gateway);
             IsReady(v) && RouteSealed(config, after, v.snapshot, required)
    requires GenerationLaw(before.cluster, after.cluster) && RouteGenerationLaw(before, after) && LiveNames(before) && LiveNames(after)
    ensures RouteKey(expected) in before.routes && GatewayKey(gateway) in before.cluster.gateways
    ensures RouteKey(expected) in after.routes && GatewayKey(gateway) in after.cluster.gateways
    ensures var r, g := after.routes[RouteKey(expected)], after.cluster.gateways[GatewayKey(gateway)];
            SameSpecification(before.routes[RouteKey(expected)], r) && before.cluster.gateways[GatewayKey(gateway)].spec == g.spec &&
            SameRevision(r, expected) && GatewayUsable(config, after, g)
    ensures required ==>
              var r, g := after.routes[RouteKey(expected)], after.cluster.gateways[GatewayKey(gateway)];
              StoredIdentity(config, r.meta) == BoundTo(IdentityFor(config, g, r)) && config.RouteFinalizer() in r.meta.finalizers
  {
    hide ParentOk, Selected, BuildSpec, Applied, StructurallySupported, CanReserve, StoredIdentity, Itoa,
         BindingValid, SameBinding, RouteIdentity;
    ReadyMeans(config, settings, before, expected, gateway);
    var s := ValidateForEnsure(config, settings, before, expected, gateway).snapshot;
    var k, j := RouteKey(expected), GatewayKey(gateway);
    assert s.route == before.routes[k] && s.gateway == before.cluster.gateways[j];
    assert RouteKey(s.route) == k && GatewayKey(s.gateway) == j;
  }

  /** Support and the parent check read the specification, the namespace and
      whether the Gateway is being deleted. */
  lemma SameSupport(a: Route, b: Route, g: Gateway, h: Gateway)
    requires SameSpecification(a, b) && a.meta.namespace == b.meta.namespace && |a.parents| == 1 && |g.spec.listeners| == 1
    requires g.spec == h.spec && g.namespace == h.namespace && g.deleting == h.deleting
    ensures StructurallySupported(a) <==> StructurallySupported(b)
    ensures var listener := Some(g.spec.listeners[0]); ParentOk(a, a.parents[0], g, listener) <==> ParentOk(b, b.parents[0], h, listener)
  {
    hide PlainRule, SupportedMatch, PlainBackend, AllowsHTTPRoutes;
  }

  /** Cleanup of the route a Gateway is usable for: decided by what serves it now. */
  lemma CleanupOfBound(config: Config, settings: Settings, live: Live, r: Route, g: Gateway, class_: GatewayClass)
    requires |r.parents| == 1 && |g.spec.listeners| == 1 && ParentOk(r, r.parents[0], g, Some(g.spec.listeners[0]))
    requires StructurallySupported(r) && class_.supported && !class_.parametersRef
    ensures CleanupWithParent(config, settings, live, r, IdentityFor(config, g, r), g, class_) ==
            if ServedNow(settings, live, r, g) then StillDesired else CleanupRequired
  {
    hide ParentOk, StructurallySupported, CanReserve, Selected, BuildSpec, RouteIdentity;
  }

  /** On an up-to-date read nothing refuses the cleanup of a bound route with one
      usable parent. */
  lemma CleanupNotRefused(config: Config, settings: Settings, live: Live, r: Route, g: Gateway, stored: Identity)
    requires RouteKey(r) in live.routes && live.routes[RouteKey(r)] == r && !r.deleting && |r.parents| == 1
    requires StoredIdentity(config, r.meta) == BoundTo(stored) && GatewayUsable(config, live, g) && live.cluster.versionSupported
    requires var v := ViewParent(config, live, r, r.parents[0]);
             ViewParents(config, live, r, r.parents) == [v] && ManagedViews([v]) == [v] && v.managed &&
             v.gateway == Some(g) && v.class_ == Some(live.cluster.classes[g.spec.className])
    ensures ObserveRouteCleanup(config, settings, live, r, stored) ==
            CleanupWithParent(config, settings, live, r, stored, g, live.cluster.classes[g.spec.className])
  {
    hide ViewParents, ViewParent, ManagedViews, StoredIdentity, BindingValid, CleanupWithParent;
    assert !ParentOutOfTheWay(ViewParents(config, live, r, r.parents)[0], stored);
  }

  /** The model may have been built in one state and the fence passed in a later
      one. In the later state the route is still at the revision that was read, is
      bound to this Gateway, and the Gateway is usable and accepts it; and an
      up-to-date cleanup then decides by nothing but the Services, their members
      and the competing routes. */
  lemma SealedRoute(config: Config, settings: Settings, before: Live, after: Live, expected: Route, gateway: Gateway)
    requires var v := ValidateForEnsure(config, settings, before, expected, gateway);
             IsReady(v) && RouteSealed(config, after, v.snapshot, true)
    requires GenerationLaw(before.cluster, after.cluster) && RouteGenerationLaw(before, after) && LiveNames(before) && LiveNames(after)
    requires RouteKey(expected) in before.routes && !expected.deleting
    requires var r := before.routes[RouteKey(expected)];
             |r.parents| == 1 ==> IsGatewayRef(r.parents[0]) && TargetOf(r.parents[0], r.meta.namespace) == GatewayKey(gateway)
    ensures RouteKey(expected) in after.routes && GatewayKey(gateway) in after.cluster.gateways
    ensures var r, g := after.routes[RouteKey(expected)], after.cluster.gateways[GatewayKey(gateway)];
            var identity := IdentityFor(config, g, r);
            SameRevision(r, expected) && StoredIdentity(config, r.meta) == BoundTo(identity) && GatewayUsable(config, after, g) &&
            |r.parents| == 1 && |g.spec.listeners| == 1 && ParentOk(r, r.parents[0], g, Some(g.spec.listeners[0])) &&
            StructurallySupported(r) &&
            ObserveRouteCleanup(config, settings, after, r, identity) ==
              (if ServedNow(settings, after, r, g) then StillDesired else CleanupRequired) &&
            forall other, wanted :: RouteKey(other) == RouteKey(expected) && ServedNow(settings, after, r, g) ==>
              ObserveRouteCleanup(config, settings, after, other, wanted) != CleanupRequired
  {
    ReadyMeans(config, settings, before, expected, gateway);
    SealedSpecifications(config, settings, before, after, expected, gateway, true);
    var r0, g0 := before.routes[RouteKey(expected)], before.cluster.gateways[GatewayKey(gateway)];
    var r, g := after.routes[RouteKey(expected)], after.cluster.gateways[GatewayKey(gateway)];
    assert !g0.deleting && !g.deleting && GatewayKey(g) == GatewayKey(g0) && RouteKey(r) == RouteKey(r0);
    assert after.cluster.versionSupported;
    hide ValidateForEnsure, BuildSpec, Applied, StoredIdentity, Selected, ParentOk, StructurallySupported, CanReserve,
         RouteIdentity, CleanupWithParent, ObserveRouteCleanup, ViewParents, ViewParent, ManagedViews, BindingValid,
         RouteGenerationLaw, GenerationLaw, RouteSealed, ServedNow, IsGatewayRef;
    BuiltIsSupported(settings, before.services, before.members, r0, g0.spec.listeners[0].port);
    SameSupport(r0, r, g0, g);
    var class_ := after.cluster.classes[g.spec.className];
    OneParent(config, after, r, g);
    CleanupNotRefused(config, settings, after, r, g, IdentityFor(config, g, r));
    CleanupOfBound(config, settings, after, r, g, class_);
    forall other, wanted | RouteKey(other) == RouteKey(expected) && ServedNow(settings, after, r, g)
      ensures ObserveRouteCleanup(config, settings, after, other, wanted) != CleanupRequired
    {
      CleanupOfOneParent(config, settings, after, r, g, other, wanted, IdentityFor(config, g, r));
    }
  }

  /** While the Services, their members and the listing stay as they were, the
      sealed route stays wanted. */
  lemma SealedStaysWanted(config: Config, settings: Settings, before: Live, after: Live, expected: Route, gateway: Gateway)
    requires var v := ValidateForEnsure(config, settings, before, expected, gateway);
             IsReady(v) && RouteSealed(config, after, v.snapshot, true)
    requires GenerationLaw(before.cluster, after.cluster) && RouteGenerationLaw(before, after) && LiveNames(before) && LiveNames(after)
    requires RouteKey(expected) in before.routes && !expected.deleting
    requires var r := before.routes[RouteKey(expected)];
             |r.parents| == 1 ==> IsGatewayRef(r.parents[0]) && TargetOf(r.parents[0], r.meta.namespace) == GatewayKey(gateway)
    requires after.services == before.services && after.members == before.members && after.listing == before.listing
    ensures RouteKey(expected) in after.routes && GatewayKey(gateway) in after.cluster.gateways
    ensures var r, g := after.routes[RouteKey(expected)], after.cluster.gateways[GatewayKey(gateway)];
            ObserveRouteCleanup(config, settings, after, r, IdentityFor(config, g, r)) == StillDesired
  {
    SealedRoute(config, settings, before, after, expected, gateway);
    SealedSpecifications(config, settings, before, after, expected, gateway, true);
    ReadyMeans(config, settings, before, expected, gateway);
    var r0, g0 := before.routes[RouteKey(expected)], before.cluster.gateways[GatewayKey(gateway)];
    var r, g := after.routes[RouteKey(expected)], after.cluster.gateways[GatewayKey(gateway)];
    assert !g0.deleting && !g.deleting && GatewayKey(g) == GatewayKey(g0) && RouteKey(r) == RouteKey(r0);
    hide ValidateForEnsure, BuildSpec, Applied, StoredIdentity, Selected, ParentOk, StructurallySupported, CanReserve,
         RouteIdentity, ObserveRouteCleanup, BindingValid, RouteGenerationLaw, GenerationLaw, RouteSealed, IsGatewayRef,
         GatewayUsable;
    BuiltIsSupported(settings, before.services, before.members, r0, g0.spec.listeners[0].port);
    SameService(settings, before, r0, r, g0, g);
  }

  lemma SameService(settings: Settings, live: Live, a: Route, b: Route, g: Gateway, h: Gateway)
    requires SameSpecification(a, b) && RouteKey(a) == RouteKey(b)
    requires g.spec == h.spec && g.namespace == h.namespace && g.deleting == h.deleting && |g.spec.listeners| == 1
    requires |a.parents| == 1 && StructurallySupported(a) && StructurallySupported(b) && ServedNow(settings, live, a, g)
    ensures BuildSpec(settings, live.services, live.members, b, h.spec.listeners[0].port).BuiltSpec?
    ensures CanReserve(live.services, b)
    ensures Selected(live.services, Contest(h, Some(h.spec.listeners[0]), b.parents[0], b.meta.namespace), live.listing, b)
  {
    hide PlainRule, SupportedMatch, PlainBackend, AllowsHTTPRoutes, NodePortFor;
    var ca := Contest(g, Some(g.spec.listeners[0]), a.parents[0], a.meta.namespace);
    var cb := Contest(h, Some(h.spec.listeners[0]), b.parents[0], b.meta.namespace);
    forall i | 0 <= i < |live.listing| && live.listing[i].meta.name != b.meta.name && Eligible(live.services, cb, live.listing[i])
      ensures !Precedes(live.listing[i], b)
    {
      assert Eligible(live.services, ca, live.listing[i]);
    }
  }

  /** At most one live route of a Gateway can be Ready. */
  lemma AtMostOneReady(
    config: Config, settings: Settings, live: Live, a: Route, b: Route, gateway: Gateway)
    requires IsReady(ValidateForEnsure(config, settings, live, a, gateway)) && !a.deleting
    requires IsReady(ValidateForEnsure(config, settings, live, b, gateway)) && !b.deleting
    requires RouteKey(a) in live.routes && RouteKey(b) in live.routes
    requires var ra, rb := live.routes[RouteKey(a)], live.routes[RouteKey(b)];
             ra in live.listing && rb in live.listing && OneNamespace(live.listing) &&
             (|ra.parents| == 1 && |rb.parents| == 1 ==>
               SameTarget(ra.parents[0], ra.meta.namespace, rb.parents[0], rb.meta.namespace))
    ensures live.routes[RouteKey(a)] == live.routes[RouteKey(b)]
  {
    ReadyMeans(config, settings, live, a, gateway);
    ReadyMeans(config, settings, live, b, gateway);
    var ra, rb, g := live.routes[RouteKey(a)], live.routes[RouteKey(b)], live.cluster.gateways[GatewayKey(gateway)];
    BuiltIsSupported(settings, live.services, live.members, ra, g.spec.listeners[0].port);
    BuiltIsSupported(settings, live.services, live.members, rb, g.spec.listeners[0].port);
    hide ValidateForEnsure, BuildSpec, Applied, ParentOk, GatewayUsable, StructurallySupported, CanReserve;
    OnlyOneWins(live.services, Some(g.spec.listeners[0]), g, live.listing, ra, rb);
  }

  lemma OnlyOneWins(services: Services, listener: Option<ListenerSpec>, g: Gateway, listing: seq<Route>, a: Route, b: Route)
    requires OneNamespace(listing) && a in listing && b in listing && |a.parents| == 1 && |b.parents| == 1
    requires SameTarget(a.parents[0], a.meta.namespace, b.parents[0], b.meta.namespace) && !a.deleting && !b.deleting
    requires ParentOk(a, a.parents[0], g, listener) && ParentOk(b, b.parents[0], g, listener)
    requires StructurallySupported(a) && CanReserve(services, a) && StructurallySupported(b) && CanReserve(services, b)
    requires Selected(services, ContestOf(g, listener, a), listing, a) && Selected(services, ContestOf(g, listener, b), listing, b)
    ensures a == b
  {
    var contest := ContestOf(g, listener, a);
    assert Eligible(services, contest, a) && Eligible(services, contest, b);
    hide Eligible, ParentOk, StructurallySupported, CanReserve;
    EligibleContest(services, contest, b);
    var i :| 0 <= i < |listing| && listing[i] == a;
    var j :| 0 <= j < |listing| && listing[j] == b;
    var w := ExactlyOneSelected(services, contest, listing);
  }

  // ----- a deleting route that is Ready -----

  const EXAMPLE_CONFIG := Config("example.com", "key", "example.com/controller", "v1", "project", "cluster", (s: string) => "")

  const EXAMPLE_LISTENER := ListenerSpec("http", "HTTP", false, None, 80, None)

  const EXAMPLE_GATEWAY :=
    Bound(EXAMPLE_CONFIG,
          Gateway("ns", "gateway", "gateway-uid", 1, "1", false, map[], [],
                  GatewaySpecification("class", 0, false, false, false, [EXAMPLE_LISTENER]), Some(1)),
          "80", "2")

  const EXAMPLE_ROUTE :=
    Route(Applied(EXAMPLE_CONFIG, RouteMeta("ns", "route", "route-uid", map[], []), Target("ns", "gateway", "gateway-uid")),
          1, "1", true, 0, [ParentRef(None, None, None, "gateway", None, None)], [],
          [RuleSpec(false, 0, false, false, false, [], [BackendRef(0, None, None, None, None, "service", Some(80))])])

  const EXAMPLE_LIVE :=
    Live(Cluster(map[Key("ns", "gateway") := EXAMPLE_GATEWAY],
                 map["class" := GatewayClass("class", "example.com/controller", false, true)], true),
         map[Key("ns", "route") := EXAMPLE_ROUTE],
         map[Key("ns", "service") := Service(true, [ServicePort(80, "TCP", None, 30080)])],
         (service: Service, port: int) => Some([Endpoint("192.0.2.1", port)]), [EXAMPLE_ROUTE])

  const EXAMPLE_SETTINGS := Settings("amphora", "vip", "", "members", "/")

  lemma EightyIsEighty()
    ensures Itoa(80) == "80"
  {
    assert Digits(8) == "8";
    assert Digits(80) == Digits(8) + ['0'];
  }

  lemma ExampleGatewayUsable()
    ensures GatewayUsable(EXAMPLE_CONFIG, EXAMPLE_LIVE, EXAMPLE_GATEWAY) && Port(EXAMPLE_CONFIG, EXAMPLE_GATEWAY) == "80"
    ensures ValidGateway(EXAMPLE_GATEWAY.spec) == Some(EXAMPLE_LISTENER)
  {
    var bare := Gateway("ns", "gateway", "gateway-uid", 1, "1", false, map[], [],
                        GatewaySpecification("class", 0, false, false, false, [EXAMPLE_LISTENER]), Some(1));
    BindingRoundTrip(EXAMPLE_CONFIG, bare, "80", "2", "3");
  }

  lemma ExampleSelected()
    ensures Selected(EXAMPLE_LIVE.services, Contest(EXAMPLE_GATEWAY, Some(EXAMPLE_LISTENER), EXAMPLE_ROUTE.parents[0], "ns"),
                     EXAMPLE_LIVE.listing, EXAMPLE_ROUTE)
  {
    hide Applied, Bound, Eligible, Precedes;
  }

  lemma ExampleBinding()
    ensures var t := Target("ns", "gateway", "gateway-uid");
            TargetFor(EXAMPLE_GATEWAY) == t && Applied(EXAMPLE_CONFIG, EXAMPLE_ROUTE.meta, t) == EXAMPLE_ROUTE.meta &&
            StoredIdentity(EXAMPLE_CONFIG, EXAMPLE_ROUTE.meta).BoundTo? && ProgrammedNow(EXAMPLE_GATEWAY)
  {
    var t := Target("ns", "gateway", "gateway-uid");
    var meta := RouteMeta("ns", "route", "route-uid", map[], []);
    ApplyThenRead(EXAMPLE_CONFIG, meta, t);
    ApplyIdempotent(EXAMPLE_CONFIG, meta, t);
    hide Applied, StoredIdentity;
  }

  lemma ExampleModel()
    ensures IsReady(ValidateModel(EXAMPLE_CONFIG, EXAMPLE_SETTINGS, EXAMPLE_LIVE, EXAMPLE_ROUTE, EXAMPLE_GATEWAY, EXAMPLE_LISTENER))
  {
    hide Applied, Bound, StoredIdentity, RouteIdentity, BuildSpec, Selected, StructurallySupported, CanReserve,
         TargetFor, ProgrammedNow;
    ExampleNames();
    ExampleBinding();
    ExampleSpec();
    ExampleSelected();
  }

  lemma ExampleSpec()
    ensures StructurallySupported(EXAMPLE_ROUTE) && CanReserve(EXAMPLE_LIVE.services, EXAMPLE_ROUTE)
    ensures BuildSpec(EXAMPLE_SETTINGS, EXAMPLE_LIVE.services, EXAMPLE_LIVE.members, EXAMPLE_ROUTE, 80).BuiltSpec?
  {
    hide Applied;
    ExampleNames();
  }

  lemma ExampleNames()
    ensures EXAMPLE_ROUTE.meta.namespace == "ns" && EXAMPLE_ROUTE.meta.name == "route" && EXAMPLE_ROUTE.meta.uid == "route-uid"
    ensures GatewayKey(EXAMPLE_GATEWAY) == Key("ns", "gateway") && EXAMPLE_GATEWAY.uid == "gateway-uid" && !EXAMPLE_GATEWAY.deleting
  {
    AppliedKeepsNames(EXAMPLE_CONFIG, RouteMeta("ns", "route", "route-uid", map[], []), Target("ns", "gateway", "gateway-uid"));
  }

  lemma ExampleParent()
    ensures ParentOk(EXAMPLE_ROUTE, EXAMPLE_ROUTE.parents[0], EXAMPLE_GATEWAY, Some(EXAMPLE_LISTENER))
    ensures LiveNames(EXAMPLE_LIVE)
  {
    ExampleNames();
    hide Applied, Bound;
  }

  /** A concrete deleting route that is Ready and whose cleanup is required. */
  lemma DeletingRouteExample()
    ensures IsReady(ValidateForEnsure(EXAMPLE_CONFIG, EXAMPLE_SETTINGS, EXAMPLE_LIVE, EXAMPLE_ROUTE, EXAMPLE_GATEWAY))
    ensures ObserveRouteCleanup(
              EXAMPLE_CONFIG, EXAMPLE_SETTINGS, EXAMPLE_LIVE, EXAMPLE_ROUTE,
              IdentityFor(EXAMPLE_CONFIG, EXAMPLE_GATEWAY, EXAMPLE_ROUTE)) == CleanupRequired
  {
    hide Applied, Bound, ValidateModel, GatewayUsable, ValidGateway, Itoa, ParentOk, LiveNames, ObserveRouteCleanup,
         Port;
    ExampleNames();
    ExampleGatewayUsable();
    ExampleModel();
    ExampleParent();
    EightyIsEighty();
    DeletingRouteIsNotExcluded(EXAMPLE_CONFIG, EXAMPLE_SETTINGS, EXAMPLE_LIVE, EXAMPLE_ROUTE, EXAMPLE_GATEWAY);
  }
}
