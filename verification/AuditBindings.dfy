/** What a matched finding says about Kubernetes: the resource and its whole chain
    of parents belong to one durable Gateway binding. */
module AuditBindings {
  import opened Ownership
  import opened Kube
  import opened OwnershipTags
  import opened AuditRecords
  import opened Audit

  /** The tags carry the Gateway part of an identity, whatever their role. */
  predicate CarriesGateway(c: Codec, g: Identity, tags: Tags)
  {
    Carries(tags, MANAGED) && Carries(tags, Encoded(c, "cluster", g.cluster)) &&
    Carries(tags, Encoded(c, "controller", g.controllerName)) && Carries(tags, Encoded(c, "namespace", g.gatewayNamespace)) &&
    Carries(tags, Encoded(c, "name", g.gatewayName)) && Carries(tags, Encoded(c, "uid", g.gatewayUID)) &&
    (g.project != "" ==> Carries(tags, Encoded(c, "project", g.project)))
  }

  predicate Carries(tags: Tags, f: Field)
  {
    ValuesOf(tags, f.key) == [f.encoded]
  }

  lemma MatchedFieldCarried(tags: Tags, fields: seq<Field>, f: Field)
    requires MatchesFields(tags, fields) && f in fields && forall i :: 0 <= i < |fields| ==> GoodKey(fields[i].key)
    ensures Carries(tags, f)
  {
    hide GoodKey, ValuesOf, HasAll;
    HasFields(tags, fields);
  }

  lemma MatchedCarriesGateway(c: Codec, g: Identity, tags: Tags, role: Role)
    requires MatchesGateway(c, g, tags, role)
    ensures CarriesGateway(c, g, tags)
  {
    GatewayFieldList(c, g, role);
    RouteFieldsGood(c, g, role);
    var fields := GatewayFields(c, g, role);
    assert fields[0] == MANAGED;
    hide GatewayFields, MatchesFields, Encoded, GoodKey, Carries;
    MatchedFieldCarried(tags, fields, MANAGED);
    MatchedFieldCarried(tags, fields, Encoded(c, "cluster", g.cluster));
    MatchedFieldCarried(tags, fields, Encoded(c, "controller", g.controllerName));
    MatchedFieldCarried(tags, fields, Encoded(c, "namespace", g.gatewayNamespace));
    MatchedFieldCarried(tags, fields, Encoded(c, "name", g.gatewayName));
    MatchedFieldCarried(tags, fields, Encoded(c, "uid", g.gatewayUID));
    if g.project != "" {
      MatchedFieldCarried(tags, fields, Encoded(c, "project", g.project));
    }
  }

  lemma SharedField(a: Tags, b: Tags, keys: seq<string>, i: int, f: Field)
    requires SameValues(a, b, keys) && 0 <= i < |keys| && f.key == keys[i] && Carries(b, f)
    ensures Carries(a, f)
  {
    hide ValuesOf;
    assert Single(a, keys[i]) == Single(b, keys[i]);
  }

  /** A child that agrees with its parent carries the same Gateway. */
  lemma SharedGateway(c: Codec, g: Identity, child: Tags, parent: Tags)
    requires SameValues(child, parent, SHARED_KEYS) && CarriesGateway(c, g, parent)
    ensures CarriesGateway(c, g, child)
  {
    hide SameValues, Carries, Encoded;
    SharedField(child, parent, SHARED_KEYS, 0, MANAGED);
    SharedField(child, parent, SHARED_KEYS, 1, Encoded(c, "cluster", g.cluster));
    SharedField(child, parent, SHARED_KEYS, 2, Encoded(c, "controller", g.controllerName));
    SharedField(child, parent, SHARED_KEYS, 4, Encoded(c, "namespace", g.gatewayNamespace));
    SharedField(child, parent, SHARED_KEYS, 5, Encoded(c, "name", g.gatewayName));
    SharedField(child, parent, SHARED_KEYS, 6, Encoded(c, "uid", g.gatewayUID));
    if g.project != "" {
      SharedField(child, parent, SHARED_KEYS, 3, Encoded(c, "project", g.project));
    }
  }

  // ----- what Matched says about one resource -----

  /** A matched tagged resource has exactly one binding, up to its version, and
      agrees with its parent. */
  lemma MatchedTagged(scope: Scope, cands: Candidates, r: Ref, c: Candidate)
    requires Classify(scope, cands, r, c) == Matched && !r.kind.FloatingIPKind?
    ensures var role := RoleOf(scope, c.tags);
            role.Some? && RoleSuits(r.kind, role.value) &&
            |MatchRecords(scope.codec, scope.records, c.tags, role.value, RouteScoped(r.kind)).exact| == 1
    ensures !r.kind.LoadBalancerKind? ==> AgreesWithParent(cands, r, c, ParentId(c))
  {
    hide ParentOf, IdentityTagsOk, HasAll, RoleSuits, AgreesWithParent, MatchRecords, OnlyUIDsDiffer, RoleOf, ScopeTags, ProjectTag;
  }

  lemma MatchedFloatingIP(scope: Scope, cands: Candidates, r: Ref, c: Candidate)
    requires Classify(scope, cands, r, c) == Matched && r.kind.FloatingIPKind?
    ensures var exact := AttributeRecords(scope.codec, scope.records, c.description, false);
            var parent := Ref(LoadBalancerKind, ParentId(c));
            |exact| == 1 && parent in cands && MatchesGateway(scope.codec, exact[0], cands[parent].tags, LoadBalancerRole)
  {
    hide ParentOf, AttributeRecords, MatchesGateway;
  }

  /** The Gateway binding of a matched load balancer. */
  ghost predicate BindsRoot(scope: Scope, cands: Candidates, r: Ref, g: Identity)
  {
    r in cands && r.kind.LoadBalancerKind? && g in scope.records && !IsRoute(g) &&
    MatchesGateway(scope.codec, g, cands[r].tags, LoadBalancerRole)
  }

  lemma RootBinding(scope: Scope, cands: Candidates, r: Ref) returns (g: Identity)
    requires MatchedHere(scope, cands, r) && r.kind.LoadBalancerKind?
    ensures BindsRoot(scope, cands, r, g)
    ensures forall h :: BindsRoot(scope, cands, r, h) ==> Erased(h) == Erased(g)
  {
    hide FromParents, ParentRefs, HasTwin;
    var c := cands[r];
    MatchedTagged(scope, cands, r, c);
    hide Classify, MatchRecords, MatchesGateway, RoleOf;
    var role := RoleOf(scope, c.tags).value;
    ExactCollected(scope.codec, scope.records, c.tags, role, false);
    g := MatchRecords(scope.codec, scope.records, c.tags, role, false).exact[0];
    forall h | BindsRoot(scope, cands, r, h) ensures Erased(h) == Erased(g) {
      SingleMatch(scope.codec, scope.records, c.tags, role, false, h);
    }
  }

  // ----- the whole chain -----

  /** The resource carries the Gateway, a Floating IP by its description. */
  ghost predicate Belongs(scope: Scope, cands: Candidates, r: Ref, g: Identity)
  {
    r in cands &&
    if r.kind.FloatingIPKind? then MatchesGatewayDescription(scope.codec, Erased(g), cands[r].description, FloatingIPRole)
    else CarriesGateway(scope.codec, g, cands[r].tags)
  }

  /** The resource and all its parents up to the load balancer belong to g, and g
      is the binding of that load balancer. */
  ghost predicate ChainBelongs(scope: Scope, cands: Candidates, r: Ref, g: Identity)
    decreases Order(r.kind)
  {
    Belongs(scope, cands, r, g) &&
    if r.kind.LoadBalancerKind? then BindsRoot(scope, cands, r, g)
    else ChainBelongs(scope, cands, Ref(ParentKind(r.kind).value, ParentId(cands[r])), g)
  }

  lemma VersionIrrelevant(c: Codec, a: Identity, b: Identity, text: string)
    requires Erased(a) == Erased(b)
    ensures MatchesGatewayDescription(c, a, text, FloatingIPRole) <==>
            MatchesGatewayDescription(c, Erased(b), text, FloatingIPRole)
  {
    assert DescriptionParts(GatewayOnly(a), FloatingIPRole) == DescriptionParts(GatewayOnly(Erased(b)), FloatingIPRole);
  }

  lemma ChildBelongs(scope: Scope, cands: Candidates, r: Ref, g: Identity)
    requires MatchedHere(scope, cands, r) && !r.kind.LoadBalancerKind? && !r.kind.FloatingIPKind?
    requires var parent := Ref(ParentKind(r.kind).value, ParentId(cands[r]));
             ParentKind(r.kind) != Some(FloatingIPKind) && Belongs(scope, cands, parent, g)
    ensures Belongs(scope, cands, r, g)
  {
    hide FromParents, ParentRefs, HasTwin, MatchRecords, CarriesGateway, SameValues;
    MatchedTagged(scope, cands, r, cands[r]);
    hide Classify;
    SharedGateway(scope.codec, g, cands[r].tags, cands[Ref(ParentKind(r.kind).value, ParentId(cands[r]))].tags);
  }

  lemma FloatingIPBelongs(scope: Scope, cands: Candidates, r: Ref, g: Identity)
    requires MatchedHere(scope, cands, r) && r.kind.FloatingIPKind?
    requires var parent := Ref(LoadBalancerKind, ParentId(cands[r]));
             MatchedHere(scope, cands, parent) && BindsRoot(scope, cands, parent, g)
    ensures Belongs(scope, cands, r, g)
  {
    hide FromParents, ParentRefs, HasTwin, MatchRecords;
    MatchedFloatingIP(scope, cands, r, cands[r]);
    hide Classify, MatchesGatewayDescription, MatchesGateway, AttributeRecords, Marked;
    var parent := Ref(LoadBalancerKind, ParentId(cands[r]));
    var exact := AttributeRecords(scope.codec, scope.records, cands[r].description, false);
    assert exact[0] in exact;
    var only := RootBinding(scope, cands, parent);
    VersionIrrelevant(scope.codec, exact[0], g, cands[r].description);
  }

  lemma RootBelongs(scope: Scope, cands: Candidates, r: Ref, g: Identity)
    requires BindsRoot(scope, cands, r, g)
    ensures Belongs(scope, cands, r, g)
  {
    hide MatchesGateway, CarriesGateway;
    MatchedCarriesGateway(scope.codec, g, cands[r].tags, LoadBalancerRole);
  }

  /** One Gateway binding: a resource reported as matched belongs, with its whole
      chain of parents, to one durable Gateway binding, which the load balancer at
      the top matches exactly. */
  lemma {:induction false} OneGatewayBinding(scope: Scope, cands: Candidates, r: Ref) returns (g: Identity)
    requires MatchedHere(scope, cands, r)
    ensures g in scope.records && !IsRoute(g) && ChainBelongs(scope, cands, r, g)
    decreases Order(r.kind)
  {
    hide MatchedHere, Belongs, MatchesGateway;
    AuditSound(scope, cands, r);
    if r.kind.LoadBalancerKind? {
      g := RootBinding(scope, cands, r);
      RootBelongs(scope, cands, r, g);
    } else {
      MatchedIsThere(scope, cands, r);
      var parent := Ref(ParentKind(r.kind).value, ParentId(cands[r]));
      g := OneGatewayBinding(scope, cands, parent);
      ChainRecord(scope, cands, parent, g);
      if r.kind.FloatingIPKind? {
        FloatingIPBelongs(scope, cands, r, g);
      } else {
        ChildBelongs(scope, cands, r, g);
      }
    }
  }

  lemma ChainRecord(scope: Scope, cands: Candidates, r: Ref, g: Identity)
    requires ChainBelongs(scope, cands, r, g)
    ensures Belongs(scope, cands, r, g) && (r.kind.LoadBalancerKind? ==> BindsRoot(scope, cands, r, g))
  {
    hide Belongs, BindsRoot;
  }

  /** The route binding that a matched route resource has names that same Gateway,
      when both are written without digests. */
  lemma RouteBindingAgrees(scope: Scope, cands: Candidates, r: Ref, g: Identity) returns (route: Identity)
    requires LawfulCodec(scope.codec) && MatchedHere(scope, cands, r) && RouteScoped(r.kind) && Belongs(scope, cands, r, g)
    requires GatewayUndigested(scope.codec, g)
    ensures route in scope.records && IsRoute(route) && exists role :: MatchesRoute(scope.codec, route, cands[r].tags, role)
    ensures GatewayUndigested(scope.codec, route) ==> SameGateway(route, g)
  {
    hide FromParents, ParentRefs, HasTwin, LawfulCodec;
    var tags := cands[r].tags;
    MatchedTagged(scope, cands, r, cands[r]);
    hide Classify, MatchRecords, RoleOf, MatchesRoute, MatchesGateway, CarriesGateway, GatewayUndigested, Marked;
    var role := RoleOf(scope, tags).value;
    ExactCollected(scope.codec, scope.records, tags, role, true);
    route := MatchRecords(scope.codec, scope.records, tags, role, true).exact[0];
    MatchingChain(scope.codec, route, tags, role);
    MatchedCarriesGateway(scope.codec, route, tags, role);
    if GatewayUndigested(scope.codec, route) {
      CarriedGatewayUnique(scope.codec, route, g, tags);
    }
  }

  lemma CarriedGatewayUnique(c: Codec, a: Identity, b: Identity, tags: Tags)
    requires LawfulCodec(c) && GatewayUndigested(c, a) && GatewayUndigested(c, b)
    requires CarriesGateway(c, a, tags) && CarriesGateway(c, b, tags)
    ensures SameGateway(a, b)
  {
    hide ValuesOf, Fits;
    assert c.encode(a.cluster) == c.encode(b.cluster) && c.encode(a.controllerName) == c.encode(b.controllerName);
    assert c.encode(a.gatewayNamespace) == c.encode(b.gatewayNamespace) && c.encode(a.gatewayName) == c.encode(b.gatewayName);
    assert c.encode(a.gatewayUID) == c.encode(b.gatewayUID);
  }
}
