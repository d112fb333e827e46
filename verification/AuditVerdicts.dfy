/** What each verdict of the ownership audit means: which records, parents and twins
    make a resource matched, stale, an orphan candidate, unresolved or a conflict. */
module AuditVerdicts {
  import opened Ownership
  import opened RouteModel
  import opened Kube
  import opened OwnershipTags
  import opened AuditRecords
  import opened Audit

  // ----- the collected records -----

  /** A list without repetitions up to the version. */
  ghost predicate Distinct(ids: seq<Identity>)
  {
    forall i, j :: 0 <= i < j < |ids| ==> Erased(ids[i]) != Erased(ids[j])
  }

  /** A list holds wanted records only, and each of them up to its version. */
  ghost predicate Collects(ids: seq<Identity>, wanted: set<Identity>)
  {
    Distinct(ids) && (forall id :: id in ids ==> id in wanted) && (forall id :: id in wanted ==> Known(ids, id))
  }

  lemma AddCollects(ids: seq<Identity>, wanted: set<Identity>, id: Identity, yes: bool)
    requires Collects(ids, wanted)
    ensures Collects(AddUnique(ids, id, yes), wanted + if yes then {id} else {})
  {
    hide Erased;
    var ids' := AddUnique(ids, id, yes);
    assert ids <= ids';
    forall x | Known(ids, x) ensures Known(ids', x) {
      var i :| 0 <= i < |ids| && Erased(ids[i]) == Erased(x);
      assert ids'[i] == ids[i];
    }
    if yes && !Known(ids, id) {
      assert ids'[|ids|] == id;
    }
  }

  ghost function Exact(scope: Scope, tags: Tags, role: Role, routeScoped: bool): set<Identity>
  {
    set id | id in scope.records && ExactRecord(scope.codec, id, tags, role, routeScoped)
  }

  ghost function Named(scope: Scope, tags: Tags, role: Role, routeScoped: bool): set<Identity>
  {
    set id | id in scope.records && NamedRecord(scope.codec, id, tags, role, routeScoped)
  }

  ghost function Referring(scope: Scope, tags: Tags, role: Role, routeScoped: bool): set<Identity>
  {
    set id | id in scope.records && ReferringRecord(scope.codec, id, tags, role, routeScoped)
  }

  /** The three lists hold the three groups of records. */
  lemma {:induction false} MatchCollects(scope: Scope, tags: Tags, role: Role, routeScoped: bool)
    ensures var m := MatchRecords(scope.codec, scope.records, tags, role, routeScoped);
            Collects(m.exact, Exact(scope, tags, role, routeScoped)) && Collects(m.discovery, Named(scope, tags, role, routeScoped)) &&
            Collects(m.routeGateway, Referring(scope, tags, role, routeScoped))
    decreases |scope.records|
  {
    hide ExactRecord, NamedRecord, ReferringRecord, Collects, AddUnique;
    if scope.records == [] {
      NothingCollected();
      assert Exact(scope, tags, role, routeScoped) == Named(scope, tags, role, routeScoped) == Referring(scope, tags, role, routeScoped) == {};
    } else {
      hide Exact, Named, Referring;
      var n := |scope.records| - 1;
      var fewer, id := scope.(records := scope.records[..n]), scope.records[n];
      MatchCollects(fewer, tags, role, routeScoped);
      assert scope.records == fewer.records + [id];
      var m := MatchRecords(scope.codec, fewer.records, tags, role, routeScoped);
      var e, d, g := ExactRecord(scope.codec, id, tags, role, routeScoped), NamedRecord(scope.codec, id, tags, role, routeScoped),
                     ReferringRecord(scope.codec, id, tags, role, routeScoped);
      AddCollects(m.exact, Exact(fewer, tags, role, routeScoped), id, e);
      AddCollects(m.discovery, Named(fewer, tags, role, routeScoped), id, d);
      AddCollects(m.routeGateway, Referring(fewer, tags, role, routeScoped), id, g);
      GroupsGrow(fewer, scope, id, tags, role, routeScoped);
    }
  }

  lemma GroupsGrow(fewer: Scope, scope: Scope, id: Identity, tags: Tags, role: Role, routeScoped: bool)
    requires fewer.codec == scope.codec && scope.records == fewer.records + [id]
    ensures Exact(scope, tags, role, routeScoped) ==
            Exact(fewer, tags, role, routeScoped) + if ExactRecord(scope.codec, id, tags, role, routeScoped) then {id} else {}
    ensures Named(scope, tags, role, routeScoped) ==
            Named(fewer, tags, role, routeScoped) + if NamedRecord(scope.codec, id, tags, role, routeScoped) then {id} else {}
    ensures Referring(scope, tags, role, routeScoped) ==
            Referring(fewer, tags, role, routeScoped) + if ReferringRecord(scope.codec, id, tags, role, routeScoped) then {id} else {}
  {
    hide ExactRecord, NamedRecord, ReferringRecord;
    assert forall x :: x in scope.records <==> x in fewer.records || x == id;
  }

  lemma NothingCollected()
    ensures Collects([], {})
  {
  }

  /** One record up to its version, and no other. */
  ghost predicate OneRecord(wanted: set<Identity>)
  {
    exists id :: id in wanted && forall other :: other in wanted ==> Erased(other) == Erased(id)
  }

  lemma TwoAreNotSingle(ids: seq<Identity>, wanted: set<Identity>)
    requires Collects(ids, wanted) && |ids| > 1
    ensures !OneRecord(wanted)
  {
    hide Erased;
    assert ids[0] in ids && ids[1] in ids;
    assert Erased(ids[0]) != Erased(ids[1]);
  }

  lemma OneIsSingle(ids: seq<Identity>, wanted: set<Identity>)
    requires Collects(ids, wanted) && |ids| == 1
    ensures ids[0] in wanted && OneRecord(wanted)
  {
    hide Erased;
    assert ids[0] in ids;
    forall other | other in wanted ensures Erased(other) == Erased(ids[0]) {
      assert Known(ids, other);
    }
  }

  lemma NoneIsEmpty(ids: seq<Identity>, wanted: set<Identity>)
    requires Collects(ids, wanted)
    ensures |ids| == 0 <==> wanted == {}
  {
    hide Erased;
    if wanted != {} {
      var id :| id in wanted;
      assert Known(ids, id);
    }
    if ids != [] {
      assert ids[0] in ids;
    }
  }

  lemma CountCollected(ids: seq<Identity>, wanted: set<Identity>)
    requires Collects(ids, wanted)
    ensures |ids| == 0 <==> wanted == {}
    ensures |ids| == 1 <==> OneRecord(wanted)
    ensures |ids| == 1 ==> ids[0] in wanted
  {
    hide Collects;
    NoneIsEmpty(ids, wanted);
    if |ids| == 1 {
      OneIsSingle(ids, wanted);
    } else if |ids| > 1 {
      TwoAreNotSingle(ids, wanted);
    }
  }

  // ----- the verdict of the bindings -----

  /** The value the tags of a record have under a key differs from the resource's. */
  predicate Deviates(c: Codec, tags: Tags, id: Identity, role: Role, routeScoped: bool, key: string)
  {
    UniqueValue(tags, key) != UniqueValue(WriteAll(if routeScoped then RouteFields(c, id, role) else GatewayFields(c, id, role)), key)
  }

  /** A UID deviates, and cluster, controller, project, names and role do not. */
  predicate UIDsAloneDeviate(c: Codec, tags: Tags, id: Identity, role: Role, routeScoped: bool)
  {
    (routeScoped ==> ValidRouteIdentity(id)) &&
    (Deviates(c, tags, id, role, routeScoped, "uid") || Deviates(c, tags, id, role, routeScoped, "route-uid")) &&
    !Deviates(c, tags, id, role, routeScoped, "managed") &&
    !Deviates(c, tags, id, role, routeScoped, "cluster") &&
    !Deviates(c, tags, id, role, routeScoped, "controller") &&
    !Deviates(c, tags, id, role, routeScoped, "project") &&
    !Deviates(c, tags, id, role, routeScoped, "namespace") &&
    !Deviates(c, tags, id, role, routeScoped, "name") &&
    !Deviates(c, tags, id, role, routeScoped, "role") &&
    !Deviates(c, tags, id, role, routeScoped, "route-namespace") &&
    !Deviates(c, tags, id, role, routeScoped, "route-name")
  }

  lemma UIDsExactly(c: Codec, tags: Tags, id: Identity, role: Role, routeScoped: bool)
    ensures OnlyUIDsDiffer(c, tags, id, role, routeScoped) <==> UIDsAloneDeviate(c, tags, id, role, routeScoped)
  {
    hide Differs, Deviates, ValidRouteIdentity, COMPARED_KEYS;
    forall key ensures Differs(c, tags, id, role, routeScoped, key) <==> Deviates(c, tags, id, role, routeScoped, key) {
      SameNotion(c, tags, id, role, routeScoped, key);
    }
    ComparedKeys();
  }

  lemma SameNotion(c: Codec, tags: Tags, id: Identity, role: Role, routeScoped: bool, key: string)
    ensures Differs(c, tags, id, role, routeScoped, key) <==> Deviates(c, tags, id, role, routeScoped, key)
  {
  }

  lemma ComparedKeys()
    ensures |COMPARED_KEYS| == 11
    ensures COMPARED_KEYS[0] == "managed" && COMPARED_KEYS[1] == "cluster" && COMPARED_KEYS[2] == "controller"
    ensures COMPARED_KEYS[3] == "project" && COMPARED_KEYS[4] == "namespace" && COMPARED_KEYS[5] == "name"
    ensures COMPARED_KEYS[6] == "uid" && COMPARED_KEYS[7] == "role" && COMPARED_KEYS[8] == "route-namespace"
    ensures COMPARED_KEYS[9] == "route-name" && COMPARED_KEYS[10] == "route-uid"
  {
  }

  /** Only UIDs separate the resource from the record that has its names. */
  ghost predicate OnlyStale(scope: Scope, tags: Tags, role: Role, routeScoped: bool)
  {
    OneRecord(Named(scope, tags, role, routeScoped)) &&
    exists id :: id in Named(scope, tags, role, routeScoped) && id in MatchRecords(scope.codec, scope.records, tags, role, routeScoped).discovery &&
      UIDsAloneDeviate(scope.codec, tags, id, role, routeScoped)
  }

  /** What the durable bindings say about well-formed tags: matched by exactly one
      record; nobody's when no record even has the names; stale when the only record
      with the names differs in UIDs alone; unresolved when only a route refers to
      the Gateway; and a conflict in every other case. */
  lemma BindingVerdictExactly(scope: Scope, tags: Tags, role: Role, routeScoped: bool)
    ensures var verdict := BindingVerdict(scope, tags, role, routeScoped);
            var exact, named, referring :=
              Exact(scope, tags, role, routeScoped), Named(scope, tags, role, routeScoped), Referring(scope, tags, role, routeScoped);
            (verdict == Matched <==> OneRecord(exact)) &&
            (verdict == Unresolved <==> exact == {} && !routeScoped && referring != {}) &&
            (verdict == OrphanCandidate <==> exact == {} && (routeScoped || referring == {}) && named == {}) &&
            (verdict == StaleUID <==> exact == {} && (routeScoped || referring == {}) && OnlyStale(scope, tags, role, routeScoped))
  {
    hide ExactRecord, NamedRecord, ReferringRecord, MatchRecords, Collects, OneRecord, OnlyUIDsDiffer, UIDsAloneDeviate, Exact, Named, Referring;
    forall id ensures OnlyUIDsDiffer(scope.codec, tags, id, role, routeScoped) <==> UIDsAloneDeviate(scope.codec, tags, id, role, routeScoped) {
      UIDsExactly(scope.codec, tags, id, role, routeScoped);
    }
    MatchCollects(scope, tags, role, routeScoped);
    var m := MatchRecords(scope.codec, scope.records, tags, role, routeScoped);
    CountCollected(m.exact, Exact(scope, tags, role, routeScoped));
    CountCollected(m.discovery, Named(scope, tags, role, routeScoped));
    CountCollected(m.routeGateway, Referring(scope, tags, role, routeScoped));
  }

  // ----- one resource -----

  /** The roles the reconcilers write on resources of each kind. */
  ghost function RolesOn(k: Kind): set<Role>
  {
    match k
    case LoadBalancerKind => {LoadBalancerRole}
    case ListenerKind => {ListenerRole}
    case PoolKind => {PoolRole}
    case MemberKind => {MemberRole}
    case MonitorKind => {MonitorRole}
    case PolicyKind => {PolicyExact, PolicyPrefix}
    case RuleKind => {RulePath, RuleHost}
    case FloatingIPKind => {}
  }

  lemma RolesExactly(k: Kind, role: Role)
    ensures RoleSuits(k, role) <==> role in RolesOn(k)
  {
  }

  /** The tags are complete, of this scope and project, and name a role of the
      resource's kind; a load balancer is an amphora. */
  ghost predicate WellTagged(scope: Scope, r: Ref, c: Candidate, role: Role)
  {
    RoleOf(scope, c.tags) == Some(role) && role in RolesOn(r.kind) && HasAll(c.tags, ScopeTags(scope)) &&
    HasAll(c.tags, ProjectTag(scope)) && IdentityTagsOk(scope, c.tags, RouteScoped(r.kind)) &&
    (r.kind.LoadBalancerKind? ==> c.provider == "amphora")
  }

  /** Nothing the scans saw of its parent contradicts the resource: a listed parent
      carries the same identity and, for what hangs beneath load balancers and pools
      directly, was observed; a policy's pool is listed with the same identity. */
  ghost predicate Consistent(cands: Candidates, r: Ref, c: Candidate)
  {
    (ParentId(c) != "" ==>
      AgreesWithParent(cands, r, c, ParentId(c)) &&
      (ParentExists(cands, r.kind, ParentId(c)) && r.kind in {ListenerKind, PoolKind, MonitorKind} ==> c.observed != [])) &&
    (r.kind.PolicyKind? ==>
      c.redirectPool != "" && Ref(PoolKind, c.redirectPool) in cands &&
      SameValues(c.tags, cands[Ref(PoolKind, c.redirectPool)].tags, SHARED_KEYS + ROUTE_KEYS))
  }

  /** A load balancer, or a resource whose parent is known and listed. */
  ghost predicate HasItsParent(cands: Candidates, r: Ref, c: Candidate)
  {
    r.kind.LoadBalancerKind? || (ParentId(c) != "" && ParentExists(cands, r.kind, ParentId(c)))
  }

  /** A well-formed resource gets the verdict of the bindings, except that without
      its parent a match stays unresolved. */
  lemma TaggedVerdict(scope: Scope, cands: Candidates, r: Ref, c: Candidate, role: Role)
    requires WellTagged(scope, r, c, role) && Consistent(cands, r, c)
    ensures var verdict := BindingVerdict(scope, c.tags, role, RouteScoped(r.kind));
            ClassifyTagged(scope, cands, r, c) == if verdict == Matched && !HasItsParent(cands, r, c) then Unresolved else verdict
  {
    RolesExactly(r.kind, role);
    hide HasAll, IdentityTagsOk, RoleOf, RoleSuits, RolesOn, AgreesWithParent, SameValues, BindingVerdict, ParentId;
  }

  /** Matched, stale and orphan verdicts are given to well-formed resources only. */
  lemma OnlyWellFormed(scope: Scope, cands: Candidates, r: Ref, c: Candidate)
    requires ClassifyTagged(scope, cands, r, c) in {Matched, StaleUID, OrphanCandidate}
    ensures exists role :: WellTagged(scope, r, c, role) && Consistent(cands, r, c)
  {
    hide HasAll, IdentityTagsOk, RoleSuits, RolesOn, AgreesWithParent, SameValues, BindingVerdict, ParentId, RoleOf;
    assert RoleOf(scope, c.tags).Some?;
    RolesExactly(r.kind, RoleOf(scope, c.tags).value);
    assert WellTagged(scope, r, c, RoleOf(scope, c.tags).value);
  }

  ghost predicate InScope(scope: Scope, r: Ref, c: Candidate)
  {
    !Blank(r.id) && !c.changed && (if c.project == "" then c.tenant else c.project) == scope.project && scope.project != "" &&
    |c.reported| <= 1 && |c.observed| <= 1 && (|c.reported| == 1 && |c.observed| == 1 ==> c.reported == c.observed)
  }

  /** The Gateway records a description is attributed to. */
  ghost function Attributees(scope: Scope, text: string, route: bool): set<Identity>
  {
    set id | id in scope.records && Attributed(scope.codec, id, text, route)
  }

  lemma {:induction false} AttributeCollects(scope: Scope, text: string, route: bool)
    ensures Collects(AttributeRecords(scope.codec, scope.records, text, route), Attributees(scope, text, route))
    decreases |scope.records|
  {
    hide Collects, AddUnique, Attributed;
    if scope.records == [] {
      NothingCollected();
      assert Attributees(scope, text, route) == {};
    } else {
      var n := |scope.records| - 1;
      var fewer, id := scope.(records := scope.records[..n]), scope.records[n];
      AttributeCollects(fewer, text, route);
      var yes := Attributed(scope.codec, id, text, route);
      AddCollects(AttributeRecords(scope.codec, fewer.records, text, route), Attributees(fewer, text, route), id, yes);
      assert scope.records == fewer.records + [id];
      assert Attributees(scope, text, route) == Attributees(fewer, text, route) + if yes then {id} else {};
    }
  }

  /** A Floating IP is matched by one Gateway record that its load balancer matches
      too. */
  ghost predicate AddressMatched(scope: Scope, cands: Candidates, c: Candidate)
  {
    var lb := Ref(LoadBalancerKind, ParentId(c));
    DESCRIPTION <= c.description && OneRecord(Attributees(scope, c.description, false)) && ParentId(c) != "" && lb in cands &&
    exists id :: id in AttributeRecords(scope.codec, scope.records, c.description, false) &&
      MatchesGateway(scope.codec, id, cands[lb].tags, LoadBalancerRole)
  }

  lemma AddressExactly(scope: Scope, cands: Candidates, c: Candidate)
    ensures ClassifyFloatingIP(scope, cands, c) == Matched <==> AddressMatched(scope, cands, c)
    ensures ClassifyFloatingIP(scope, cands, c) in {Matched, OwnershipConflict, Unresolved}
  {
    hide MatchesGateway, AttributeRecords, OneRecord, Collects, ParentId, Attributees;
    AttributeCollects(scope, c.description, false);
    CountCollected(AttributeRecords(scope.codec, scope.records, c.description, false), Attributees(scope, c.description, false));
    var exact := AttributeRecords(scope.codec, scope.records, c.description, false);
    assert |exact| == 1 ==> forall id :: id in exact <==> id == exact[0];
  }

  /** Matched on its own: in scope, well-formed, with its parent, and attributed to
      exactly one durable binding. */
  ghost predicate StandsAlone(scope: Scope, cands: Candidates, r: Ref, c: Candidate)
  {
    InScope(scope, r, c) &&
    if r.kind.FloatingIPKind? then AddressMatched(scope, cands, c)
    else
      Consistent(cands, r, c) && HasItsParent(cands, r, c) &&
      exists role :: WellTagged(scope, r, c, role) && OneRecord(Exact(scope, c.tags, role, RouteScoped(r.kind)))
  }

  lemma ClassifyInScope(scope: Scope, cands: Candidates, r: Ref, c: Candidate)
    ensures InScope(scope, r, c) ==>
              Classify(scope, cands, r, c) ==
                if r.kind.FloatingIPKind? then ClassifyFloatingIP(scope, cands, c) else ClassifyTagged(scope, cands, r, c)
    ensures !InScope(scope, r, c) ==> Classify(scope, cands, r, c) in {Unresolved, OwnershipConflict}
  {
    hide Blank, ClassifyFloatingIP, ClassifyTagged;
  }

  lemma AloneExactly(scope: Scope, cands: Candidates, r: Ref, c: Candidate)
    ensures Classify(scope, cands, r, c) == Matched <==> StandsAlone(scope, cands, r, c)
  {
    hide InScope, Classify, ClassifyFloatingIP, ClassifyTagged, AddressMatched, Consistent, HasItsParent, WellTagged, BindingVerdict, OneRecord, Exact;
    ClassifyInScope(scope, cands, r, c);
    AddressExactly(scope, cands, c);
    if !r.kind.FloatingIPKind? {
      forall role | WellTagged(scope, r, c, role) && Consistent(cands, r, c)
        ensures ClassifyTagged(scope, cands, r, c) == Matched <==>
                HasItsParent(cands, r, c) && OneRecord(Exact(scope, c.tags, role, RouteScoped(r.kind)))
      {
        TaggedVerdict(scope, cands, r, c, role);
        BindingVerdictExactly(scope, c.tags, role, RouteScoped(r.kind));
      }
      if ClassifyTagged(scope, cands, r, c) == Matched {
        OnlyWellFormed(scope, cands, r, c);
      }
    }
  }

  // ----- the final verdict -----

  /** A resource is reported as matched exactly when it is matched on its own, has no
      logical twin, and its parent and, for a policy, its pool are reported as
      matched. */
  lemma MatchedExactly(scope: Scope, cands: Candidates, r: Ref)
    requires r in cands
    ensures MatchedHere(scope, cands, r) <==>
            StandsAlone(scope, cands, r, cands[r]) && !HasTwin(scope, cands, r) &&
            (!r.kind.LoadBalancerKind? ==> MatchedHere(scope, cands, Ref(ParentKind(r.kind).value, ParentId(cands[r])))) &&
            (r.kind.PolicyKind? ==> MatchedHere(scope, cands, Ref(PoolKind, cands[r].redirectPool)))
  {
    hide Classify, StandsAlone, HasTwin, ParentOf;
    AloneExactly(scope, cands, r, cands[r]);
    var ps := ParentRefs(cands, r);
    FromParentsMatched(scope, cands, r, ps);
    if MatchedHere(scope, cands, r) {
      AuditSound(scope, cands, r);
    }
    hide FromParents;
  }

  /** Stale and orphan verdicts come from the resource itself and are never passed
      on; a resource that would be matched but has an unmatched parent is a conflict
      when the first such parent is one, and unresolved otherwise. */
  lemma OtherVerdicts(scope: Scope, cands: Candidates, r: Ref)
    requires r in cands
    ensures Final(scope, cands, r) in {StaleUID, OrphanCandidate} ==>
              Final(scope, cands, r) == Classify(scope, cands, r, cands[r]) && !HasTwin(scope, cands, r)
    ensures Classify(scope, cands, r, cands[r]) in {StaleUID, OrphanCandidate} ==>
              Final(scope, cands, r) == if HasTwin(scope, cands, r) then OwnershipConflict else Classify(scope, cands, r, cands[r])
    ensures StandsAlone(scope, cands, r, cands[r]) && HasTwin(scope, cands, r) ==> Final(scope, cands, r) == OwnershipConflict
  {
    hide Classify, StandsAlone, HasTwin, FromParents, ParentRefs;
    AloneExactly(scope, cands, r, cands[r]);
    FromParentsKinds(scope, cands, r, ParentRefs(cands, r));
  }

  lemma {:induction false} FromParentsKinds(scope: Scope, cands: Candidates, r: Ref, ps: seq<Ref>)
    requires forall i :: 0 <= i < |ps| ==> Audit.Order(ps[i].kind) < Audit.Order(r.kind)
    ensures FromParents(scope, cands, r, ps) in {Matched, OwnershipConflict, Unresolved}
    decreases |ps|
  {
    hide Final;
    if ps != [] {
      FromParentsKinds(scope, cands, r, ps[1..]);
    }
  }

  /** The first parent in line that is listed and not matched decides. */
  lemma {:induction false} FirstParentDecides(scope: Scope, cands: Candidates, r: Ref, ps: seq<Ref>, i: nat)
    requires i < |ps| && ps[i] in cands && Final(scope, cands, ps[i]) != Matched
    requires forall j :: 0 <= j < |ps| ==> Audit.Order(ps[j].kind) < Audit.Order(r.kind)
    requires forall j :: 0 <= j < i && ps[j] in cands ==> Final(scope, cands, ps[j]) == Matched
    ensures FromParents(scope, cands, r, ps) ==
            if Final(scope, cands, ps[i]) == OwnershipConflict then OwnershipConflict else Unresolved
    decreases |ps|
  {
    hide Final;
    if i > 0 {
      assert forall j :: 0 <= j < |ps| - 1 ==> ps[1..][j] == ps[j + 1];
      FirstParentDecides(scope, cands, r, ps[1..], i - 1);
    }
  }

  /** Findings of a parent reach its children: with the only possible reason an
      unmatched parent, a child is a conflict or unresolved as its parent is. */
  lemma ParentFindingsReach(scope: Scope, cands: Candidates, r: Ref)
    requires r in cands && StandsAlone(scope, cands, r, cands[r]) && !HasTwin(scope, cands, r) && !r.kind.LoadBalancerKind?
    requires Ref(ParentKind(r.kind).value, ParentId(cands[r])) in cands
    requires Final(scope, cands, Ref(ParentKind(r.kind).value, ParentId(cands[r]))) != Matched
    ensures Final(scope, cands, r) ==
            if Final(scope, cands, Ref(ParentKind(r.kind).value, ParentId(cands[r]))) == OwnershipConflict then OwnershipConflict else Unresolved
  {
    AloneExactly(scope, cands, r, cands[r]);
    Audit.MatchedAlone(scope, cands, r, cands[r]);
    var ps := ParentRefs(cands, r);
    hide Classify, StandsAlone, HasTwin, FromParents, ParentOf;
    assert ps[0] == Ref(ParentKind(r.kind).value, ParentId(cands[r]));
    FirstParentDecides(scope, cands, r, ps, 0);
  }
}
