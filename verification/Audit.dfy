/** The ownership audit: every listed resource is classified on its own, logical
    duplicates are marked, and findings travel from parents to children in one
    ordered pass. */
module Audit {
  import opened Ownership
  import opened Octavia
  import opened RouteModel
  import opened Kube
  import opened OwnershipTags
  import opened AuditRecords

  datatype Kind =
    | LoadBalancerKind | ListenerKind | PoolKind | MemberKind | MonitorKind | PolicyKind | RuleKind | FloatingIPKind

  datatype Ref = Ref(kind: Kind, id: Id)

  /** What the scans merged about one resource: `reported` and `observed` are the
      distinct parents in order, and `changed` records that two scans disagreed. */
  datatype Candidate = Candidate(
    project: string, tenant: string, provider: string, tags: Tags, description: string, redirectPool: Id,
    reported: seq<Id>, observed: seq<Id>, changed: bool)

  type Candidates = map<Ref, Candidate>

  datatype Disposition = Matched | OwnershipConflict | Unresolved | StaleUID | OrphanCandidate

  /** The audit's fixed inputs: the scope, the durable bindings, and the decoding of
      tag values. */
  datatype Scope = Scope(
    codec: Codec, project: string, cluster: string, controllerName: string, records: seq<Identity>,
    decodeRole: string -> Option<Role>, validValue: string -> bool)

  function ScopeTags(scope: Scope): Tags
  {
    WriteAll([MANAGED, Encoded(scope.codec, "cluster", scope.cluster),
              Encoded(scope.codec, "controller", scope.controllerName)])
  }

  function ProjectTag(scope: Scope): Tags
  {
    WriteAll([Encoded(scope.codec, "project", scope.project)])
  }

  function Order(k: Kind): nat
  {
    match k
    case LoadBalancerKind => 0
    case ListenerKind => 1
    case PoolKind => 2
    case MemberKind => 3
    case MonitorKind => 4
    case PolicyKind => 5
    case RuleKind => 6
    case FloatingIPKind => 7
  }

  function ParentKind(k: Kind): (r: Option<Kind>)
    ensures r.None? <==> k.LoadBalancerKind?
    ensures r.Some? ==> Order(r.value) < Order(k)
  {
    match k
    case LoadBalancerKind => None
    case ListenerKind => Some(LoadBalancerKind)
    case PoolKind => Some(LoadBalancerKind)
    case FloatingIPKind => Some(LoadBalancerKind)
    case MemberKind => Some(PoolKind)
    case MonitorKind => Some(PoolKind)
    case PolicyKind => Some(ListenerKind)
    case RuleKind => Some(PolicyKind)
  }

  // ----- one resource -----

  datatype ParentResult = ParentClash | ParentIs(id: Id)

  /** The single parent that reports and observations agree on, "" for none. */
  function ParentOf(c: Candidate): ParentResult
  {
    if |c.reported| > 1 || |c.observed| > 1 then ParentClash
    else if |c.reported| == 1 && |c.observed| == 1 && c.reported != c.observed then ParentClash
    else if |c.observed| == 1 then ParentIs(c.observed[0])
    else if |c.reported| == 1 then ParentIs(c.reported[0])
    else ParentIs("")
  }

  function ParentId(c: Candidate): Id
  {
    if ParentOf(c).ParentIs? then ParentOf(c).id else ""
  }

  function Single(tags: Tags, key: string): Option<string>
  {
    var values := ValuesOf(tags, key);
    if |values| == 1 then Some(values[0]) else None
  }

  predicate RoleSuits(k: Kind, role: Role)
  {
    match k
    case LoadBalancerKind => role == LoadBalancerRole
    case ListenerKind => role == ListenerRole
    case PoolKind => role == PoolRole
    case MemberKind => role == MemberRole
    case MonitorKind => role == MonitorRole
    case PolicyKind => role == PolicyExact || role == PolicyPrefix
    case RuleKind => role == RulePath || role == RuleHost
    case FloatingIPKind => false
  }

  predicate RouteScoped(k: Kind)
  {
    !k.LoadBalancerKind? && !k.ListenerKind? && !k.FloatingIPKind?
  }

  const GATEWAY_KEYS := ["cluster", "controller", "project", "namespace", "name", "uid", "role"]
  const ROUTE_KEYS := ["route-namespace", "route-name", "route-uid"]

  predicate IdentityTagsOk(scope: Scope, tags: Tags, routeScoped: bool)
  {
    Single(tags, "managed") == Some("true") &&
    (forall i :: 0 <= i < |GATEWAY_KEYS| ==> ValueOk(scope, tags, GATEWAY_KEYS[i])) &&
    (routeScoped ==> forall i :: 0 <= i < |ROUTE_KEYS| ==> ValueOk(scope, tags, ROUTE_KEYS[i]))
  }

  predicate ValueOk(scope: Scope, tags: Tags, key: string)
  {
    var v := Single(tags, key);
    v.Some? && v.value != "" && scope.validValue(v.value)
  }

  predicate SameValues(a: Tags, b: Tags, keys: seq<string>)
  {
    forall i :: 0 <= i < |keys| ==> Single(a, keys[i]).Some? && Single(a, keys[i]) == Single(b, keys[i])
  }

  const SHARED_KEYS := ["managed", "cluster", "controller", "project", "namespace", "name", "uid"]

  /** A child carries its parent's Gateway identity; beneath a pool or policy also
      its route identity. */
  predicate AgreesWithParent(cands: Candidates, r: Ref, c: Candidate, parentId: Id)
  {
    ParentKind(r.kind).Some? && Ref(ParentKind(r.kind).value, parentId) in cands ==>
      var p := cands[Ref(ParentKind(r.kind).value, parentId)];
      SameValues(c.tags, p.tags, SHARED_KEYS) &&
      (r.kind.MemberKind? || r.kind.MonitorKind? || r.kind.RuleKind? ==> SameValues(c.tags, p.tags, ROUTE_KEYS))
  }

  predicate ParentExists(cands: Candidates, k: Kind, id: Id)
  {
    ParentKind(k).Some? && Ref(ParentKind(k).value, id) in cands
  }

  function PolicyPoolVerdict(cands: Candidates, c: Candidate): Disposition
  {
    if c.redirectPool == "" || Ref(PoolKind, c.redirectPool) !in cands then Unresolved
    else if !SameValues(c.tags, cands[Ref(PoolKind, c.redirectPool)].tags, SHARED_KEYS + ROUTE_KEYS) then OwnershipConflict
    else Matched
  }

  function ProviderVerdict(k: Kind, c: Candidate): Disposition
  {
    if !k.LoadBalancerKind? then Matched
    else if c.provider == "" then Unresolved
    else if c.provider != "amphora" then OwnershipConflict
    else Matched
  }

  function BindingVerdict(scope: Scope, tags: Tags, role: Role, routeScoped: bool): Disposition
  {
    var m := MatchRecords(scope.codec, scope.records, tags, role, routeScoped);
    if |m.exact| > 1 then OwnershipConflict
    else if |m.exact| == 1 then Matched
    else if !routeScoped && m.routeGateway != [] then Unresolved
    else if |m.discovery| > 1 then OwnershipConflict
    else if |m.discovery| == 1 then
      (if OnlyUIDsDiffer(scope.codec, tags, m.discovery[0], role, routeScoped) then StaleUID else OwnershipConflict)
    else OrphanCandidate
  }

  function RoleOf(scope: Scope, tags: Tags): Option<Role>
  {
    var encoded := Single(tags, "role");
    if encoded.Some? then scope.decodeRole(encoded.value) else None
  }

  function ClassifyTagged(scope: Scope, cands: Candidates, r: Ref, c: Candidate): Disposition
  {
    var parentId := ParentId(c);
    var role := RoleOf(scope, c.tags);
    if !HasAll(c.tags, ScopeTags(scope)) || role.None? || !RoleSuits(r.kind, role.value) then OwnershipConflict
    else if !IdentityTagsOk(scope, c.tags, RouteScoped(r.kind)) || !HasAll(c.tags, ProjectTag(scope)) then OwnershipConflict
    else if ProviderVerdict(r.kind, c) != Matched then ProviderVerdict(r.kind, c)
    else if parentId != "" && (r.kind.ListenerKind? || r.kind.PoolKind? || r.kind.MonitorKind?) &&
            ParentExists(cands, r.kind, parentId) && c.observed == [] then Unresolved
    else if parentId != "" && !AgreesWithParent(cands, r, c, parentId) then OwnershipConflict
    else if r.kind.PolicyKind? && PolicyPoolVerdict(cands, c) != Matched then PolicyPoolVerdict(cands, c)
    else
      var verdict := BindingVerdict(scope, c.tags, role.value, RouteScoped(r.kind));
      if verdict == Matched && !r.kind.LoadBalancerKind? && (parentId == "" || !ParentExists(cands, r.kind, parentId))
      then Unresolved
      else verdict
  }

  function ClassifyFloatingIP(scope: Scope, cands: Candidates, c: Candidate): Disposition
  {
    var parentId := ParentId(c);
    var parent := Ref(LoadBalancerKind, parentId);
    var exact := AttributeRecords(scope.codec, scope.records, c.description, false);
    var routes := AttributeRecords(scope.codec, scope.records, c.description, true);
    if !(DESCRIPTION <= c.description) then OwnershipConflict
    else if |exact| > 1 then OwnershipConflict
    else if |exact| == 1 then
      (if parentId == "" || parent !in cands then Unresolved
       else if !MatchesGateway(scope.codec, exact[0], cands[parent].tags, LoadBalancerRole) then OwnershipConflict
       else Matched)
    else if routes != [] then
      (if parentId != "" && (parent !in cands || !MatchesGateway(scope.codec, routes[0], cands[parent].tags, LoadBalancerRole))
       then OwnershipConflict
       else Unresolved)
    else Unresolved
  }

  function Classify(scope: Scope, cands: Candidates, r: Ref, c: Candidate): Disposition
  {
    var project := if c.project == "" then c.tenant else c.project;
    if Blank(r.id) then OwnershipConflict
    else if c.changed || project == "" then Unresolved
    else if project != scope.project || ParentOf(c).ParentClash? then OwnershipConflict
    else if r.kind.FloatingIPKind? then ClassifyFloatingIP(scope, cands, c)
    else ClassifyTagged(scope, cands, r, c)
  }

  /** What a resource that passes its own classification is known to have. */
  lemma MatchedAlone(scope: Scope, cands: Candidates, r: Ref, c: Candidate)
    requires Classify(scope, cands, r, c) == Matched
    ensures !r.kind.LoadBalancerKind? ==> ParentId(c) != "" && ParentExists(cands, r.kind, ParentId(c))
    ensures r.kind.PolicyKind? ==> c.redirectPool != "" && Ref(PoolKind, c.redirectPool) in cands
    ensures !r.kind.FloatingIPKind? ==> IdentityTagsOk(scope, c.tags, RouteScoped(r.kind))
    ensures r.kind.FloatingIPKind? ==> DESCRIPTION <= c.description
  {
    hide ParentOf, IdentityTagsOk, HasAll, RoleSuits, AgreesWithParent, Blank, BindingVerdict, RoleOf, AttributeRecords, MatchesGateway;
  }

  // ----- duplicates -----

  /** The text before a marker, or the whole text without one. */
  function Before(s: string, marker: string): (r: string)
    decreases |s|
  {
    if marker <= s || s == "" then "" else [s[0]] + Before(s[1..], marker)
  }

  const VERSION_MARKER := "; controller-version="

  function StableKeys(k: Kind): seq<string>
  {
    ["cluster", "controller", "namespace", "name", "role"] +
    if k.PoolKind? || k.MonitorKind? || k.PolicyKind? || k.RuleKind? then ["route-namespace", "route-name"] else []
  }

  /** The logical identity of a resource; members have none. */
  datatype LogicalKey = NoKey | LogicalKey(kind: Kind, values: seq<string>)

  function Values(tags: Tags, keys: seq<string>): (r: Option<seq<string>>)
    ensures r.Some? <==> forall i :: 0 <= i < |keys| ==> Single(tags, keys[i]).Some?
  {
    if keys == [] then Some([])
    else
      var v, rest := Single(tags, keys[0]), Values(tags, keys[1..]);
      if v.Some? && rest.Some? then
        assert forall i :: 0 < i < |keys| ==> keys[i] == keys[1..][i - 1];
        Some([v.value] + rest.value)
      else
        assert v.Some? ==> exists i :: 0 <= i < |keys[1..]| && Single(tags, keys[1..][i]).None?;
        assert forall i :: 0 <= i < |keys[1..]| ==> keys[1..][i] == keys[i + 1];
        None
  }

  function KeyOfCandidate(r: Ref, c: Candidate): LogicalKey
  {
    if r.kind.MemberKind? then NoKey
    else if r.kind.FloatingIPKind? then
      var text := Before(c.description, VERSION_MARKER);
      if text == "" then NoKey else LogicalKey(r.kind, [text])
    else
      var values := Values(c.tags, StableKeys(r.kind));
      if values.None? then NoKey
      else LogicalKey(r.kind, values.value + if r.kind.RuleKind? then [ParentId(c)] else [])
  }

  /** The key under which a classified resource is counted. */
  function CardinalityKey(scope: Scope, cands: Candidates, r: Ref): LogicalKey
    requires r in cands
  {
    if Classify(scope, cands, r, cands[r]) == OwnershipConflict then NoKey else KeyOfCandidate(r, cands[r])
  }

  ghost predicate HasTwin(scope: Scope, cands: Candidates, r: Ref)
    requires r in cands
  {
    CardinalityKey(scope, cands, r) != NoKey &&
    exists s :: s in cands && s != r && CardinalityKey(scope, cands, s) == CardinalityKey(scope, cands, r)
  }

  ghost function Marked(scope: Scope, cands: Candidates, r: Ref): Disposition
    requires r in cands
  {
    if HasTwin(scope, cands, r) then OwnershipConflict else Classify(scope, cands, r, cands[r])
  }

  lemma {:induction false} StableValues(scope: Scope, tags: Tags, k: Kind)
    requires IdentityTagsOk(scope, tags, RouteScoped(k))
    ensures Values(tags, StableKeys(k)).Some?
  {
    hide Single, Values;
    var keys := StableKeys(k);
    assert GATEWAY_KEYS[0] == "cluster" && GATEWAY_KEYS[1] == "controller" && GATEWAY_KEYS[3] == "namespace";
    assert GATEWAY_KEYS[4] == "name" && GATEWAY_KEYS[6] == "role";
    assert ROUTE_KEYS[0] == "route-namespace" && ROUTE_KEYS[1] == "route-name";
    assert forall i :: 0 <= i < |keys| ==> Single(tags, keys[i]).Some?;
  }

  /** Every matched resource that is not a member has a logical identity. */
  lemma MatchedHasKey(scope: Scope, cands: Candidates, r: Ref)
    requires r in cands && Classify(scope, cands, r, cands[r]) == Matched && !r.kind.MemberKind?
    ensures KeyOfCandidate(r, cands[r]) != NoKey
  {
    MatchedAlone(scope, cands, r, cands[r]);
    hide Classify, IdentityTagsOk;
    if r.kind.FloatingIPKind? {
      var d := cands[r].description;
      assert d[0] == 'g';
      assert !(VERSION_MARKER <= d);
    } else {
      StableValues(scope, cands[r].tags, r.kind);
    }
  }

  // ----- propagation -----

  function ParentRefs(cands: Candidates, r: Ref): (ps: seq<Ref>)
    requires r in cands
    ensures forall i :: 0 <= i < |ps| ==> Order(ps[i].kind) < Order(r.kind)
  {
    var c := cands[r];
    (if ParentKind(r.kind).Some? && ParentId(c) != "" then [Ref(ParentKind(r.kind).value, ParentId(c))] else []) +
    (if r.kind.PolicyKind? && c.redirectPool != "" then [Ref(PoolKind, c.redirectPool)] else [])
  }

  /** A parent in conflict passes the conflict on, any other unmatched parent
      leaves the child unresolved. */
  function Inherited(parent: Disposition): Disposition
    requires parent != Matched
  {
    if parent == OwnershipConflict then OwnershipConflict else Unresolved
  }

  ghost function Final(scope: Scope, cands: Candidates, r: Ref): Disposition
    requires r in cands
    decreases Order(r.kind), 1, 0
  {
    if Marked(scope, cands, r) != Matched then Marked(scope, cands, r)
    else FromParents(scope, cands, r, ParentRefs(cands, r))
  }

  /** The first listed parent that is not matched decides. */
  ghost function FromParents(scope: Scope, cands: Candidates, r: Ref, ps: seq<Ref>): Disposition
    requires forall i :: 0 <= i < |ps| ==> Order(ps[i].kind) < Order(r.kind)
    decreases Order(r.kind), 0, |ps|
  {
    if ps == [] then Matched
    else if ps[0] in cands && Final(scope, cands, ps[0]) != Matched then Inherited(Final(scope, cands, ps[0]))
    else FromParents(scope, cands, r, ps[1..])
  }

  lemma {:induction false} FromParentsMatched(scope: Scope, cands: Candidates, r: Ref, ps: seq<Ref>)
    requires forall i :: 0 <= i < |ps| ==> Order(ps[i].kind) < Order(r.kind)
    ensures FromParents(scope, cands, r, ps) == Matched <==>
            forall i :: 0 <= i < |ps| && ps[i] in cands ==> Final(scope, cands, ps[i]) == Matched
    decreases |ps|
  {
    hide Final;
    if ps != [] {
      FromParentsMatched(scope, cands, r, ps[1..]);
      assert forall i :: 0 <= i < |ps[1..]| ==> ps[1..][i] == ps[i + 1];
      if forall i :: 0 <= i < |ps[1..]| && ps[1..][i] in cands ==> Final(scope, cands, ps[1..][i]) == Matched {
        forall i | 1 <= i < |ps| && ps[i] in cands ensures Final(scope, cands, ps[i]) == Matched {
          assert ps[i] == ps[1..][i - 1];
        }
      }
    }
  }

  ghost predicate MatchedHere(scope: Scope, cands: Candidates, r: Ref)
  {
    r in cands && Final(scope, cands, r) == Matched
  }

  /** Audit soundness: a matched resource has its parent, and a policy its redirect
      pool, present and matched. */
  lemma AuditSound(scope: Scope, cands: Candidates, r: Ref)
    requires MatchedHere(scope, cands, r)
    ensures !r.kind.LoadBalancerKind? ==> MatchedHere(scope, cands, Ref(ParentKind(r.kind).value, ParentId(cands[r])))
    ensures r.kind.PolicyKind? ==> MatchedHere(scope, cands, Ref(PoolKind, cands[r].redirectPool))
  {
    var c := cands[r];
    MatchedAlone(scope, cands, r, c);
    hide Classify, HasTwin;
    var ps := ParentRefs(cands, r);
    FromParentsMatched(scope, cands, r, ps);
    hide FromParents, ParentOf;
    if !r.kind.LoadBalancerKind? {
      assert ps[0] == Ref(ParentKind(r.kind).value, ParentId(c));
    }
    if r.kind.PolicyKind? {
      assert ps[1] == Ref(PoolKind, c.redirectPool);
    }
  }

  /** No two resources reported as matched share a logical identity; only members
      have none. */
  lemma MatchedAreDistinct(scope: Scope, cands: Candidates, r: Ref, s: Ref)
    requires MatchedHere(scope, cands, r) && MatchedHere(scope, cands, s) && r != s && !r.kind.MemberKind?
    ensures KeyOfCandidate(r, cands[r]) != NoKey && KeyOfCandidate(r, cands[r]) != KeyOfCandidate(s, cands[s])
  {
    hide Classify, KeyOfCandidate, FromParents, ParentRefs;
    assert Marked(scope, cands, r) == Matched && Marked(scope, cands, s) == Matched;
    MatchedHasKey(scope, cands, r);
    hide Marked;
  }

  /** The chain of parents up to a load balancer. */
  ghost predicate ChainMatched(scope: Scope, cands: Candidates, r: Ref)
    decreases Order(r.kind)
  {
    MatchedHere(scope, cands, r) &&
    (r.kind.LoadBalancerKind? || ChainMatched(scope, cands, Ref(ParentKind(r.kind).value, ParentId(cands[r]))))
  }

  lemma {:induction false} WholeChainMatched(scope: Scope, cands: Candidates, r: Ref)
    requires MatchedHere(scope, cands, r)
    ensures ChainMatched(scope, cands, r)
    decreases Order(r.kind)
  {
    hide MatchedHere;
    AuditSound(scope, cands, r);
    if !r.kind.LoadBalancerKind? {
      assert r in cands by { MatchedIsThere(scope, cands, r); }
      WholeChainMatched(scope, cands, Ref(ParentKind(r.kind).value, ParentId(cands[r])));
    }
  }

  lemma MatchedIsThere(scope: Scope, cands: Candidates, r: Ref)
    requires MatchedHere(scope, cands, r)
    ensures r in cands
  {
  }

  // ----- the passes as the scanner runs them -----

  /** Every candidate once, in any order. */
  ghost predicate IsListing(cands: Candidates, refs: seq<Ref>)
  {
    (forall r :: r in refs <==> r in cands) && (forall i, j :: 0 <= i < j < |refs| ==> refs[i] != refs[j])
  }

  function Count(keys: seq<LogicalKey>, k: LogicalKey): nat
  {
    if keys == [] then 0 else Count(keys[..|keys| - 1], k) + if keys[|keys| - 1] == k then 1 else 0
  }

  lemma {:induction false} CountOne(keys: seq<LogicalKey>, k: LogicalKey)
    ensures Count(keys, k) >= 1 <==> k in keys
  {
    if keys != [] {
      CountOne(keys[..|keys| - 1], k);
      assert keys == keys[..|keys| - 1] + [keys[|keys| - 1]];
    }
  }

  /** At least two means that every occurrence has another one beside it. */
  lemma {:induction false} CountTwo(keys: seq<LogicalKey>, i: int)
    requires 0 <= i < |keys|
    ensures Count(keys, keys[i]) >= 2 <==> exists j :: 0 <= j < |keys| && j != i && keys[j] == keys[i]
  {
    var n := |keys| - 1;
    var front, k := keys[..n], keys[i];
    CountOne(front, k);
    if i < n {
      CountTwo(front, i);
      assert front[i] == k;
      if Count(keys, k) >= 2 {
        if keys[n] != k {
          var j :| 0 <= j < n && j != i && front[j] == front[i];
          assert keys[j] == keys[i];
        }
      }
      if j :| 0 <= j < |keys| && j != i && keys[j] == keys[i] {
        assert j < n ==> front[j] == front[i];
      }
    } else {
      if k in front {
        var j :| 0 <= j < n && front[j] == k;
        assert keys[j] == keys[i];
      }
      if j :| 0 <= j < |keys| && j != i && keys[j] == keys[i] {
        assert front[j] == k;
      }
    }
  }

  method GroupSizes(keys: seq<LogicalKey>) returns (groups: map<LogicalKey, nat>)
    ensures forall k :: k in keys ==> k in groups && groups[k] == Count(keys, k)
  {
    groups := map[];
    for i := 0 to |keys|
      invariant forall k :: k in groups <==> k in keys[..i]
      invariant forall k :: k in groups ==> groups[k] == Count(keys[..i], k)
    {
      assert keys[..i + 1][..i] == keys[..i];
      CountOne(keys[..i], keys[i]);
      groups := groups[keys[i] := (if keys[i] in groups then groups[keys[i]] else 0) + 1];
    }
    assert keys[..|keys|] == keys;
  }

  function Keys(scope: Scope, cands: Candidates, refs: seq<Ref>): (r: seq<LogicalKey>)
    requires forall i :: 0 <= i < |refs| ==> refs[i] in cands
    ensures |r| == |refs| && forall i :: 0 <= i < |r| ==> r[i] == CardinalityKey(scope, cands, refs[i])
  {
    seq(|refs|, i requires 0 <= i < |refs| => CardinalityKey(scope, cands, refs[i]))
  }

  lemma TwinCounted(scope: Scope, cands: Candidates, refs: seq<Ref>, i: int)
    requires IsListing(cands, refs) && 0 <= i < |refs|
    ensures forall j :: 0 <= j < |refs| ==> refs[j] in cands
    ensures var keys := Keys(scope, cands, refs);
            HasTwin(scope, cands, refs[i]) <==> keys[i] != NoKey && Count(keys, keys[i]) >= 2
  {
    hide CardinalityKey, Count;
    assert forall j :: 0 <= j < |refs| ==> refs[j] in refs;
    var keys := Keys(scope, cands, refs);
    CountTwo(keys, i);
    if s :| s in cands && s != refs[i] && CardinalityKey(scope, cands, s) == keys[i] {
      var j :| 0 <= j < |refs| && refs[j] == s;
      assert keys[j] == keys[i];
    }
    if j :| 0 <= j < |keys| && j != i && keys[j] == keys[i] {
      assert refs[j] in cands && refs[j] != refs[i];
    }
  }

  method MarkDuplicates(scope: Scope, cands: Candidates, refs: seq<Ref>, findings: array<Disposition>)
    requires IsListing(cands, refs) && findings.Length == |refs|
    requires forall i :: 0 <= i < |refs| ==> refs[i] in cands && findings[i] == Classify(scope, cands, refs[i], cands[refs[i]])
    modifies findings
    ensures forall i :: 0 <= i < |refs| ==> refs[i] in cands && findings[i] == Marked(scope, cands, refs[i])
  {
    hide Classify, HasTwin, CardinalityKey, IsListing, Count;
    var keys := Keys(scope, cands, refs);
    var groups := GroupSizes(keys);
    for i := 0 to |refs|
      invariant forall j :: 0 <= j < i ==> findings[j] == Marked(scope, cands, refs[j])
      invariant forall j :: i <= j < |refs| ==> findings[j] == Classify(scope, cands, refs[j], cands[refs[j]])
    {
      TwinCounted(scope, cands, refs, i);
      if keys[i] != NoKey && groups[keys[i]] >= 2 {
        findings[i] := OwnershipConflict;
      }
    }
  }

  method IndexRefs(refs: seq<Ref>) returns (byResource: map<Ref, nat>)
    requires forall i, j :: 0 <= i < j < |refs| ==> refs[i] != refs[j]
    ensures forall r :: r in byResource <==> r in refs
    ensures forall r :: r in byResource ==> byResource[r] < |refs| && refs[byResource[r]] == r
  {
    byResource := map[];
    for i := 0 to |refs|
      invariant forall r :: r in byResource <==> r in refs[..i]
      invariant forall r :: r in byResource ==> byResource[r] < |refs| && refs[byResource[r]] == r
    {
      byResource := byResource[refs[i] := i];
    }
    assert refs[..|refs|] == refs;
  }

  /** What the findings say at the start of the pass over one level: levels below
      are final, this level up to `i` too, everything else is as marked. */
  ghost predicate PassedTo(scope: Scope, cands: Candidates, refs: seq<Ref>, findings: seq<Disposition>, order: nat, i: nat)
  {
    |findings| == |refs| &&
    forall j :: 0 <= j < |refs| ==>
      refs[j] in cands &&
      findings[j] == if Done(refs, order, i, j) then Final(scope, cands, refs[j]) else Marked(scope, cands, refs[j])
  }

  predicate Done(refs: seq<Ref>, order: nat, i: nat, j: nat)
    requires j < |refs|
  {
    Order(refs[j].kind) < order || (Order(refs[j].kind) == order && j < i)
  }

  method ParentVerdict(
    scope: Scope, cands: Candidates, refs: seq<Ref>, findings: array<Disposition>, byResource: map<Ref, nat>, order: nat, i: nat)
    returns (verdict: Disposition)
    requires findings.Length == |refs| && i < |refs| && Order(refs[i].kind) == order
    requires PassedTo(scope, cands, refs, findings[..], order, i)
    requires forall r :: r in byResource <==> r in cands
    requires forall r :: r in byResource ==> byResource[r] < |refs| && refs[byResource[r]] == r
    ensures refs[i] in cands && verdict == FromParents(scope, cands, refs[i], ParentRefs(cands, refs[i]))
  {
    hide Marked, Final, ParentRefs;
    var r := refs[i];
    assert r in cands;
    var ps := ParentRefs(cands, r);
    for k := 0 to |ps|
      invariant FromParents(scope, cands, r, ps[k..]) == FromParents(scope, cands, r, ps)
    {
      assert ps[k..][0] == ps[k] && ps[k..][1..] == ps[k + 1..];
      if ps[k] in byResource {
        var parent := findings[byResource[ps[k]]];
        assert Done(refs, order, i, byResource[ps[k]]);
        assert findings[..][byResource[ps[k]]] == Final(scope, cands, ps[k]);
        if parent != Matched {
          return Inherited(parent);
        }
      }
    }
    verdict := Matched;
  }

  /** Propagation in place: whatever order the resources are listed in, every
      finding ends as the specification says. */
  method PropagateParentFindings(scope: Scope, cands: Candidates, refs: seq<Ref>, findings: array<Disposition>)
    requires IsListing(cands, refs) && findings.Length == |refs|
    requires forall i :: 0 <= i < |refs| ==> refs[i] in cands && findings[i] == Marked(scope, cands, refs[i])
    modifies findings
    ensures forall i :: 0 <= i < |refs| ==> refs[i] in cands && findings[i] == Final(scope, cands, refs[i])
  {
    hide Marked, FromParents;
    var byResource := IndexRefs(refs);
    var order := 1;
    RootsAreFinal(scope, cands, refs, findings[..]);
    while order <= 7
      invariant 1 <= order <= 8 && findings.Length == |refs|
      invariant PassedTo(scope, cands, refs, findings[..], order, 0)
    {
      PropagateLevel(scope, cands, refs, findings, byResource, order);
      order := order + 1;
    }
    AllLevelsDone(scope, cands, refs, findings[..]);
  }

  lemma RootsAreFinal(scope: Scope, cands: Candidates, refs: seq<Ref>, findings: seq<Disposition>)
    requires |findings| == |refs|
    requires forall i :: 0 <= i < |refs| ==> refs[i] in cands && findings[i] == Marked(scope, cands, refs[i])
    ensures PassedTo(scope, cands, refs, findings, 1, 0)
  {
    hide Marked;
    forall j | 0 <= j < |refs| && refs[j].kind.LoadBalancerKind? ensures Final(scope, cands, refs[j]) == findings[j] {
      assert ParentRefs(cands, refs[j]) == [];
    }
  }

  lemma AllLevelsDone(scope: Scope, cands: Candidates, refs: seq<Ref>, findings: seq<Disposition>)
    requires PassedTo(scope, cands, refs, findings, 8, 0)
    ensures forall i :: 0 <= i < |refs| ==> refs[i] in cands && findings[i] == Final(scope, cands, refs[i])
  {
    hide Marked, Final;
  }

  method PropagateLevel(
    scope: Scope, cands: Candidates, refs: seq<Ref>, findings: array<Disposition>, byResource: map<Ref, nat>, order: nat)
    requires findings.Length == |refs| && PassedTo(scope, cands, refs, findings[..], order, 0)
    requires forall r :: r in byResource <==> r in cands
    requires forall r :: r in byResource ==> byResource[r] < |refs| && refs[byResource[r]] == r
    modifies findings
    ensures PassedTo(scope, cands, refs, findings[..], order + 1, 0)
  {
    hide Marked, FromParents, ParentRefs;
    for i := 0 to |refs|
      invariant PassedTo(scope, cands, refs, findings[..], order, i)
    {
      ghost var before := findings[..];
      assert refs[i] in cands;
      if Order(refs[i].kind) == order && findings[i] == Matched {
        findings[i] := ParentVerdict(scope, cands, refs, findings, byResource, order, i);
      }
      NextInLevel(scope, cands, refs, before, findings[..], order, i);
    }
    NextLevel(scope, cands, refs, findings[..], order);
  }

  lemma NextInLevel(
    scope: Scope, cands: Candidates, refs: seq<Ref>, before: seq<Disposition>, after: seq<Disposition>, order: nat, i: nat)
    requires PassedTo(scope, cands, refs, before, order, i) && i < |refs| && |after| == |refs|
    requires forall j :: 0 <= j < |refs| && j != i ==> after[j] == before[j]
    requires refs[i] in cands
    requires after[i] == if Order(refs[i].kind) == order && before[i] == Matched
                         then FromParents(scope, cands, refs[i], ParentRefs(cands, refs[i])) else before[i]
    ensures PassedTo(scope, cands, refs, after, order, i + 1)
  {
    hide Marked, FromParents, ParentRefs;
  }

  lemma NextLevel(scope: Scope, cands: Candidates, refs: seq<Ref>, findings: seq<Disposition>, order: nat)
    requires PassedTo(scope, cands, refs, findings, order, |refs|)
    ensures PassedTo(scope, cands, refs, findings, order + 1, 0)
  {
    hide Marked, Final;
  }
}
