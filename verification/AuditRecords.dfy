/** The durable Kubernetes bindings the audit compares resources with. Each is an
    ownership identity, of a Gateway or of a route bound to one. */
module AuditRecords {
  import opened Ownership
  import opened Kube
  import opened OwnershipTags

  predicate IsRoute(id: Identity)
  {
    id.routeNamespace != "" || id.routeName != "" || id.routeUID != ""
  }

  /** The controller version is not part of ownership. */
  function Erased(id: Identity): Identity
  {
    id.(controllerVersion := "")
  }

  predicate Known(ids: seq<Identity>, id: Identity)
  {
    exists i :: 0 <= i < |ids| && Erased(ids[i]) == Erased(id)
  }

  function AddUnique(ids: seq<Identity>, id: Identity, wanted: bool): seq<Identity>
  {
    if wanted && !Known(ids, id) then ids + [id] else ids
  }

  // ----- by tags -----

  predicate ExactRecord(c: Codec, id: Identity, tags: Tags, role: Role, routeScoped: bool)
  {
    if routeScoped then IsRoute(id) && MatchesRoute(c, id, tags, role) else !IsRoute(id) && MatchesGateway(c, id, tags, role)
  }

  /** The names match, but not every immutable field. */
  predicate NamedRecord(c: Codec, id: Identity, tags: Tags, role: Role, routeScoped: bool)
  {
    if routeScoped then IsRoute(id) && !MatchesRoute(c, id, tags, role) && MatchesRouteDiscovery(c, id, tags, role)
    else !IsRoute(id) && !MatchesGateway(c, id, tags, role) && MatchesGatewayDiscovery(c, id, tags, role)
  }

  /** A route binding that refers to this Gateway resource. */
  predicate ReferringRecord(c: Codec, id: Identity, tags: Tags, role: Role, routeScoped: bool)
  {
    !routeScoped && IsRoute(id) && MatchesGateway(c, id, tags, role)
  }

  datatype Matching = Matching(exact: seq<Identity>, discovery: seq<Identity>, routeGateway: seq<Identity>)

  function MatchRecords(c: Codec, records: seq<Identity>, tags: Tags, role: Role, routeScoped: bool): Matching
  {
    if records == [] then Matching([], [], [])
    else
      var m, id := MatchRecords(c, records[..|records| - 1], tags, role, routeScoped), records[|records| - 1];
      Matching(AddUnique(m.exact, id, ExactRecord(c, id, tags, role, routeScoped)),
               AddUnique(m.discovery, id, NamedRecord(c, id, tags, role, routeScoped)),
               AddUnique(m.routeGateway, id, ReferringRecord(c, id, tags, role, routeScoped)))
  }

  method MatchingAuditRecords(c: Codec, records: seq<Identity>, tags: Tags, role: Role, routeScoped: bool)
    returns (exact: seq<Identity>, discovery: seq<Identity>, routeGateway: seq<Identity>)
    ensures Matching(exact, discovery, routeGateway) == MatchRecords(c, records, tags, role, routeScoped)
  {
    hide ExactRecord, NamedRecord, ReferringRecord, AddUnique;
    exact, discovery, routeGateway := [], [], [];
    for i := 0 to |records|
      invariant Matching(exact, discovery, routeGateway) == MatchRecords(c, records[..i], tags, role, routeScoped)
    {
      assert records[..i + 1][..i] == records[..i];
      var id := records[i];
      exact := AddUnique(exact, id, ExactRecord(c, id, tags, role, routeScoped));
      discovery := AddUnique(discovery, id, NamedRecord(c, id, tags, role, routeScoped));
      routeGateway := AddUnique(routeGateway, id, ReferringRecord(c, id, tags, role, routeScoped));
    }
    assert records[..|records|] == records;
  }

  /** The collected exact matches are records that match, and every record that
      matches is collected up to its version. */
  lemma {:induction false} ExactCollected(c: Codec, records: seq<Identity>, tags: Tags, role: Role, routeScoped: bool)
    ensures var exact := MatchRecords(c, records, tags, role, routeScoped).exact;
            (forall id :: id in exact ==> id in records && ExactRecord(c, id, tags, role, routeScoped)) &&
            (forall id :: id in records && ExactRecord(c, id, tags, role, routeScoped) ==> Known(exact, id))
  {
    hide ExactRecord, NamedRecord, ReferringRecord, Erased;
    if records != [] {
      var n := |records| - 1;
      ExactCollected(c, records[..n], tags, role, routeScoped);
      var before := MatchRecords(c, records[..n], tags, role, routeScoped).exact;
      var exact := MatchRecords(c, records, tags, role, routeScoped).exact;
      assert before <= exact;
      forall id | Known(before, id) ensures Known(exact, id) {
        var i :| 0 <= i < |before| && Erased(before[i]) == Erased(id);
        assert exact[i] == before[i];
      }
      forall id | id in records && ExactRecord(c, id, tags, role, routeScoped) ensures Known(exact, id) {
        if id !in records[..n] {
          assert id == records[n];
          if !Known(before, id) {
            assert exact[|before|] == id;
          }
        }
      }
    }
  }

  /** With a single exact match, all records that match are that one. */
  lemma SingleMatch(c: Codec, records: seq<Identity>, tags: Tags, role: Role, routeScoped: bool, id: Identity)
    requires |MatchRecords(c, records, tags, role, routeScoped).exact| == 1
    requires id in records && ExactRecord(c, id, tags, role, routeScoped)
    ensures Erased(id) == Erased(MatchRecords(c, records, tags, role, routeScoped).exact[0])
  {
    hide ExactRecord, MatchRecords;
    ExactCollected(c, records, tags, role, routeScoped);
  }

  // ----- by description -----

  predicate Attributed(c: Codec, id: Identity, text: string, route: bool)
  {
    IsRoute(id) == route && MatchesGatewayDescription(c, id, text, FloatingIPRole)
  }

  function AttributeRecords(c: Codec, records: seq<Identity>, text: string, route: bool): (r: seq<Identity>)
    ensures forall id :: id in r ==> id in records && Attributed(c, id, text, route)
  {
    if records == [] then []
    else
      var id := records[|records| - 1];
      AddUnique(AttributeRecords(c, records[..|records| - 1], text, route), id, Attributed(c, id, text, route))
  }

  // ----- which fields differ -----

  /** The value under a key, "" when it is absent or repeated. */
  function UniqueValue(tags: Tags, key: string): string
  {
    var values := ValuesOf(tags, key);
    if |values| == 1 then values[0] else ""
  }

  const COMPARED_KEYS := ["managed", "cluster", "controller", "project", "namespace", "name", "uid", "role",
                          "route-namespace", "route-name", "route-uid"]

  predicate Differs(c: Codec, tags: Tags, id: Identity, role: Role, routeScoped: bool, key: string)
  {
    var expected := WriteAll(if routeScoped then RouteFields(c, id, role) else GatewayFields(c, id, role));
    UniqueValue(tags, key) != UniqueValue(expected, key)
  }

  /** Something differs, and nothing but UIDs does. */
  predicate OnlyUIDsDiffer(c: Codec, tags: Tags, id: Identity, role: Role, routeScoped: bool)
  {
    (routeScoped ==> ValidRouteIdentity(id)) &&
    (exists i :: 0 <= i < |COMPARED_KEYS| && Differs(c, tags, id, role, routeScoped, COMPARED_KEYS[i])) &&
    (forall i :: 0 <= i < |COMPARED_KEYS| && Differs(c, tags, id, role, routeScoped, COMPARED_KEYS[i]) ==>
      COMPARED_KEYS[i] == "uid" || COMPARED_KEYS[i] == "route-uid")
  }
}
