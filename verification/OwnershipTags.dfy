/** How an ownership identity is written on OpenStack resources: one tag per
    field, or a digest in a description where tags are not available. */
module OwnershipTags {
  import opened Ownership
  import opened Kube

  const PREFIX := "gateway-api-openstack."
  const MAX_TAG := 255

  /** Unpadded base64url (RFC 4648, sections 3.2 and 5), and SHA-256 in that
      encoding and in hexadecimal. Strings are byte strings. */
  datatype Codec = Codec(encode: string -> string, digest: string -> string, hex: string -> string)

  ghost predicate LawfulCodec(c: Codec)
  {
    (forall a, b :: c.encode(a) == c.encode(b) ==> a == b) &&
    (forall a :: |c.encode(a)| == (4 * |a| + 2) / 3) &&
    (forall a :: |c.digest(a)| == 43 && |c.hex(a)| == 64)
  }

  /** Two given inputs do not collide. */
  predicate NoCollision(c: Codec, a: string, b: string)
  {
    c.hex(a) == c.hex(b) ==> a == b
  }

  // ----- one tag -----

  /** One identity tag: the prefix, a key, '=' and an encoded value. */
  datatype Field = Field(key: string, encoded: string)

  function Written(f: Field): string
  {
    PREFIX + f.key + "=" + f.encoded
  }

  predicate Fits(c: Codec, key: string, value: string)
  {
    |PREFIX| + |key| + 1 + |c.encode(value)| <= MAX_TAG
  }

  /** A value that does not fit is replaced by its digest. */
  function Encoded(c: Codec, key: string, value: string): (r: Field)
    ensures r.key == key
  {
    Field(key, if Fits(c, key, value) then c.encode(value) else "sha256-" + c.digest(value))
  }

  /** The text before and after the first '='. */
  function Cut(s: string): (r: Option<Field>)
    ensures r.Some? ==> s == r.value.key + "=" + r.value.encoded && '=' !in r.value.key
    ensures r.None? ==> '=' !in s
  {
    if s == "" then None
    else if s[0] == '=' then Some(Field("", s[1..]))
    else
      var rest := Cut(s[1..]);
      if rest.None? then None else Some(Field([s[0]] + rest.value.key, rest.value.encoded))
  }

  function ParseTag(tag: string): (r: Option<Field>)
    ensures r.Some? ==> tag == Written(r.value)
  {
    if !(PREFIX <= tag) then None
    else
      var f := Cut(tag[|PREFIX|..]);
      if f.None? || f.value.key == "" then None else f
  }

  predicate GoodKey(key: string)
  {
    key != "" && '=' !in key && |key| <= 100
  }

  lemma {:induction false} CutAt(key: string, rest: string)
    requires '=' !in key
    ensures Cut(key + "=" + rest) == Some(Field(key, rest))
  {
    if key == "" {
      assert key + "=" + rest == "=" + rest;
    } else {
      CutAt(key[1..], rest);
      assert (key + "=" + rest)[1..] == key[1..] + "=" + rest;
      assert [key[0]] + key[1..] == key;
    }
  }

  /** Parsing a written tag gives back its key and encoded value. */
  lemma ParseWritten(f: Field)
    requires GoodKey(f.key)
    ensures ParseTag(Written(f)) == Some(f)
  {
    CutAt(f.key, f.encoded);
    assert Written(f)[|PREFIX|..] == f.key + "=" + f.encoded;
  }

  // ----- matching -----

  /** The encoded values recorded under a key, in order. */
  function ValuesOf(tags: Tags, key: string): seq<string>
  {
    if tags == [] then []
    else
      var f := ParseTag(tags[|tags| - 1]);
      ValuesOf(tags[..|tags| - 1], key) + if f.Some? && f.value.key == key then [f.value.encoded] else []
  }

  predicate HasOne(actual: Tags, tag: string)
  {
    var f := ParseTag(tag);
    f.Some? && ValuesOf(actual, f.value.key) == [f.value.encoded]
  }

  /** Every expected key occurs exactly once, with the expected value. */
  predicate HasAll(actual: Tags, expected: Tags)
  {
    forall i :: 0 <= i < |expected| ==> HasOne(actual, expected[i])
  }

  function Get(byKey: map<string, seq<string>>, key: string): seq<string>
  {
    if key in byKey then byKey[key] else []
  }

  method IndexTags(actual: Tags) returns (actualByKey: map<string, seq<string>>)
    ensures forall k :: ValuesOf(actual, k) == Get(actualByKey, k)
  {
    hide ParseTag;
    actualByKey := map[];
    for i := 0 to |actual|
      invariant forall k :: ValuesOf(actual[..i], k) == Get(actualByKey, k)
    {
      assert actual[..i + 1][..i] == actual[..i];
      var f := ParseTag(actual[i]);
      if f.Some? {
        actualByKey := actualByKey[f.value.key := Get(actualByKey, f.value.key) + [f.value.encoded]];
      }
    }
    assert actual[..|actual|] == actual;
  }

  method ContainsAll(actual: Tags, expected: Tags) returns (r: bool)
    ensures r == HasAll(actual, expected)
  {
    hide ParseTag, ValuesOf;
    var actualByKey := IndexTags(actual);
    for i := 0 to |expected|
      invariant forall j :: 0 <= j < i ==> HasOne(actual, expected[j])
    {
      var f := ParseTag(expected[i]);
      if f.None? {
        return false;
      }
      var values := Get(actualByKey, f.value.key);
      assert values == ValuesOf(actual, f.value.key);
      if |values| != 1 || values[0] != f.value.encoded {
        return false;
      }
    }
    r := true;
  }

  // ----- lists of fields -----

  function WriteAll(fields: seq<Field>): (r: Tags)
    ensures |r| == |fields| && forall i :: 0 <= i < |r| ==> r[i] == Written(fields[i])
  {
    seq(|fields|, i requires 0 <= i < |fields| => Written(fields[i]))
  }

  predicate WellFormed(fields: seq<Field>)
  {
    (forall i :: 0 <= i < |fields| ==> GoodKey(fields[i].key)) &&
    (forall i, j :: 0 <= i < j < |fields| ==> fields[i].key != fields[j].key)
  }

  /** Matching a list of fields is matching each field. */
  lemma HasFields(actual: Tags, fields: seq<Field>)
    requires forall i :: 0 <= i < |fields| ==> GoodKey(fields[i].key)
    ensures HasAll(actual, WriteAll(fields)) <==>
            forall i :: 0 <= i < |fields| ==> ValuesOf(actual, fields[i].key) == [fields[i].encoded]
  {
    hide ParseTag, ValuesOf, GoodKey, Written;
    forall i | 0 <= i < |fields|
      ensures HasOne(actual, WriteAll(fields)[i]) <==> ValuesOf(actual, fields[i].key) == [fields[i].encoded]
    {
      ParseWritten(fields[i]);
    }
  }

  /** What a written list records under a key. */
  lemma {:induction false} WrittenValues(fields: seq<Field>, key: string)
    requires WellFormed(fields)
    ensures (forall i :: 0 <= i < |fields| ==> fields[i].key != key) ==> ValuesOf(WriteAll(fields), key) == []
    ensures forall i :: 0 <= i < |fields| && fields[i].key == key ==> ValuesOf(WriteAll(fields), key) == [fields[i].encoded]
  {
    hide ParseTag, GoodKey, Written;
    if fields != [] {
      var n := |fields| - 1;
      assert WriteAll(fields)[..n] == WriteAll(fields[..n]);
      ParseWritten(fields[n]);
      WrittenValues(fields[..n], key);
    }
  }

  /** Written tags match every part of what was written. */
  lemma WrittenMatches(fields: seq<Field>, part: seq<Field>)
    requires WellFormed(fields) && forall i :: 0 <= i < |part| ==> part[i] in fields
    ensures HasAll(WriteAll(fields), WriteAll(part))
  {
    hide ValuesOf, HasAll, GoodKey, Written;
    forall i | 0 <= i < |part| ensures ValuesOf(WriteAll(fields), part[i].key) == [part[i].encoded] && GoodKey(part[i].key) {
      WrittenValues(fields, part[i].key);
    }
    HasFields(WriteAll(fields), part);
  }

  /** Matching more fields is stronger. */
  lemma MatchesPart(actual: Tags, fields: seq<Field>, part: seq<Field>)
    requires (forall i :: 0 <= i < |fields| ==> GoodKey(fields[i].key)) && forall i :: 0 <= i < |part| ==> part[i] in fields
    requires HasAll(actual, WriteAll(fields))
    ensures HasAll(actual, WriteAll(part))
  {
    hide ValuesOf, HasAll, GoodKey, Written;
    HasFields(actual, fields);
    HasFields(actual, part);
  }

  /** Parsed tags are literally present. */
  lemma {:induction false} ValuePresent(tags: Tags, key: string, encoded: string)
    requires encoded in ValuesOf(tags, key)
    ensures Written(Field(key, encoded)) in tags
  {
    hide ParseTag, Written;
    var n := |tags| - 1;
    var f := ParseTag(tags[n]);
    if !(f.Some? && f.value == Field(key, encoded)) {
      assert encoded in ValuesOf(tags[..n], key);
      ValuePresent(tags[..n], key, encoded);
    }
  }

  // ----- the tags of an identity -----

  function RoleName(role: Role): string
  {
    match role
    case LoadBalancerRole => "loadbalancer"
    case ListenerRole => "listener"
    case FloatingIPRole => "floating-ip"
    case PoolRole => "pool"
    case MemberRole => "member"
    case MonitorRole => "health-monitor"
    case PolicyExact => "l7-policy-exact"
    case PolicyPrefix => "l7-policy-prefix"
    case RulePath => "l7-rule-path"
    case RuleHost => "l7-rule-host"
  }

  const MANAGED := Field("managed", "true")

  /** The name-scoped part by which candidates are discovered. */
  function DiscoveryFields(c: Codec, id: Identity, role: Role): seq<Field>
  {
    [MANAGED, Encoded(c, "cluster", id.cluster), Encoded(c, "controller", id.controllerName),
     Encoded(c, "namespace", id.gatewayNamespace), Encoded(c, "name", id.gatewayName), Encoded(c, "role", RoleName(role))]
  }

  function RouteDiscoveryFields(c: Codec, id: Identity, role: Role): seq<Field>
  {
    DiscoveryFields(c, id, role) +
    [Encoded(c, "route-namespace", id.routeNamespace), Encoded(c, "route-name", id.routeName)]
  }

  function GatewayFields(c: Codec, id: Identity, role: Role): seq<Field>
  {
    [MANAGED, Encoded(c, "cluster", id.cluster), Encoded(c, "controller", id.controllerName),
     Encoded(c, "namespace", id.gatewayNamespace), Encoded(c, "name", id.gatewayName), Encoded(c, "uid", id.gatewayUID),
     Encoded(c, "role", RoleName(role))] +
    if id.project == "" then [] else [Encoded(c, "project", id.project)]
  }

  function RouteFields(c: Codec, id: Identity, role: Role): seq<Field>
  {
    GatewayFields(c, id, role) +
    [Encoded(c, "route-namespace", id.routeNamespace), Encoded(c, "route-name", id.routeName),
     Encoded(c, "route-uid", id.routeUID)]
  }

  function WithVersion(c: Codec, id: Identity, fields: seq<Field>): seq<Field>
  {
    if id.controllerVersion == "" then fields else fields + [Encoded(c, "controller-version", id.controllerVersion)]
  }

  predicate LengthsOk(tags: Tags)
  {
    forall i :: 0 <= i < |tags| ==> |tags[i]| <= MAX_TAG
  }

  predicate ValidGatewayIdentity(id: Identity)
  {
    id.cluster != "" && id.controllerName != "" && id.gatewayNamespace != "" && id.gatewayName != "" && id.gatewayUID != ""
  }

  predicate ValidRouteIdentity(id: Identity)
  {
    ValidGatewayIdentity(id) && id.routeNamespace != "" && id.routeName != "" && id.routeUID != ""
  }

  predicate MatchesFields(tags: Tags, fields: seq<Field>)
  {
    LengthsOk(WriteAll(fields)) && HasAll(tags, WriteAll(fields))
  }

  predicate MatchesGateway(c: Codec, id: Identity, tags: Tags, role: Role)
  {
    MatchesFields(tags, GatewayFields(c, id, role))
  }

  predicate MatchesGatewayDiscovery(c: Codec, id: Identity, tags: Tags, role: Role)
  {
    MatchesFields(tags, DiscoveryFields(c, id, role))
  }

  predicate MatchesRoute(c: Codec, id: Identity, tags: Tags, role: Role)
  {
    ValidRouteIdentity(id) && MatchesFields(tags, RouteFields(c, id, role))
  }

  predicate MatchesRouteDiscovery(c: Codec, id: Identity, tags: Tags, role: Role)
  {
    ValidRouteIdentity(id) && MatchesFields(tags, RouteDiscoveryFields(c, id, role))
  }

  /** A tag filter in a list call: literal containment. */
  predicate Listed(tags: Tags, filter: Tags)
  {
    forall i :: 0 <= i < |filter| ==> filter[i] in tags
  }

  // ----- generated tags are well formed and fit -----

  lemma EncodedFits(c: Codec, key: string, value: string)
    requires LawfulCodec(c) && GoodKey(key)
    ensures Short(Encoded(c, key, value))
  {
  }

  /** The position of a key among the keys in use; it tells them apart. */
  function Rank(key: string): int
  {
    if key == "managed" then 0 else if key == "cluster" then 1 else if key == "controller" then 2
    else if key == "namespace" then 3 else if key == "name" then 4 else if key == "uid" then 5
    else if key == "role" then 6 else if key == "project" then 7 else if key == "route-namespace" then 8
    else if key == "route-name" then 9 else if key == "route-uid" then 10
    else if key == "controller-version" then 11 else -1
  }

  lemma KeyRanks()
    ensures Rank("managed") == 0 && Rank("cluster") == 1 && Rank("controller") == 2 && Rank("namespace") == 3
    ensures Rank("name") == 4 && Rank("uid") == 5 && Rank("role") == 6 && Rank("project") == 7
    ensures Rank("route-namespace") == 8 && Rank("route-name") == 9 && Rank("route-uid") == 10
    ensures Rank("controller-version") == 11
  {
  }

  lemma GoodKeys()
    ensures GoodKey("managed") && GoodKey("cluster") && GoodKey("controller") && GoodKey("namespace") && GoodKey("name")
    ensures GoodKey("uid") && GoodKey("role") && GoodKey("project") && GoodKey("route-namespace")
    ensures GoodKey("route-name") && GoodKey("route-uid") && GoodKey("controller-version")
  {
  }

  lemma GatewayFieldsWellFormed(c: Codec, id: Identity, role: Role)
    ensures WellFormed(WithVersion(c, id, GatewayFields(c, id, role)))
  {
    hide GoodKey, Encoded, RoleName, Rank;
    KeyRanks();
    GoodKeys();
  }

  lemma RouteFieldsWellFormed(c: Codec, id: Identity, role: Role)
    ensures WellFormed(WithVersion(c, id, RouteFields(c, id, role)))
  {
    hide GoodKey, Encoded, RoleName, Rank;
    KeyRanks();
    GoodKeys();
  }

  predicate Short(f: Field)
  {
    |Written(f)| <= MAX_TAG
  }

  predicate AllShort(fields: seq<Field>)
  {
    forall i :: 0 <= i < |fields| ==> Short(fields[i])
  }

  lemma ShortConcat(a: seq<Field>, b: seq<Field>)
    requires AllShort(a) && AllShort(b)
    ensures AllShort(a + b)
  {
    hide Short;
  }

  lemma ShortGateway(c: Codec, id: Identity, role: Role)
    requires LawfulCodec(c)
    ensures AllShort(GatewayFields(c, id, role)) && AllShort(DiscoveryFields(c, id, role))
  {
    ShortManaged();
    hide LawfulCodec, Short, RoleName, Encoded, GoodKey;
    GoodKeys();
    EncodedFits(c, "cluster", id.cluster);
    EncodedFits(c, "controller", id.controllerName);
    EncodedFits(c, "namespace", id.gatewayNamespace);
    EncodedFits(c, "name", id.gatewayName);
    EncodedFits(c, "uid", id.gatewayUID);
    EncodedFits(c, "role", RoleName(role));
    EncodedFits(c, "project", id.project);
    assert AllShort(GatewayFields(c, id, role));
    DiscoveryInGateway(c, id, role);
    hide GatewayFields, DiscoveryFields;
  }

  lemma ShortManaged()
    ensures Short(MANAGED)
  {
  }

  lemma ShortRouteParts(c: Codec, id: Identity)
    requires LawfulCodec(c)
    ensures Short(Encoded(c, "route-namespace", id.routeNamespace)) && Short(Encoded(c, "route-name", id.routeName))
    ensures Short(Encoded(c, "route-uid", id.routeUID)) && Short(Encoded(c, "controller-version", id.controllerVersion))
  {
    hide LawfulCodec, Short, Encoded, GoodKey;
    GoodKeys();
    EncodedFits(c, "route-namespace", id.routeNamespace);
    EncodedFits(c, "route-name", id.routeName);
    EncodedFits(c, "route-uid", id.routeUID);
    EncodedFits(c, "controller-version", id.controllerVersion);
  }

  /** Every generated tag, in any scope, is within the length limit. */
  lemma GeneratedTagsFit(c: Codec, id: Identity, role: Role)
    requires LawfulCodec(c)
    ensures AllShort(WithVersion(c, id, RouteFields(c, id, role))) && AllShort(WithVersion(c, id, GatewayFields(c, id, role)))
    ensures AllShort(RouteFields(c, id, role)) && AllShort(GatewayFields(c, id, role))
    ensures AllShort(DiscoveryFields(c, id, role)) && AllShort(RouteDiscoveryFields(c, id, role))
  {
    hide LawfulCodec, Short, Encoded, GatewayFields, DiscoveryFields;
    ShortGateway(c, id, role);
    ShortRouteParts(c, id);
    var ns, name := Encoded(c, "route-namespace", id.routeNamespace), Encoded(c, "route-name", id.routeName);
    var uid, version := Encoded(c, "route-uid", id.routeUID), Encoded(c, "controller-version", id.controllerVersion);
    assert AllShort([ns, name]) && AllShort([ns, name, uid]) && AllShort([version]);
    ShortConcat(DiscoveryFields(c, id, role), [ns, name]);
    ShortConcat(GatewayFields(c, id, role), [ns, name, uid]);
    ShortConcat(GatewayFields(c, id, role), [version]);
    ShortConcat(RouteFields(c, id, role), [version]);
  }

  lemma ShortIsLengthOk(fields: seq<Field>)
    requires AllShort(fields)
    ensures LengthsOk(WriteAll(fields))
  {
    hide Written;
  }

  // ----- matching laws -----

  /** Exact route match implies exact Gateway match implies discovery match, and a
      discovered load balancer is one the list call returns. */
  lemma MatchingChain(c: Codec, id: Identity, tags: Tags, role: Role)
    requires LawfulCodec(c)
    ensures MatchesRoute(c, id, tags, role) ==> MatchesGateway(c, id, tags, role) && MatchesRouteDiscovery(c, id, tags, role)
    ensures MatchesGateway(c, id, tags, role) ==> MatchesGatewayDiscovery(c, id, tags, role)
    ensures MatchesRouteDiscovery(c, id, tags, role) ==> MatchesGatewayDiscovery(c, id, tags, role)
    ensures MatchesGatewayDiscovery(c, id, tags, role) ==> Listed(tags, WriteAll(DiscoveryFields(c, id, role)))
  {
    var route, gateway := RouteFields(c, id, role), GatewayFields(c, id, role);
    var discovery, routeDiscovery := DiscoveryFields(c, id, role), RouteDiscoveryFields(c, id, role);
    GeneratedTagsFit(c, id, role);
    ShortIsLengthOk(route);
    ShortIsLengthOk(gateway);
    ShortIsLengthOk(discovery);
    ShortIsLengthOk(routeDiscovery);
    RouteFieldsGood(c, id, role);
    PartsOfFields(c, id, role);
    hide LawfulCodec, HasAll, LengthsOk, WriteAll, RouteFields, GatewayFields, DiscoveryFields, RouteDiscoveryFields,
         Listed, GoodKey, AllShort;
    if MatchesRoute(c, id, tags, role) {
      MatchesPart(tags, route, gateway);
      MatchesPart(tags, route, routeDiscovery);
    }
    if MatchesGateway(c, id, tags, role) {
      MatchesPart(tags, gateway, discovery);
    }
    if MatchesRouteDiscovery(c, id, tags, role) {
      MatchesPart(tags, routeDiscovery, discovery);
    }
    if MatchesGatewayDiscovery(c, id, tags, role) {
      MatchedIsListed(tags, discovery);
    }
  }

  lemma RouteFieldsGood(c: Codec, id: Identity, role: Role)
    ensures forall i :: 0 <= i < |RouteFields(c, id, role)| ==> GoodKey(RouteFields(c, id, role)[i].key)
    ensures forall i :: 0 <= i < |GatewayFields(c, id, role)| ==> GoodKey(GatewayFields(c, id, role)[i].key)
    ensures forall i :: 0 <= i < |RouteDiscoveryFields(c, id, role)| ==> GoodKey(RouteDiscoveryFields(c, id, role)[i].key)
    ensures forall i :: 0 <= i < |DiscoveryFields(c, id, role)| ==> GoodKey(DiscoveryFields(c, id, role)[i].key)
  {
    hide GoodKey, Encoded, RoleName;
    GoodKeys();
  }

  lemma PartsOfFields(c: Codec, id: Identity, role: Role)
    ensures forall i :: 0 <= i < |GatewayFields(c, id, role)| ==> GatewayFields(c, id, role)[i] in RouteFields(c, id, role)
    ensures forall i :: 0 <= i < |RouteDiscoveryFields(c, id, role)| ==>
              RouteDiscoveryFields(c, id, role)[i] in RouteFields(c, id, role)
    ensures forall i :: 0 <= i < |DiscoveryFields(c, id, role)| ==>
              DiscoveryFields(c, id, role)[i] in GatewayFields(c, id, role) &&
              DiscoveryFields(c, id, role)[i] in RouteDiscoveryFields(c, id, role)
  {
    hide Encoded, RoleName;
    DiscoveryInGateway(c, id, role);
    RouteNamesInRoute(c, id, role);
    hide DiscoveryFields, GatewayFields;
  }

  lemma DiscoveryInGateway(c: Codec, id: Identity, role: Role)
    ensures forall i :: 0 <= i < |DiscoveryFields(c, id, role)| ==> DiscoveryFields(c, id, role)[i] in GatewayFields(c, id, role)
  {
    hide Encoded, RoleName;
    var d, g := DiscoveryFields(c, id, role), GatewayFields(c, id, role);
    assert d[0] == g[0] && d[1] == g[1] && d[2] == g[2] && d[3] == g[3] && d[4] == g[4] && d[5] == g[6];
  }

  lemma RouteNamesInRoute(c: Codec, id: Identity, role: Role)
    ensures Encoded(c, "route-namespace", id.routeNamespace) in RouteFields(c, id, role)
    ensures Encoded(c, "route-name", id.routeName) in RouteFields(c, id, role)
  {
    hide Encoded, GatewayFields;
    var g, r := GatewayFields(c, id, role), RouteFields(c, id, role);
    assert r[|g|] == Encoded(c, "route-namespace", id.routeNamespace);
    assert r[|g| + 1] == Encoded(c, "route-name", id.routeName);
  }

  lemma MatchedIsListed(tags: Tags, fields: seq<Field>)
    requires (forall i :: 0 <= i < |fields| ==> GoodKey(fields[i].key)) && HasAll(tags, WriteAll(fields))
    ensures Listed(tags, WriteAll(fields))
  {
    hide HasAll, GoodKey, ValuesOf, Written;
    HasFields(tags, fields);
    forall i | 0 <= i < |fields| ensures WriteAll(fields)[i] in tags {
      ValuePresent(tags, fields[i].key, fields[i].encoded);
    }
  }

  /** Generated tags match their own identity and role. */
  lemma GeneratedTagsMatch(c: Codec, id: Identity, role: Role)
    requires LawfulCodec(c)
    ensures MatchesGateway(c, id, WriteAll(WithVersion(c, id, GatewayFields(c, id, role))), role)
    ensures ValidRouteIdentity(id) ==> MatchesRoute(c, id, WriteAll(WithVersion(c, id, RouteFields(c, id, role))), role)
  {
    GeneratedTagsFit(c, id, role);
    GatewayFieldsWellFormed(c, id, role);
    RouteFieldsWellFormed(c, id, role);
    var gateway, route := GatewayFields(c, id, role), RouteFields(c, id, role);
    ShortIsLengthOk(gateway);
    ShortIsLengthOk(route);
    hide LawfulCodec, HasAll, LengthsOk, WriteAll, RouteFields, GatewayFields, WellFormed, AllShort;
    WrittenMatches(WithVersion(c, id, gateway), gateway);
    WrittenMatches(WithVersion(c, id, route), route);
  }

  lemma RoleNamesDiffer(a: Role, b: Role)
    requires RoleName(a) == RoleName(b)
    ensures a == b
  {
  }

  lemma RoleFits(c: Codec, role: Role)
    requires LawfulCodec(c)
    ensures Encoded(c, "role", RoleName(role)) == Field("role", c.encode(RoleName(role)))
  {
  }

  /** Tags that match two identities in any scope name the same role. */
  lemma SameRole(c: Codec, tags: Tags, a: seq<Field>, b: seq<Field>, role: Role, other: Role)
    requires LawfulCodec(c) && MatchesFields(tags, a) && MatchesFields(tags, b)
    requires Encoded(c, "role", RoleName(role)) in a && Encoded(c, "role", RoleName(other)) in b
    requires forall i :: 0 <= i < |a| ==> GoodKey(a[i].key)
    requires forall i :: 0 <= i < |b| ==> GoodKey(b[i].key)
    ensures role == other
  {
    hide GoodKey, HasAll, ValuesOf, Encoded, RoleName;
    HasFields(tags, a);
    HasFields(tags, b);
    RoleFits(c, role);
    RoleFits(c, other);
    assert [c.encode(RoleName(role))] == ValuesOf(tags, "role") == [c.encode(RoleName(other))];
    RoleNamesDiffer(role, other);
  }

  // ----- tags determine the identity -----

  /** The Gateway part of an identity is written without digests. */
  predicate GatewayUndigested(c: Codec, id: Identity)
  {
    Fits(c, "cluster", id.cluster) && Fits(c, "controller", id.controllerName) && Fits(c, "namespace", id.gatewayNamespace) &&
    Fits(c, "name", id.gatewayName) && Fits(c, "uid", id.gatewayUID) && Fits(c, "project", id.project)
  }

  predicate RouteUndigested(c: Codec, id: Identity)
  {
    GatewayUndigested(c, id) && Fits(c, "route-namespace", id.routeNamespace) && Fits(c, "route-name", id.routeName) &&
    Fits(c, "route-uid", id.routeUID)
  }

  lemma SameField(c: Codec, tags: Tags, a: seq<Field>, b: seq<Field>, key: string, v: string, w: string)
    requires LawfulCodec(c) && MatchesFields(tags, a) && MatchesFields(tags, b)
    requires Encoded(c, key, v) in a && Encoded(c, key, w) in b && Fits(c, key, v) && Fits(c, key, w)
    requires forall i :: 0 <= i < |a| ==> GoodKey(a[i].key)
    requires forall i :: 0 <= i < |b| ==> GoodKey(b[i].key)
    ensures v == w
  {
    hide GoodKey, HasAll, ValuesOf, Fits;
    HasFields(tags, a);
    HasFields(tags, b);
    assert [c.encode(v)] == ValuesOf(tags, key) == [c.encode(w)];
  }

  lemma GatewayFieldList(c: Codec, id: Identity, role: Role)
    ensures var g := GatewayFields(c, id, role);
            Encoded(c, "cluster", id.cluster) in g && Encoded(c, "controller", id.controllerName) in g &&
            Encoded(c, "namespace", id.gatewayNamespace) in g && Encoded(c, "name", id.gatewayName) in g &&
            Encoded(c, "uid", id.gatewayUID) in g && Encoded(c, "role", RoleName(role)) in g &&
            (id.project != "" ==> Encoded(c, "project", id.project) in g)
  {
    hide Encoded, RoleName;
    var g := GatewayFields(c, id, role);
    assert g[1] == Encoded(c, "cluster", id.cluster) && g[2] == Encoded(c, "controller", id.controllerName);
    assert g[3] == Encoded(c, "namespace", id.gatewayNamespace) && g[4] == Encoded(c, "name", id.gatewayName);
    assert g[5] == Encoded(c, "uid", id.gatewayUID) && g[6] == Encoded(c, "role", RoleName(role));
    assert id.project != "" ==> g[7] == Encoded(c, "project", id.project);
  }

  predicate SameGateway(a: Identity, b: Identity)
  {
    a.cluster == b.cluster && a.controllerName == b.controllerName && a.gatewayNamespace == b.gatewayNamespace &&
    a.gatewayName == b.gatewayName && a.gatewayUID == b.gatewayUID
  }

  /** Tags match at most one undigested Gateway identity and role: two that match
      agree in every field but the version, and in the project unless one of them
      has none. */
  lemma GatewayTagsUnique(c: Codec, a: Identity, b: Identity, tags: Tags, role: Role, other: Role)
    requires LawfulCodec(c) && GatewayUndigested(c, a) && GatewayUndigested(c, b)
    requires MatchesGateway(c, a, tags, role) && MatchesGateway(c, b, tags, other)
    ensures SameGateway(a, b) && role == other
    ensures a.project == b.project || a.project == "" || b.project == ""
  {
    var fa, fb := GatewayFields(c, a, role), GatewayFields(c, b, other);
    GatewayFieldList(c, a, role);
    GatewayFieldList(c, b, other);
    RouteFieldsGood(c, a, role);
    RouteFieldsGood(c, b, other);
    hide LawfulCodec, MatchesFields, GatewayFields, Encoded, GoodKey, Fits, RoleName;
    SameField(c, tags, fa, fb, "cluster", a.cluster, b.cluster);
    SameField(c, tags, fa, fb, "controller", a.controllerName, b.controllerName);
    SameField(c, tags, fa, fb, "namespace", a.gatewayNamespace, b.gatewayNamespace);
    SameField(c, tags, fa, fb, "name", a.gatewayName, b.gatewayName);
    SameField(c, tags, fa, fb, "uid", a.gatewayUID, b.gatewayUID);
    SameRole(c, tags, fa, fb, role, other);
    if a.project != "" && b.project != "" {
      SameField(c, tags, fa, fb, "project", a.project, b.project);
    }
  }

  /** The project exception is real: an identity without a project matches the
      tags of every project. */
  lemma ProjectlessMatchesAny(c: Codec, id: Identity, role: Role)
    requires LawfulCodec(c)
    ensures MatchesGateway(c, id.(project := ""), WriteAll(WithVersion(c, id, GatewayFields(c, id, role))), role)
  {
    var bare := id.(project := "");
    GeneratedTagsMatch(c, id, role);
    GeneratedTagsFit(c, bare, role);
    ShortIsLengthOk(GatewayFields(c, bare, role));
    RouteFieldsGood(c, id, role);
    ProjectlessPart(c, id, role);
    hide LawfulCodec, HasAll, LengthsOk, GatewayFields, GoodKey, WriteAll, AllShort;
    MatchesPart(WriteAll(WithVersion(c, id, GatewayFields(c, id, role))), GatewayFields(c, id, role), GatewayFields(c, bare, role));
  }

  lemma ProjectlessPart(c: Codec, id: Identity, role: Role)
    ensures var bare := GatewayFields(c, id.(project := ""), role);
            forall i :: 0 <= i < |bare| ==> bare[i] in GatewayFields(c, id, role)
  {
    hide Encoded, RoleName;
    var bare, g := GatewayFields(c, id.(project := ""), role), GatewayFields(c, id, role);
    assert forall i :: 0 <= i < |bare| ==> bare[i] == g[i];
  }

  lemma SameGatewayFields(c: Codec, a: Identity, b: Identity, role: Role)
    requires SameGateway(a, b) && a.project == b.project
    ensures GatewayFields(c, a, role) == GatewayFields(c, b, role)
  {
    hide Encoded, RoleName;
  }

  ghost predicate ShareTags(c: Codec, a: Identity, b: Identity)
  {
    exists tags, role, other :: MatchesGateway(c, a, tags, role) && MatchesGateway(c, b, tags, other)
  }

  /** Which undigested Gateway identities tags cannot tell apart: exactly those that
      agree in every field but the version, and in the project unless one has none. */
  lemma ShareTagsIff(c: Codec, a: Identity, b: Identity)
    requires LawfulCodec(c) && GatewayUndigested(c, a) && GatewayUndigested(c, b)
    ensures ShareTags(c, a, b) <==> SameGateway(a, b) && (a.project == b.project || a.project == "" || b.project == "")
  {
    hide LawfulCodec, GatewayUndigested, MatchesFields, GatewayFields, WithVersion, WriteAll;
    if ShareTags(c, a, b) {
      var tags, role, other :| MatchesGateway(c, a, tags, role) && MatchesGateway(c, b, tags, other);
      GatewayTagsUnique(c, a, b, tags, role, other);
    }
    if SameGateway(a, b) && (a.project == b.project || a.project == "" || b.project == "") {
      // The tags written for the identity with a project, if any, match both.
      var full, bare := if a.project == "" then b else a, if a.project == "" then a else b;
      var role := LoadBalancerRole;
      var tags := WriteAll(WithVersion(c, full, GatewayFields(c, full, role)));
      GeneratedTagsMatch(c, full, role);
      ProjectlessMatchesAny(c, full, role);
      SameGatewayFields(c, bare, if bare.project == "" then full.(project := "") else full, role);
      assert MatchesGateway(c, full, tags, role) && MatchesGateway(c, bare, tags, role);
    }
  }

  lemma RouteFieldList(c: Codec, id: Identity, role: Role)
    ensures var r := RouteFields(c, id, role);
            Encoded(c, "route-namespace", id.routeNamespace) in r && Encoded(c, "route-name", id.routeName) in r &&
            Encoded(c, "route-uid", id.routeUID) in r
  {
    hide Encoded, GatewayFields;
    var g, r := GatewayFields(c, id, role), RouteFields(c, id, role);
    assert r[|g|] == Encoded(c, "route-namespace", id.routeNamespace);
    assert r[|g| + 1] == Encoded(c, "route-name", id.routeName) && r[|g| + 2] == Encoded(c, "route-uid", id.routeUID);
  }

  /** Tags match at most one undigested route identity and role. */
  lemma RouteTagsUnique(c: Codec, a: Identity, b: Identity, tags: Tags, role: Role, other: Role)
    requires LawfulCodec(c) && RouteUndigested(c, a) && RouteUndigested(c, b)
    requires MatchesRoute(c, a, tags, role) && MatchesRoute(c, b, tags, other)
    ensures SameGateway(a, b) && role == other
    ensures a.routeNamespace == b.routeNamespace && a.routeName == b.routeName && a.routeUID == b.routeUID
    ensures a.project == b.project || a.project == "" || b.project == ""
  {
    MatchingChain(c, a, tags, role);
    MatchingChain(c, b, tags, other);
    GatewayTagsUnique(c, a, b, tags, role, other);
    var fa, fb := RouteFields(c, a, role), RouteFields(c, b, other);
    RouteFieldList(c, a, role);
    RouteFieldList(c, b, other);
    RouteFieldsGood(c, a, role);
    RouteFieldsGood(c, b, other);
    hide LawfulCodec, MatchesFields, RouteFields, GatewayFields, Encoded, GoodKey, Fits;
    SameField(c, tags, fa, fb, "route-namespace", a.routeNamespace, b.routeNamespace);
    SameField(c, tags, fa, fb, "route-name", a.routeName, b.routeName);
    SameField(c, tags, fa, fb, "route-uid", a.routeUID, b.routeUID);
  }

  // ----- descriptions -----

  /** Each part preceded by its length and a colon. */
  function Joined(parts: seq<string>): string
  {
    if parts == [] then "" else Digits(|parts[0]|) + ":" + parts[0] + Joined(parts[1..])
  }

  method JoinParts(parts: seq<string>) returns (input: string)
    ensures input == Joined(parts)
  {
    input := "";
    for i := 0 to |parts|
      invariant input + Joined(parts[i..]) == Joined(parts)
    {
      assert parts[i..][0] == parts[i] && parts[i..][1..] == parts[i + 1..];
      var piece := Digits(|parts[i]|) + ":" + parts[i];
      assert input + (piece + Joined(parts[i + 1..])) == (input + piece) + Joined(parts[i + 1..]);
      input := input + piece;
    }
  }

  function Value(digits: string): int
  {
    if digits == "" then 0 else 10 * Value(digits[..|digits| - 1]) + (digits[|digits| - 1] as int - 48)
  }

  lemma {:induction false} DigitsValue(n: nat)
    ensures Value(Digits(n)) == n && ':' !in Digits(n)
  {
    var last := [(n % 10 + 48) as char];
    if n < 10 {
      assert Digits(n)[..0] == "";
    } else {
      DigitsValue(n / 10);
      assert (Digits(n / 10) + last)[..|Digits(n / 10)|] == Digits(n / 10);
    }
  }

  /** The text before the first colon is determined. */
  lemma SplitAtColon(a: string, x: string, b: string, y: string)
    requires ':' !in a && ':' !in b && a + ":" + x == b + ":" + y
    ensures a == b && x == y
  {
    var s, t := a + ":" + x, b + ":" + y;
    assert s[|a|] == ':' && t[|b|] == ':';
    assert forall i :: 0 <= i < |a| ==> s[i] == a[i];
    assert forall i :: 0 <= i < |b| ==> t[i] == b[i];
    assert |a| == |b|;
    assert s[..|a|] == a && t[..|b|] == b;
    assert s[|a| + 1..] == x && t[|b| + 1..] == y;
  }

  lemma SplitAtLength(v: string, rest: string, w: string, rest': string)
    requires v + rest == w + rest' && |v| == |w|
    ensures v == w && rest == rest'
  {
    assert (v + rest)[..|v|] == v && (w + rest')[..|w|] == w;
    assert (v + rest)[|v|..] == rest && (w + rest')[|w|..] == rest';
  }

  lemma Regroup(a: string, b: string, c: string)
    ensures a + b + c == a + (b + c)
  {
  }

  lemma FirstPart(v: string, rest: string, w: string, rest': string)
    requires Digits(|v|) + ":" + v + rest == Digits(|w|) + ":" + w + rest'
    ensures v == w && rest == rest'
  {
    hide Digits;
    var d, e := Digits(|v|), Digits(|w|);
    DigitsValue(|v|);
    DigitsValue(|w|);
    Regroup(d + ":", v, rest);
    Regroup(e + ":", w, rest');
    SplitAtColon(d, v + rest, e, w + rest');
    SplitAtLength(v, rest, w, rest');
  }

  /** The digest input is uniquely decodable. */
  lemma {:induction false} JoinedUnique(p: seq<string>, q: seq<string>)
    requires Joined(p) == Joined(q)
    ensures p == q
  {
    if p != [] && q != [] {
      FirstPart(p[0], Joined(p[1..]), q[0], Joined(q[1..]));
      JoinedUnique(p[1..], q[1..]);
      assert p == [p[0]] + p[1..] && q == [q[0]] + q[1..];
    }
  }

  function DescriptionParts(id: Identity, role: Role): seq<string>
  {
    [id.cluster, id.controllerName, id.project, id.gatewayNamespace, id.gatewayName, id.gatewayUID,
     id.routeNamespace, id.routeName, id.routeUID, RoleName(role)]
  }

  const DESCRIPTION := "gateway-api-openstack; identity-sha256="

  /** The immutable part of a description. */
  function DescriptionOf(c: Codec, id: Identity, role: Role): string
  {
    DESCRIPTION + c.hex(Joined(DescriptionParts(id, role))) + "; role=" + c.encode(RoleName(role))
  }

  function FullDescription(c: Codec, id: Identity, role: Role): string
  {
    var text := DescriptionOf(c, id, role);
    if id.controllerVersion == "" then text
    else
      var version := c.encode(id.controllerVersion);
      text + "; controller-version=" +
      (if |text| + |"; controller-version="| + |version| > MAX_TAG then "sha256-" + c.digest(id.controllerVersion) else version)
  }

  function GatewayOnly(id: Identity): Identity
  {
    id.(routeNamespace := "", routeName := "", routeUID := "")
  }

  predicate MatchesGatewayDescription(c: Codec, id: Identity, text: string, role: Role)
  {
    DescriptionOf(c, GatewayOnly(id), role) <= text
  }

  lemma DescriptionDigest(c: Codec, id: Identity, role: Role, text: string)
    requires LawfulCodec(c) && DescriptionOf(c, id, role) <= text
    ensures |text| >= |DESCRIPTION| + 64
    ensures text[|DESCRIPTION|..|DESCRIPTION| + 64] == c.hex(Joined(DescriptionParts(id, role)))
  {
    var hex := c.hex(Joined(DescriptionParts(id, role)));
    var d := DescriptionOf(c, id, role);
    assert d[|DESCRIPTION|..|DESCRIPTION| + 64] == hex;
    assert text[..|d|] == d;
    assert text[|DESCRIPTION|..|DESCRIPTION| + 64] == d[|DESCRIPTION|..|DESCRIPTION| + 64];
  }

  /** Unless their digests collide, two Gateway identities that match the same
      description are the same, in the same role. */
  lemma DescriptionUnique(c: Codec, a: Identity, b: Identity, text: string, role: Role, other: Role)
    requires LawfulCodec(c)
    requires NoCollision(c, Joined(DescriptionParts(GatewayOnly(a), role)), Joined(DescriptionParts(GatewayOnly(b), other)))
    requires MatchesGatewayDescription(c, a, text, role) && MatchesGatewayDescription(c, b, text, other)
    ensures SameGateway(a, b) && a.project == b.project && role == other
  {
    hide RoleName, Joined, DescriptionOf;
    var pa, pb := DescriptionParts(GatewayOnly(a), role), DescriptionParts(GatewayOnly(b), other);
    DescriptionDigest(c, GatewayOnly(a), role, text);
    DescriptionDigest(c, GatewayOnly(b), other, text);
    JoinedUnique(pa, pb);
    assert pa[0] == pb[0] && pa[1] == pb[1] && pa[2] == pb[2] && pa[3] == pb[3] && pa[4] == pb[4] && pa[5] == pb[5];
    assert pa[9] == pb[9];
    RoleNamesDiffer(role, other);
  }

  lemma OwnDescriptionMatches(c: Codec, id: Identity, role: Role)
    ensures MatchesGatewayDescription(c, id, FullDescription(c, GatewayOnly(id), role), role)
  {
    hide DescriptionOf;
  }

  // ----- the identity as the reconciler uses it -----

  function OwnerOf(c: Codec, id: Identity): Owner
  {
    Owner(
      (tags: Tags, role: Role) => MatchesGateway(c, id, tags, role),
      (tags: Tags, role: Role) => MatchesGatewayDiscovery(c, id, tags, role),
      (tags: Tags, role: Role) => MatchesRoute(c, id, tags, role),
      (tags: Tags, role: Role) => MatchesRouteDiscovery(c, id, tags, role),
      (tags: Tags) => Listed(tags, WriteAll(DiscoveryFields(c, id, LoadBalancerRole))),
      (text: string) => MatchesGatewayDescription(c, id, text, FloatingIPRole),
      (role: Role) => WriteAll(WithVersion(c, id, GatewayFields(c, id, role))),
      (role: Role) => WriteAll(WithVersion(c, id, RouteFields(c, id, role))),
      FullDescription(c, GatewayOnly(id), FloatingIPRole))
  }

  lemma WrongRole(c: Codec, id: Identity, role: Role, other: Role)
    requires LawfulCodec(c) && ValidRouteIdentity(id) && role != other
    ensures !MatchesRouteDiscovery(c, id, WriteAll(WithVersion(c, id, RouteFields(c, id, role))), other)
  {
    var tags := WriteAll(WithVersion(c, id, RouteFields(c, id, role)));
    if MatchesRouteDiscovery(c, id, tags, other) {
      GeneratedTagsMatch(c, id, role);
      MatchingChain(c, id, tags, role);
      DiscoveryHasRole(c, id, role);
      DiscoveryHasRole(c, id, other);
      RouteFieldsGood(c, id, role);
      RouteFieldsGood(c, id, other);
      SameRole(c, tags, RouteDiscoveryFields(c, id, role), RouteDiscoveryFields(c, id, other), role, other);
      assert false;
    }
  }

  lemma DiscoveryHasRole(c: Codec, id: Identity, role: Role)
    ensures Encoded(c, "role", RoleName(role)) in RouteDiscoveryFields(c, id, role)
  {
    hide Encoded, RoleName;
    assert RouteDiscoveryFields(c, id, role)[5] == Encoded(c, "role", RoleName(role));
  }

  /** The laws the reconciler relies on hold of every valid identity. */
  lemma GatewayOwnerLawful(c: Codec, id: Identity)
    requires LawfulCodec(c)
    ensures LawfulGatewayOwner(OwnerOf(c, id))
  {
    hide LawfulCodec, MatchesGateway, MatchesGatewayDiscovery, MatchesRoute, MatchesRouteDiscovery, Listed,
         MatchesGatewayDescription, FullDescription, WriteAll;
    var o := OwnerOf(c, id);
    forall tags, role ensures o.exactGateway(tags, role) ==> o.discoversGateway(tags, role) {
      MatchingChain(c, id, tags, role);
    }
    forall tags ensures o.exactGateway(tags, LoadBalancerRole) ==> o.listsLoadBalancer(tags) {
      MatchingChain(c, id, tags, LoadBalancerRole);
    }
    forall role ensures o.exactGateway(o.gatewayTags(role), role) {
      GeneratedTagsMatch(c, id, role);
    }
    OwnDescriptionMatches(c, id, FloatingIPRole);
  }

  lemma RouteOwnerLawful(c: Codec, id: Identity)
    requires LawfulCodec(c) && ValidRouteIdentity(id)
    ensures LawfulOwner(OwnerOf(c, id))
  {
    hide LawfulCodec, MatchesGateway, MatchesGatewayDiscovery, MatchesRoute, MatchesRouteDiscovery, Listed,
         MatchesGatewayDescription, FullDescription, WriteAll, LawfulGatewayOwner;
    GatewayOwnerLawful(c, id);
    var o := OwnerOf(c, id);
    forall tags, role ensures o.exactRoute(tags, role) ==> o.exactGateway(tags, role) && o.discoversRoute(tags, role) {
      MatchingChain(c, id, tags, role);
    }
    forall role ensures o.exactRoute(o.routeTags(role), role) {
      GeneratedTagsMatch(c, id, role);
    }
    forall role, other | role != other
      ensures !o.exactRoute(o.routeTags(role), other) && !o.discoversRoute(o.routeTags(role), other)
    {
      WrongRole(c, id, role, other);
      MatchingChain(c, id, o.routeTags(role), other);
    }
  }

  /** Two identities that differ in a Gateway field, both written without digests
      and with a project, never match the same tags. */
  lemma IdentitiesApart(c: Codec, a: Identity, b: Identity, tags: Tags, role: Role)
    requires LawfulCodec(c) && GatewayUndigested(c, a) && GatewayUndigested(c, b)
    requires a.project != "" && b.project != "" && !(SameGateway(a, b) && a.project == b.project)
    ensures !(OwnerOf(c, a).exactGateway(tags, role) && OwnerOf(c, b).exactGateway(tags, role))
  {
    hide LawfulCodec, GatewayUndigested, MatchesGateway;
    if OwnerOf(c, a).exactGateway(tags, role) && OwnerOf(c, b).exactGateway(tags, role) {
      GatewayTagsUnique(c, a, b, tags, role, role);
      assert false;
    }
  }
}
