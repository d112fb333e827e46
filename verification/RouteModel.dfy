/** The desired side of a route: members, health path, and the L7 policies and
    rules compiled from the route's path match and hostname. */
module RouteModel {
  import opened Order
  import opened Ownership
  import opened Octavia

  /** Address parsing and `address:port` formatting from Go's net/netip. */
  datatype Net = Net(parse: string -> Option<string>, join: (string, int) -> string)

  predicate Canonical(net: Net, address: string)
  {
    net.parse(address) == Some(address)
  }

  predicate PortOk(port: int)
  {
    1 <= port <= 65535
  }

  /** Canonicalisation is idempotent, and distinct canonical endpoints have
      distinct texts. */
  ghost predicate LawfulNet(net: Net)
  {
    (forall a, b :: net.parse(a) == Some(b) ==> Canonical(net, b)) &&
    (forall a, p, b, q ::
      (Canonical(net, a) && Canonical(net, b) && PortOk(p) && PortOk(q) && net.join(a, p) == net.join(b, q)) ==>
        a == b && p == q)
  }

  datatype Endpoint = Endpoint(address: string, port: int)

  datatype PathMatch = ExactMatch | PrefixMatch | OtherMatch(name: string)

  datatype RouteSpec = RouteSpec(
    gatewayLoadBalancer: Id, gatewayListener: Id,
    provider: string, vipSubnet: string, externalNetwork: Id, listenerPort: int,
    memberSubnet: string, healthPath: string, hostname: string,
    pathType: PathMatch, pathValue: string, members: seq<Endpoint>)

  datatype DesiredPolicy = DesiredPolicy(role: Role, position: int, compareType: CompareType, path: string)

  datatype DesiredRule = DesiredRule(role: Role, ruleType: RuleType, compareType: CompareType, value: string)

  datatype Desired = Desired(spec: RouteSpec, members: seq<Endpoint>, healthPath: string, policies: seq<DesiredPolicy>)

  // ----- compilation of the path match -----

  function TrimRightSlashes(s: string): (r: string)
    ensures r <= s && (r == "" || r[|r| - 1] != '/')
    ensures forall i :: |r| <= i < |s| ==> s[i] == '/'
  {
    if s != "" && s[|s| - 1] == '/' then TrimRightSlashes(s[..|s| - 1]) else s
  }

  function PoliciesFor(spec: RouteSpec): (r: seq<DesiredPolicy>)
    ensures 1 <= |r| <= 2
    ensures forall i :: 0 <= i < |r| ==> r[i].role == PolicyExact || r[i].role == PolicyPrefix
    ensures forall i, j :: 0 <= i < j < |r| ==> r[i].role != r[j].role
  {
    var path := if spec.pathValue == "" then "/" else spec.pathValue;
    if spec.pathType == ExactMatch then
      [DesiredPolicy(PolicyExact, 1, EqualTo, path)]
    else
      var trimmed := TrimRightSlashes(path);
      if trimmed == "" then
        [DesiredPolicy(PolicyPrefix, 1, StartsWith, "/")]
      else
        [DesiredPolicy(PolicyExact, 1, EqualTo, trimmed), DesiredPolicy(PolicyPrefix, 2, StartsWith, trimmed + "/")]
  }

  function RulesFor(policy: DesiredPolicy, hostname: string): (r: seq<DesiredRule>)
    ensures 1 <= |r| <= 2 && r[0].role == RulePath && (|r| == 2 ==> r[1].role == RuleHost)
  {
    [DesiredRule(RulePath, PathType, policy.compareType, policy.path)] +
    (if hostname != "" then [DesiredRule(RuleHost, HostNameType, EqualTo, hostname)] else [])
  }

  // ----- the Gateway API meaning of a path match -----

  /** The labels of a path, split at every slash. */
  function Split(s: string): (r: seq<string>)
    ensures |r| >= 1
    decreases |s|
  {
    if s == "" then [""]
    else
      var rest := Split(s[1..]);
      if s[0] == '/' then [""] + rest else [[s[0]] + rest[0]] + rest[1..]
  }

  /** The elements of a prefix: trailing slashes are ignored, so "/" has none. */
  function PrefixElements(prefix: string): seq<string>
  {
    var trimmed := TrimRightSlashes(prefix);
    if trimmed == "" then [] else Split(trimmed[1..])
  }

  /** HTTPPathMatch of Gateway API v1: Exact compares whole paths, PathPrefix
      compares path elements one by one. */
  predicate GatewayAPIPathMatch(pathType: PathMatch, value: string, path: string)
    requires path != "" && path[0] == '/'
  {
    var v := if value == "" then "/" else value;
    match pathType
    case ExactMatch => path == v
    case PrefixMatch => PrefixElements(v) <= Split(path[1..])
    case OtherMatch(_) => false
  }

  /** What an Octavia path comparison accepts. */
  predicate Compares(compareType: CompareType, value: string, actual: string)
  {
    match compareType
    case EqualTo => actual == value
    case StartsWith => value <= actual
    case OtherCompare(_) => false
  }

  predicate PolicyAccepts(policy: DesiredPolicy, path: string)
  {
    Compares(policy.compareType, policy.path, path)
  }

  lemma ConsPrefix<T>(x: T, s: seq<T>, y: T, t: seq<T>)
    ensures [x] + s <= [y] + t <==> x == y && s <= t
  {
    var a, b := [x] + s, [y] + t;
    if a <= b {
      assert a == b[..|a|] && a[0] == b[0];
      assert s == a[1..] == b[1..|a|] == t[..|s|];
    }
    if x == y && s <= t {
      assert b == a + t[|s|..];
    }
  }

  lemma SplitCons(u: string, w: string)
    requires u != "" && w != ""
    ensures Split(u) <= Split(w) <==> u[0] == w[0] && Split(u[1..]) <= Split(w[1..])
  {
    var su, sw := Split(u[1..]), Split(w[1..]);
    if u[0] == w[0] == '/' {
      ConsPrefix("", su, "", sw);
    } else if u[0] == w[0] {
      var a, b := [u[0]] + su[0], [w[0]] + sw[0];
      ConsPrefix(a, su[1..], b, sw[1..]);
      ConsPrefix(su[0], su[1..], sw[0], sw[1..]);
      assert su == [su[0]] + su[1..] && sw == [sw[0]] + sw[1..];
      assert a == b <==> su[0] == sw[0] by {
        assert a[1..] == su[0] && b[1..] == sw[0];
      }
    } else {
      // Either exactly one side starts a new label, or the first labels begin
      // with different characters.
      var a, b := Split(u)[0], Split(w)[0];
      assert u[0] != '/' ==> a != "" && a[0] == u[0];
      assert w[0] != '/' ==> b != "" && b[0] == w[0];
      assert a != b;
    }
  }

  /** The labels of `u` begin those of `w` exactly when `w` is `u` or continues
      it after a slash. */
  lemma {:induction false} SplitPrefix(u: string, w: string)
    ensures Split(u) <= Split(w) <==> w == u || u + "/" <= w
    decreases |u| + |w|
  {
    if u == "" {
      if w != "" {
        ConsPrefix('/', "", w[0], w[1..]);
        assert w == [w[0]] + w[1..] && u + "/" == ['/'] + "";
        assert Split(u) == [""];
        assert Split(u) <= Split(w) <==> Split(w)[0] == "";
        assert w[0] != '/' ==> Split(w)[0][0] == w[0];
      }
    } else if w == "" {
      assert Split(w) == [""];
      assert u[0] != '/' ==> Split(u)[0][0] == u[0];
    } else {
      SplitPrefix(u[1..], w[1..]);
      SplitCons(u, w);
      assert u == [u[0]] + u[1..] && w == [w[0]] + w[1..];
      assert u + "/" == [u[0]] + (u[1..] + "/");
      ConsPrefix(u[0], u[1..] + "/", w[0], w[1..]);
    }
  }

  /** Some compiled policy accepts an absolute path exactly when the Gateway
      API definition of the route's path match does. */
  lemma PathCompilation(spec: RouteSpec, path: string)
    requires !spec.pathType.OtherMatch?
    requires spec.pathValue == "" || spec.pathValue[0] == '/'
    requires path != "" && path[0] == '/'
    ensures (exists i :: 0 <= i < |PoliciesFor(spec)| && PolicyAccepts(PoliciesFor(spec)[i], path))
            <==> GatewayAPIPathMatch(spec.pathType, spec.pathValue, path)
  {
    var value := if spec.pathValue == "" then "/" else spec.pathValue;
    var ps := PoliciesFor(spec);
    if spec.pathType == ExactMatch {
      assert PolicyAccepts(ps[0], path) <==> path == value;
    } else {
      var trimmed := TrimRightSlashes(value);
      if trimmed == "" {
        assert PolicyAccepts(ps[0], path);
      } else {
        var u, w := trimmed[1..], path[1..];
        assert trimmed == "/" + u && path == "/" + w;
        SplitPrefix(u, w);
        assert PolicyAccepts(ps[0], path) <==> w == u;
        assert trimmed + "/" == ['/'] + (u + "/") && path == ['/'] + w;
        ConsPrefix('/', u + "/", '/', w);
        assert PolicyAccepts(ps[1], path) <==> u + "/" <= w;
      }
    }
  }

  /** At most one policy of a route accepts a given path. */
  lemma PoliciesDisjoint(spec: RouteSpec, path: string, i: int, j: int)
    requires 0 <= i < j < |PoliciesFor(spec)|
    ensures !(PolicyAccepts(PoliciesFor(spec)[i], path) && PolicyAccepts(PoliciesFor(spec)[j], path))
  {
  }

  /** A prefix never leaks into a longer label: appending more characters to the
      last label of a prefix gives a path the route does not match. */
  lemma PrefixStopsAtLabel(spec: RouteSpec, suffix: string)
    requires spec.pathType == PrefixMatch
    requires spec.pathValue != "" && spec.pathValue[0] == '/' && TrimRightSlashes(spec.pathValue) != ""
    requires suffix != "" && suffix[0] != '/'
    ensures !GatewayAPIPathMatch(PrefixMatch, spec.pathValue, TrimRightSlashes(spec.pathValue) + suffix)
    ensures forall i :: 0 <= i < |PoliciesFor(spec)| ==>
              !PolicyAccepts(PoliciesFor(spec)[i], TrimRightSlashes(spec.pathValue) + suffix)
  {
    var t := TrimRightSlashes(spec.pathValue);
    var path := t + suffix;
    assert path[|t|] == suffix[0] && (t + "/")[|t|] == '/';
    PathCompilation(spec, path);
  }

  // ----- building the desired route -----

  function KeyOf(net: Net, e: Endpoint): string
  {
    net.join(e.address, e.port)
  }

  /** Members indexed by `address:port`; a later duplicate replaces an earlier one. */
  function ByKey(net: Net, members: seq<Endpoint>): map<string, Endpoint>
  {
    if members == [] then map[]
    else
      var last := members[|members| - 1];
      ByKey(net, members[..|members| - 1])[KeyOf(net, last) := last]
  }

  lemma {:induction false} ByKeyElements(net: Net, members: seq<Endpoint>)
    ensures forall k :: k in ByKey(net, members) ==>
              ByKey(net, members)[k] in members && KeyOf(net, ByKey(net, members)[k]) == k
    ensures forall i :: 0 <= i < |members| ==> KeyOf(net, members[i]) in ByKey(net, members)
  {
    if members != [] {
      ByKeyElements(net, members[..|members| - 1]);
    }
  }

  predicate EndpointsOk(net: Net, members: seq<Endpoint>)
  {
    forall i :: 0 <= i < |members| ==> PortOk(members[i].port) && net.parse(members[i].address).Some?
  }

  function Canonicalised(net: Net, members: seq<Endpoint>): (r: seq<Endpoint>)
    requires EndpointsOk(net, members)
    ensures |r| == |members|
    ensures forall i :: 0 <= i < |r| ==> r[i] == Endpoint(net.parse(members[i].address).value, members[i].port)
  {
    seq(|members|, i requires 0 <= i < |members| => Endpoint(net.parse(members[i].address).value, members[i].port))
  }

  function Values(byKey: map<string, Endpoint>, keys: seq<string>): (r: seq<Endpoint>)
    requires forall i :: 0 <= i < |keys| ==> keys[i] in byKey
    ensures |r| == |keys| && forall i :: 0 <= i < |r| ==> r[i] == byKey[keys[i]]
  {
    seq(|keys|, i requires 0 <= i < |keys| => byKey[keys[i]])
  }

  /** Unicode white space. */
  predicate IsSpace(c: char)
  {
    var n := c as int;
    9 <= n <= 13 || n in {0x20, 0x85, 0xA0, 0x1680, 0x2028, 0x2029, 0x202F, 0x205F, 0x3000} || 0x2000 <= n <= 0x200A
  }

  /** strings.TrimSpace(s) == "". */
  predicate Blank(s: string)
  {
    forall i :: 0 <= i < |s| ==> IsSpace(s[i])
  }

  predicate SpecOk(net: Net, spec: RouteSpec)
  {
    !Blank(spec.provider) && !Blank(spec.vipSubnet) && PortOk(spec.listenerPort) && spec.members != [] &&
    !Blank(spec.memberSubnet) && !spec.pathType.OtherMatch? && EndpointsOk(net, spec.members) &&
    (spec.healthPath == "" || spec.healthPath[0] == '/')
  }

  /** The desired route, or None when the specification is invalid. */
  ghost function DesiredFor(net: Net, spec: RouteSpec): (r: Option<Desired>)
  {
    if !SpecOk(net, spec) then None
    else
      var byKey := ByKey(net, Canonicalised(net, spec.members));
      var keys := SortedIds(byKey.Keys);
      Some(Desired(spec, Values(byKey, keys), if spec.healthPath == "" then "/" else spec.healthPath, PoliciesFor(spec)))
  }

  /** What planning relies on: members are canonical and pairwise distinct, there
      is at least one, and the policies are the compiled ones. */
  ghost predicate DesiredOk(net: Net, d: Desired)
  {
    d.members != [] &&
    (forall i :: 0 <= i < |d.members| ==> Canonical(net, d.members[i].address) && PortOk(d.members[i].port)) &&
    (forall i, j :: 0 <= i < j < |d.members| ==> KeyOf(net, d.members[i]) != KeyOf(net, d.members[j])) &&
    d.policies == PoliciesFor(d.spec) && !d.spec.pathType.OtherMatch?
  }

  lemma ByKeyValues(net: Net, all: seq<Endpoint>)
    requires forall e, f :: e in all && f in all && KeyOf(net, e) == KeyOf(net, f) ==> e == f
    ensures var members := Values(ByKey(net, all), SortedIds(ByKey(net, all).Keys));
            (forall e :: e in members <==> e in all) &&
            (forall i, j :: 0 <= i < j < |members| ==> KeyOf(net, members[i]) != KeyOf(net, members[j]))
  {
    var byKey := ByKey(net, all);
    ByKeyElements(net, all);
    var keys := SortedIds(byKey.Keys);
    var members := Values(byKey, keys);
    forall e | e in all ensures e in members {
      var i :| 0 <= i < |keys| && keys[i] == KeyOf(net, e);
      assert members[i] == byKey[keys[i]] == e;
    }
    forall i | 0 <= i < |keys| ensures members[i] in all && KeyOf(net, members[i]) == keys[i] {
      assert keys[i] in byKey;
    }
  }

  lemma CanonicalisedDistinct(net: Net, members: seq<Endpoint>)
    requires LawfulNet(net) && EndpointsOk(net, members)
    ensures var all := Canonicalised(net, members);
            (forall e :: e in all ==> Canonical(net, e.address) && PortOk(e.port)) &&
            (forall e, f :: e in all && f in all && KeyOf(net, e) == KeyOf(net, f) ==> e == f)
  {
    var all := Canonicalised(net, members);
    forall e | e in all ensures Canonical(net, e.address) && PortOk(e.port) {
      var i :| 0 <= i < |all| && all[i] == e;
      assert net.parse(members[i].address) == Some(e.address);
    }
  }

  /** Building the desired route canonicalises and deduplicates the members and
      loses no endpoint. */
  lemma DesiredForOk(net: Net, spec: RouteSpec, d: Desired)
    requires LawfulNet(net) && DesiredFor(net, spec) == Some(d)
    ensures DesiredOk(net, d) && d.spec == spec
    ensures d.healthPath == (if spec.healthPath == "" then "/" else spec.healthPath)
    ensures forall e :: e in d.members <==> e in Canonicalised(net, spec.members)
  {
    var all := Canonicalised(net, spec.members);
    CanonicalisedDistinct(net, spec.members);
    ByKeyValues(net, all);
    assert all[0] in all;
    assert forall i :: 0 <= i < |d.members| ==> d.members[i] in all;
  }

  method IndexMembers(net: Net, members: seq<Endpoint>) returns (r: Option<map<string, Endpoint>>)
    ensures r.Some? <==> EndpointsOk(net, members)
    ensures r.Some? ==> r.value == ByKey(net, Canonicalised(net, members))
  {
    var membersByKey: map<string, Endpoint> := map[];
    ghost var done: seq<Endpoint> := [];
    for i := 0 to |members|
      invariant |done| == i
      invariant forall j :: 0 <= j < i ==> PortOk(members[j].port) && net.parse(members[j].address).Some?
      invariant forall j :: 0 <= j < i ==> done[j] == Endpoint(net.parse(members[j].address).value, members[j].port)
      invariant membersByKey == ByKey(net, done)
    {
      var member := members[i];
      if !PortOk(member.port) {
        return None;
      }
      var address := net.parse(member.address);
      if address.None? {
        return None;
      }
      member := member.(address := address.value);
      membersByKey := membersByKey[KeyOf(net, member) := member];
      assert (done + [member])[..i] == done;
      done := done + [member];
    }
    assert done == Canonicalised(net, members);
    r := Some(membersByKey);
  }

  method BuildDesiredRoute(net: Net, spec: RouteSpec) returns (r: Option<Desired>)
    ensures r == DesiredFor(net, spec)
  {
    if Blank(spec.provider) || Blank(spec.vipSubnet) || !PortOk(spec.listenerPort) {
      return None;
    }
    if spec.members == [] || Blank(spec.memberSubnet) || spec.pathType.OtherMatch? {
      return None;
    }
    var membersByKey := IndexMembers(net, spec.members);
    if membersByKey.None? {
      return None;
    }
    var keys := ListSorted(IdKeys(membersByKey.value.Keys));
    assert Ids(keys) == SortedIds(membersByKey.value.Keys);
    var healthPath := if spec.healthPath == "" then "/" else spec.healthPath;
    if healthPath[0] != '/' {
      return None;
    }
    r := Some(Desired(spec, Values(membersByKey.value, Ids(keys)), healthPath, PoliciesFor(spec)));
  }
}
