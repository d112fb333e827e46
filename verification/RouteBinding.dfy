/** The durable binding of an HTTPRoute to a Gateway: annotations that name the
    Gateway, anchored by a finalizer that carries their digest. */
module RouteBinding {
  import opened Kube
  import opened OwnershipTags

  /** The metadata of a route that the binding lives in. */
  datatype RouteMeta = RouteMeta(
    namespace: string, name: string, uid: string, annotations: Annotations, finalizers: seq<string>)

  /** The Gateway a route is bound to. */
  datatype Target = Target(namespace: string, name: string, uid: string)

  const NUL: char := 0 as char

  function BindingInput(config: Config, t: Target): string
  {
    config.cluster + [NUL] + config.project + [NUL] + (t.namespace + [NUL] + (t.name + [NUL] + t.uid))
  }

  function BindingFinalizer(config: Config, t: Target): (r: string)
    ensures config.BindingFinalizerPrefix() <= r
  {
    config.BindingFinalizerPrefix() + config.digest(BindingInput(config, t))
  }

  predicate IsBindingFinalizer(config: Config, f: string)
  {
    config.BindingFinalizerPrefix() <= f
  }

  predicate HasBindingFinalizer(config: Config, finalizers: seq<string>)
  {
    exists i :: 0 <= i < |finalizers| && IsBindingFinalizer(config, finalizers[i])
  }

  function RouteIdentity(config: Config, t: Target, namespace: string, name: string, uid: string): Identity
  {
    GatewayIdentity(config, t.namespace, t.name, t.uid).(routeNamespace := namespace, routeName := name, routeUID := uid)
  }

  // ----- reading -----

  datatype Reading = NotBound | BoundTo(identity: Identity) | Unreadable

  function StoredTarget(config: Config, a: Annotations): Target
  {
    Target(Stored(a, config.RouteNamespaceKey()), Stored(a, config.RouteNameKey()), Stored(a, config.RouteUIDKey()))
  }

  /** An annotation that is absent stands for the configured value. */
  predicate MatchesConfig(stored: string, configured: string)
  {
    stored == "" || stored == configured
  }

  /** No binding finalizer other than the expected one. */
  predicate OnlyBinding(config: Config, finalizers: seq<string>, expected: string)
  {
    forall i :: 0 <= i < |finalizers| && IsBindingFinalizer(config, finalizers[i]) ==> finalizers[i] == expected
  }

  function StoredIdentity(config: Config, route: RouteMeta): Reading
  {
    var t := StoredTarget(config, route.annotations);
    var cluster := Stored(route.annotations, config.RouteClusterKey());
    var project := Stored(route.annotations, config.RouteProjectKey());
    if t.namespace == "" && t.name == "" && t.uid == "" then
      (if cluster != "" || project != "" || HasBindingFinalizer(config, route.finalizers) then Unreadable else NotBound)
    else if t.namespace == "" || t.name == "" || t.uid == "" then Unreadable
    else if !MatchesConfig(cluster, config.cluster) || !MatchesConfig(project, config.project) then Unreadable
    else
      var identity := RouteIdentity(config, t, route.namespace, route.name, route.uid);
      if !ValidRouteIdentity(identity) then Unreadable
      else if config.RouteFinalizer() in route.finalizers && BindingFinalizer(config, t) !in route.finalizers then Unreadable
      else if !OnlyBinding(config, route.finalizers, BindingFinalizer(config, t)) then Unreadable
      else BoundTo(identity)
  }

  method ReadStoredIdentity(config: Config, route: RouteMeta) returns (r: Reading)
    ensures r == StoredIdentity(config, route)
  {
    hide BindingFinalizer, IsBindingFinalizer, ValidRouteIdentity, RouteIdentity;
    var t := StoredTarget(config, route.annotations);
    var values := [t.namespace, t.name, t.uid];
    var empty := 0;
    for i := 0 to |values|
      invariant 0 <= empty <= i
      invariant empty == i <==> forall j :: 0 <= j < i ==> values[j] == ""
      invariant empty == 0 <==> forall j :: 0 <= j < i ==> values[j] != ""
    {
      if values[i] == "" {
        empty := empty + 1;
      }
    }
    assert values[0] == t.namespace && values[1] == t.name && values[2] == t.uid;
    var cluster := Stored(route.annotations, config.RouteClusterKey());
    var project := Stored(route.annotations, config.RouteProjectKey());
    if empty == |values| {
      var anchored := AnyBindingFinalizer(config, route.finalizers);
      return if cluster != "" || project != "" || anchored then Unreadable else NotBound;
    }
    if empty != 0 {
      return Unreadable;
    }
    if !MatchesConfig(cluster, config.cluster) || !MatchesConfig(project, config.project) {
      return Unreadable;
    }
    var identity := RouteIdentity(config, t, route.namespace, route.name, route.uid);
    if !ValidRouteIdentity(identity) {
      return Unreadable;
    }
    var expected := BindingFinalizer(config, t);
    if config.RouteFinalizer() in route.finalizers && expected !in route.finalizers {
      return Unreadable;
    }
    for i := 0 to |route.finalizers|
      invariant forall j :: 0 <= j < i && IsBindingFinalizer(config, route.finalizers[j]) ==> route.finalizers[j] == expected
    {
      if IsBindingFinalizer(config, route.finalizers[i]) && route.finalizers[i] != expected {
        return Unreadable;
      }
    }
    r := BoundTo(identity);
  }

  method AnyBindingFinalizer(config: Config, finalizers: seq<string>) returns (r: bool)
    ensures r == HasBindingFinalizer(config, finalizers)
  {
    for i := 0 to |finalizers|
      invariant forall j :: 0 <= j < i ==> !IsBindingFinalizer(config, finalizers[j])
    {
      if IsBindingFinalizer(config, finalizers[i]) {
        return true;
      }
    }
    r := false;
  }

  // ----- writing -----

  /** Binding finalizers other than the expected one go. */
  function KeepExpected(config: Config, finalizers: seq<string>, expected: string): (r: seq<string>)
    ensures forall f :: f in r <==> f in finalizers && (IsBindingFinalizer(config, f) ==> f == expected)
  {
    if finalizers == [] then []
    else
      (if IsBindingFinalizer(config, finalizers[0]) && finalizers[0] != expected then [] else [finalizers[0]]) +
      KeepExpected(config, finalizers[1..], expected)
  }

  function NoBinding(config: Config, finalizers: seq<string>): (r: seq<string>)
    ensures forall f :: f in r <==> f in finalizers && !IsBindingFinalizer(config, f)
  {
    if finalizers == [] then []
    else (if IsBindingFinalizer(config, finalizers[0]) then [] else [finalizers[0]]) + NoBinding(config, finalizers[1..])
  }

  function Applied(config: Config, route: RouteMeta, t: Target): RouteMeta
  {
    var expected := BindingFinalizer(config, t);
    route.(
      annotations := (route.annotations[config.RouteNamespaceKey() := t.namespace][config.RouteNameKey() := t.name]
                        [config.RouteUIDKey() := t.uid][config.RouteClusterKey() := config.cluster]
                        [config.RouteProjectKey() := config.project]) - {config.RouteFailureKey()},
      finalizers := AddFinalizer(AddFinalizer(KeepExpected(config, route.finalizers, expected), expected), config.RouteFinalizer()))
  }

  /** The annotations the binding owns. */
  function RouteKeys(config: Config): set<string>
  {
    {config.RouteNamespaceKey(), config.RouteNameKey(), config.RouteUIDKey(), config.RouteClusterKey(),
     config.RouteProjectKey(), config.RouteFailureKey()}
  }

  function Cleared(config: Config, route: RouteMeta): RouteMeta
  {
    route.(
      annotations := route.annotations - RouteKeys(config),
      finalizers := NoBinding(config, Without(route.finalizers, config.RouteFinalizer())))
  }

  lemma Rejoin(a: seq<string>, b: seq<string>, c: seq<string>)
    ensures a + b + c == a + (b + c)
  {
  }

  /** A route object whose metadata the controller edits in place. */
  class RouteObject {
    const namespace: string
    const name: string
    const uid: string
    var annotations: Annotations
    var finalizers: seq<string>

    constructor (meta: RouteMeta)
      ensures Meta() == meta
    {
      namespace, name, uid, annotations, finalizers := meta.namespace, meta.name, meta.uid, meta.annotations, meta.finalizers;
    }

    function Meta(): RouteMeta
      reads this
    {
      RouteMeta(namespace, name, uid, annotations, finalizers)
    }

    method RemoveStaleBindingFinalizers(config: Config, expected: string)
      modifies this`finalizers
      ensures finalizers == KeepExpected(config, old(finalizers), expected)
    {
      hide IsBindingFinalizer;
      var all, kept: seq<string> := finalizers, [];
      for i := 0 to |all|
        invariant kept + KeepExpected(config, all[i..], expected) == KeepExpected(config, all, expected)
      {
        assert all[i..][0] == all[i] && all[i..][1..] == all[i + 1..];
        var step := if IsBindingFinalizer(config, all[i]) && all[i] != expected then [] else [all[i]];
        Rejoin(kept, step, KeepExpected(config, all[i + 1..], expected));
        kept := kept + step;
      }
      finalizers := kept;
    }

    method ApplyBinding(config: Config, t: Target)
      modifies this
      ensures Meta() == Applied(config, old(Meta()), t)
    {
      annotations := annotations[config.RouteNamespaceKey() := t.namespace];
      annotations := annotations[config.RouteNameKey() := t.name];
      annotations := annotations[config.RouteUIDKey() := t.uid];
      annotations := annotations[config.RouteClusterKey() := config.cluster];
      annotations := annotations[config.RouteProjectKey() := config.project];
      annotations := annotations - {config.RouteFailureKey()};
      var expected := BindingFinalizer(config, t);
      RemoveStaleBindingFinalizers(config, expected);
      finalizers := AddFinalizer(finalizers, expected);
      finalizers := AddFinalizer(finalizers, config.RouteFinalizer());
    }

    /** Visits a copy of the list and removes each binding finalizer it meets. */
    method RemoveBindingFinalizers(config: Config)
      modifies this`finalizers
      ensures finalizers == NoBinding(config, old(finalizers))
    {
      hide IsBindingFinalizer, NoBinding, Without;
      var all, kept := finalizers, finalizers;
      for i := 0 to |all|
        invariant NoBinding(config, kept) == NoBinding(config, all)
        invariant forall f :: f in kept ==> f in all && (IsBindingFinalizer(config, f) ==> f in all[i..])
      {
        if IsBindingFinalizer(config, all[i]) {
          RemovalKeepsOthers(config, kept, all[i]);
          kept := Without(kept, all[i]);
        }
        assert all[i..] == [all[i]] + all[i + 1..];
      }
      NothingToRemove(config, kept);
      finalizers := kept;
    }

    /** Afterwards the route reads as not bound, whatever it carried before, and
        everything the controller does not own is as it was. */
    method ClearBinding(config: Config)
      modifies this
      ensures StoredIdentity(config, Meta()) == NotBound && config.RouteFinalizer() !in finalizers
      ensures finalizers == NoBinding(config, Without(old(finalizers), config.RouteFinalizer()))
      ensures forall k :: k !in RouteKeys(config) ==> Stored(annotations, k) == Stored(old(annotations), k)
      ensures Meta() == Cleared(config, old(Meta()))
    {
      hide NoBinding, Without, StoredIdentity;
      finalizers := Without(finalizers, config.RouteFinalizer());
      RemoveBindingFinalizers(config);
      annotations := annotations - {config.RouteNamespaceKey()};
      annotations := annotations - {config.RouteNameKey()};
      annotations := annotations - {config.RouteUIDKey()};
      annotations := annotations - {config.RouteClusterKey()};
      annotations := annotations - {config.RouteProjectKey()};
      annotations := annotations - {config.RouteFailureKey()};
      SixRemoved(config, old(annotations));
      ClearThenRead(config, old(Meta()));
    }
  }

  lemma SixRemoved(config: Config, a: Annotations)
    ensures a - {config.RouteNamespaceKey()} - {config.RouteNameKey()} - {config.RouteUIDKey()} - {config.RouteClusterKey()} -
            {config.RouteProjectKey()} - {config.RouteFailureKey()} == a - RouteKeys(config)
  {
  }

  /** Taking a binding finalizer out does not change which others are kept. */
  lemma {:induction false} RemovalKeepsOthers(config: Config, finalizers: seq<string>, f: string)
    requires IsBindingFinalizer(config, f)
    ensures NoBinding(config, Without(finalizers, f)) == NoBinding(config, finalizers)
  {
    hide IsBindingFinalizer;
    if finalizers != [] {
      RemovalKeepsOthers(config, finalizers[1..], f);
      var rest := Without(finalizers[1..], f);
      if finalizers[0] == f {
        assert Without(finalizers, f) == rest;
        assert NoBinding(config, finalizers) == NoBinding(config, finalizers[1..]);
      } else {
        assert Without(finalizers, f)[0] == finalizers[0] && Without(finalizers, f)[1..] == rest;
      }
    }
  }

  lemma {:induction false} NothingToRemove(config: Config, finalizers: seq<string>)
    requires forall f :: f in finalizers ==> !IsBindingFinalizer(config, f)
    ensures NoBinding(config, finalizers) == finalizers
  {
    hide IsBindingFinalizer;
    if finalizers != [] {
      NothingToRemove(config, finalizers[1..]);
      assert finalizers == [finalizers[0]] + finalizers[1..];
    }
  }

  // ----- round trip -----

  /** The objects and the configuration have the names the API server and the
      configuration check guarantee. */
  predicate Named(config: Config, route: RouteMeta, t: Target)
  {
    config.cluster != "" && config.controllerName != "" && t.namespace != "" && t.name != "" && t.uid != "" &&
    route.namespace != "" && route.name != "" && route.uid != ""
  }

  lemma AppliedAnnotations(config: Config, route: RouteMeta, t: Target)
    ensures var a := Applied(config, route, t).annotations;
            StoredTarget(config, a) == t && Stored(a, config.RouteClusterKey()) == config.cluster &&
            Stored(a, config.RouteProjectKey()) == config.project
  {
    hide BindingFinalizer, KeepExpected;
    RouteKeysDiffer(config);
  }

  lemma AppliedFinalizers(config: Config, route: RouteMeta, t: Target)
    ensures var fs := Applied(config, route, t).finalizers;
            config.RouteFinalizer() in fs && BindingFinalizer(config, t) in fs &&
            forall f :: f in fs && IsBindingFinalizer(config, f) ==> f == BindingFinalizer(config, t)
  {
    RouteFinalizerIsNotBinding(config);
  }

  /** Applying a binding and reading it back gives the route's identity. */
  lemma ApplyThenRead(config: Config, route: RouteMeta, t: Target)
    requires Named(config, route, t)
    ensures StoredIdentity(config, Applied(config, route, t)) ==
            BoundTo(RouteIdentity(config, t, route.namespace, route.name, route.uid))
  {
    hide Applied, BindingFinalizer, IsBindingFinalizer;
    AppliedAnnotations(config, route, t);
    AppliedFinalizers(config, route, t);
    AppliedKeepsNames(config, route, t);
  }

  lemma AppliedKeepsNames(config: Config, route: RouteMeta, t: Target)
    ensures var r := Applied(config, route, t); r.namespace == route.namespace && r.name == route.name && r.uid == route.uid
  {
  }

  lemma {:induction false} KeepAll(config: Config, finalizers: seq<string>, expected: string)
    requires forall f :: f in finalizers && IsBindingFinalizer(config, f) ==> f == expected
    ensures KeepExpected(config, finalizers, expected) == finalizers
  {
    hide IsBindingFinalizer;
    if finalizers != [] {
      KeepAll(config, finalizers[1..], expected);
      assert finalizers == [finalizers[0]] + finalizers[1..];
    }
  }

  /** Applying the same binding again changes nothing. */
  lemma ApplyIdempotent(config: Config, route: RouteMeta, t: Target)
    ensures Applied(config, Applied(config, route, t), t) == Applied(config, route, t)
  {
    var once := Applied(config, route, t);
    AppliedFinalizers(config, route, t);
    KeepAll(config, once.finalizers, BindingFinalizer(config, t));
    RouteKeysDiffer(config);
    assert Applied(config, once, t).annotations == once.annotations by {
      SameAnnotations(config, route, t);
    }
  }

  lemma SameAnnotations(config: Config, route: RouteMeta, t: Target)
    ensures var once := Applied(config, route, t); Applied(config, once, t).annotations == once.annotations
  {
    hide BindingFinalizer, KeepExpected;
    RouteKeysDiffer(config);
    AppliedAnnotations(config, route, t);
  }

  /** Clearing leaves nothing to read. */
  lemma ClearThenRead(config: Config, route: RouteMeta)
    ensures StoredIdentity(config, Cleared(config, route)) == NotBound
  {
  }

  // ----- tamper evidence -----

  function CountNul(s: string): nat
  {
    if s == "" then 0 else (if s[0] == NUL then 1 else 0) + CountNul(s[1..])
  }

  lemma {:induction false} CountConcat(a: string, b: string)
    ensures CountNul(a + b) == CountNul(a) + CountNul(b)
  {
    if a == "" {
      assert a + b == b;
    } else {
      assert (a + b)[1..] == a[1..] + b;
      CountConcat(a[1..], b);
    }
  }

  lemma {:induction false} CountZero(s: string)
    ensures CountNul(s) == 0 <==> NUL !in s
  {
    if s != "" {
      CountZero(s[1..]);
      assert NUL in s <==> s[0] == NUL || NUL in s[1..];
    }
  }

  lemma SplitAtNul(a: string, x: string, b: string, y: string)
    requires NUL !in a && NUL !in b && a + [NUL] + x == b + [NUL] + y
    ensures a == b && x == y
  {
    var s, t := a + [NUL] + x, b + [NUL] + y;
    assert s[|a|] == NUL && t[|b|] == NUL;
    assert forall i :: 0 <= i < |a| ==> s[i] == a[i];
    assert forall i :: 0 <= i < |b| ==> t[i] == b[i];
    assert |a| == |b|;
    assert s[..|a|] == a && t[..|b|] == b;
    assert s[|a| + 1..] == x && t[|b| + 1..] == y;
  }

  predicate NulFree(t: Target)
  {
    NUL !in t.namespace && NUL !in t.name && NUL !in t.uid
  }

  function Tail(t: Target): string
  {
    t.namespace + [NUL] + (t.name + [NUL] + t.uid)
  }

  lemma CountTail(t: Target)
    ensures CountNul(Tail(t)) == CountNul(t.namespace) + CountNul(t.name) + CountNul(t.uid) + 2
  {
    CountConcat(t.namespace + [NUL], t.name + [NUL] + t.uid);
    CountConcat(t.namespace, [NUL]);
    CountConcat(t.name + [NUL], t.uid);
    CountConcat(t.name, [NUL]);
  }

  /** The digest input of a NUL-free target belongs to no other target. */
  lemma BindingInputUnique(config: Config, t: Target, u: Target)
    requires NulFree(t) && BindingInput(config, t) == BindingInput(config, u)
    ensures t == u
  {
    var head := config.cluster + [NUL] + config.project + [NUL];
    CancelPrefix(head, Tail(t), Tail(u));
    CountTail(t);
    CountTail(u);
    CountZero(t.namespace);
    CountZero(t.name);
    CountZero(t.uid);
    CountZero(u.namespace);
    CountZero(u.name);
    CountZero(u.uid);
    SplitAtNul(t.namespace, t.name + [NUL] + t.uid, u.namespace, u.name + [NUL] + u.uid);
    SplitAtNul(t.name, t.uid, u.name, u.uid);
  }

  lemma BindingFinalizerUnique(config: Config, t: Target, u: Target)
    requires NulFree(t) && BindingFinalizer(config, t) == BindingFinalizer(config, u)
    requires config.digest(BindingInput(config, t)) == config.digest(BindingInput(config, u)) ==>
               BindingInput(config, t) == BindingInput(config, u)
    ensures t == u
  {
    hide BindingInput;
    CancelPrefix(config.BindingFinalizerPrefix(), config.digest(BindingInput(config, t)), config.digest(BindingInput(config, u)));
    BindingInputUnique(config, t, u);
  }

  /** Tamper evidence: after a binding is applied, whatever happens to the
      annotations while the finalizers stay, reading gives the bound identity or
      fails, unless the digests of the two targets collide. */
  lemma TamperEvident(config: Config, route: RouteMeta, t: Target, annotations: Annotations)
    requires Named(config, route, t) && NulFree(t)
    requires var u := StoredTarget(config, annotations);
             config.digest(BindingInput(config, t)) == config.digest(BindingInput(config, u)) ==>
               BindingInput(config, t) == BindingInput(config, u)
    ensures var r := StoredIdentity(config, Applied(config, route, t).(annotations := annotations));
            r == Unreadable || r == BoundTo(RouteIdentity(config, t, route.namespace, route.name, route.uid))
  {
    var edited := Applied(config, route, t).(annotations := annotations);
    var u := StoredTarget(config, annotations);
    AppliedFinalizers(config, route, t);
    AppliedKeepsNames(config, route, t);
    hide Applied, BindingInput, Named;
    assert HasBindingFinalizer(config, edited.finalizers) by {
      var i :| 0 <= i < |edited.finalizers| && edited.finalizers[i] == BindingFinalizer(config, t);
      assert IsBindingFinalizer(config, edited.finalizers[i]);
    }
    if BindingFinalizer(config, u) in edited.finalizers {
      BindingFinalizerUnique(config, t, u);
    }
  }
}
