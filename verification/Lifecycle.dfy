/** The life of one Gateway: binding, graph reconciliation, replacement and
    cleanup, together with what users and other controllers may do meanwhile. */
module Lifecycle {
  import opened Ownership
  import opened Octavia
  import opened RouteTree
  import opened Provider
  import opened Isolation
  import opened AdminGating
  import opened Kube
  import opened GatewayAuthority
  import opened OwnershipTags

  /** Where the reconciliation of this Gateway stands; the work queue runs at most
      one at a time per Gateway. Between the Ready deletion of the graph and the
      metadata patch it remembers the object it read. */
  datatype Progress = Idle | GraphDeleted(read: Gateway)

  /** `key` and `uid` name the Gateway this life is about. */
  datatype World = World(cluster: Cluster, store: Store, progress: Progress)

  datatype Subject = Subject(config: Config, env: Env, key: Key, uid: string)

  /** The Gateway object, as long as it is the one this life is about. */
  predicate Alive(s: Subject, w: World)
  {
    s.key in w.cluster.gateways && w.cluster.gateways[s.key].uid == s.uid
  }

  function TheGateway(s: Subject, w: World): Gateway
    requires Alive(s, w)
  {
    w.cluster.gateways[s.key]
  }

  /** A load balancer with exactly this Gateway's identity exists. */
  ghost predicate GraphExists(s: Subject, st: Store)
  {
    exists lb :: lb in st.loadBalancers && s.env.own.exactGateway(st.loadBalancers[lb].tags, LoadBalancerRole)
  }

  datatype Move =
    | Bind(port: string, revision: string)
    | EnsureGraph(snapshot: Snapshot, spec: GatewaySpec, choice: Choice)
    | OtherCall(env: Env, op: Operation)
    | DeleteGraph
    | ClearMetadata(revision: string)
    | GiveUp
    | Outside(cluster: Cluster)
    | Provisioning(loadBalancer: Id, status: Status)

  /** A call that is not this Gateway's own reconciliation: any route operation, or
      a Gateway operation of an identity whose tags this Gateway does not match. */
  ghost predicate Harmless(s: Subject, env: Env, op: Operation)
  {
    op.EnsureRouteOp? || op.DeleteRouteOp? ||
    !s.env.own.exactGateway(env.own.gatewayTags(LoadBalancerRole), LoadBalancerRole)
  }

  /** Users and other controllers may change anything about the Gateway except its
      binding metadata; the API server removes an object only once it is deleting
      and has no finalizers left, never changes a UID under one life, and changes
      the resource version with every write. */
  ghost predicate AllowedOutside(s: Subject, w: World, cluster: Cluster)
  {
    NamesAgree(cluster) &&
    (Alive(s, w) ==>
      var g := TheGateway(s, w);
      if s.key in cluster.gateways && cluster.gateways[s.key].uid == s.uid then
        var g' := cluster.gateways[s.key];
        SameBinding(s.config, g, g') && (g.deleting ==> g'.deleting) && (g'.resourceVersion == g.resourceVersion ==> g' == g)
      else g.deleting && g.finalizers == []) &&
    (!Alive(s, w) ==> !(s.key in cluster.gateways && cluster.gateways[s.key].uid == s.uid))
  }

  ghost predicate Enabled(s: Subject, w: World, m: Move)
  {
    match m
    case Bind(port, revision) =>
      w.progress.Idle? && Alive(s, w) &&
      ObserveMutation(s.config, w.cluster, TheGateway(s, w), false, port).Some? && port != "" &&
      revision != TheGateway(s, w).resourceVersion
    case EnsureGraph(snapshot, spec, choice) =>
      w.progress.Idle? && Alive(s, w) && GatewayKey(snapshot.gateway) == s.key && snapshot.gateway.uid == s.uid && snapshot.required &&
      Sealed(s.config, w.cluster, snapshot) && Fresh(w.store, choice.id)
    case OtherCall(env, op) => FreshFor(op, w.store) && Harmless(s, env, op)
    case DeleteGraph =>
      w.progress.Idle? && Alive(s, w) &&
      ObserveCleanup(s.config, w.cluster, TheGateway(s, w)) == CleanupDelete
    case ClearMetadata(revision) =>
      w.progress.GraphDeleted? && (Alive(s, w) ==> revision != TheGateway(s, w).resourceVersion)
    case GiveUp => true
    case Outside(cluster) => AllowedOutside(s, w, cluster)
    case Provisioning(lb, _) => lb in w.store.loadBalancers
  }

  function Put(w: World, key: Key, g: Gateway): World
  {
    w.(cluster := w.cluster.(gateways := w.cluster.gateways[key := g]))
  }

  ghost function Next(s: Subject, w: World, m: Move): World
    requires Enabled(s, w, m)
  {
    match m
    case Bind(port, revision) => Put(w, s.key, Bound(s.config, TheGateway(s, w), port, revision))
    case EnsureGraph(_, spec, choice) => w.(store := EnsureGatewayResult(s.env, spec, w.store, choice).store)
    case OtherCall(env, op) => w.(store := Perform(env, op, w.store).store)
    case DeleteGraph =>
      var r := DeleteGatewayResult(s.env, w.store);
      w.(store := r.store, progress := if r.outcome == Ready then GraphDeleted(TheGateway(s, w)) else Idle)
    case ClearMetadata(revision) =>
      // The patch succeeds only if the object still has the revision that was read.
      if Alive(s, w) && TheGateway(s, w).resourceVersion == w.progress.read.resourceVersion then
        Put(w, s.key, Unbound(s.config, TheGateway(s, w), revision)).(progress := Idle)
      else w.(progress := Idle)
    case GiveUp => w.(progress := Idle)
    case Outside(cluster) => w.(cluster := cluster)
    case Provisioning(lb, status) => w.(store := WithStatus(w.store, lb, status))
  }

  /** The graph exists only while the Gateway carries the finalizer and a complete
      binding; after a Ready deletion it does not exist. */
  ghost predicate Inv(s: Subject, w: World)
  {
    NamesAgree(w.cluster) &&
    (GraphExists(s, w.store) ==> Alive(s, w) && BindingComplete(s.config, TheGateway(s, w)) && w.progress.Idle?)
  }

  ghost predicate ValidSubject(s: Subject)
  {
    LawfulGatewayOwner(s.env.own) && s.config.cluster != "" && s.config.project != ""
  }

  // ----- the steps -----

  lemma BindKeepsInv(s: Subject, w: World, port: string, revision: string)
    requires ValidSubject(s) && Inv(s, w) && Enabled(s, w, Bind(port, revision))
    ensures Inv(s, Next(s, w, Bind(port, revision)))
  {
    hide ObserveMutation, BindingValid;
    BindingRoundTrip(s.config, TheGateway(s, w), port, revision, revision);
  }

  /** A Ready deletion means that nothing is listed under the identity. */
  lemma ReadyMeansGone(s: Subject, st: Store)
    requires LawfulGatewayOwner(s.env.own) && DeleteGatewayResult(s.env, st).outcome == Ready
    ensures !GraphExists(s, DeleteGatewayResult(s.env, st).store)
  {
    forall lb | lb in st.loadBalancers
      ensures !s.env.own.exactGateway(st.loadBalancers[lb].tags, LoadBalancerRole)
    {
      assert lb !in ListedLoadBalancers(s.env.own, st.loadBalancers);
    }
  }

  /** Deleting and route calls never bring a load balancer into being. */
  lemma DeleteCreatesNothing(s: Subject, st: Store)
    ensures GraphExists(s, DeleteGatewayResult(s.env, st).store) ==> GraphExists(s, st)
  {
    hide GatewayDeletion.Deletable, GatewayDeletion.FullPlan, FindLoadBalancer;
  }

  lemma SameTagsCreateNothing(s: Subject, st: Store, st': Store)
    requires SameTags(st.loadBalancers, st'.loadBalancers)
    ensures GraphExists(s, st') ==> GraphExists(s, st)
  {
  }

  lemma StatusKeepsTags(st: Store, lb: Id, status: Status)
    requires lb in st.loadBalancers
    ensures SameTags(st.loadBalancers, WithStatus(st, lb, status).loadBalancers)
  {
  }

  lemma RemoveKeepsTags(st: Store, m: GatewayTree.Removal)
    ensures SameTags(st.loadBalancers, GatewayDeletion.Remove(st, m).loadBalancers)
  {
  }

  lemma DeleteGatewayKeepsTags(env: Env, st: Store)
    ensures SameTags(st.loadBalancers, DeleteGatewayResult(env, st).store.loadBalancers)
  {
    assert SameTags(st.loadBalancers, st.loadBalancers);
    hide GatewayDeletion.Deletable, GatewayDeletion.FullPlan, GatewayDeletion.Remove, FindLoadBalancer, SameTags;
    var found := FindLoadBalancer(env, st.loadBalancers);
    if found.Found? {
      RemoveKeepsTags(st, GatewayDeletion.FullPlan(st, found.id)[0]);
    }
  }

  /** Only load balancers with the given tags may be new. */
  ghost predicate TagsOrNew(lbs: map<Id, LoadBalancer>, lbs': map<Id, LoadBalancer>, tags: Tags)
  {
    forall lb :: lb in lbs' ==> (lb in lbs && lbs'[lb].tags == lbs[lb].tags) || lbs'[lb].tags == tags
  }

  lemma RaisedTags(lbs: map<Id, LoadBalancer>, lb: Id, tags: Tags)
    requires lb in lbs
    ensures TagsOrNew(lbs, lbs[lb := lbs[lb].(up := true)], tags)
  {
  }

  lemma AddedTags(lbs: map<Id, LoadBalancer>, lb: Id, record: LoadBalancer)
    ensures TagsOrNew(lbs, lbs, record.tags) && TagsOrNew(lbs, lbs[lb := record], record.tags)
  {
  }

  lemma AdminTags(env: Env, spec: GatewaySpec, st: Store, lb: Id, listener: Lookup, choice: Choice)
    requires lb in st.loadBalancers && (listener.Found? ==> listener.id in st.listeners)
    ensures TagsOrNew(st.loadBalancers, EnsureGatewayAdmin(env, spec, st, lb, listener, choice).store.loadBalancers,
                      env.own.gatewayTags(LoadBalancerRole))
  {
    hide HasRouteResources, NewListener, TagsOrNew;
    AddedTags(st.loadBalancers, lb, NewLoadBalancer(env, spec, choice));
    RaisedTags(st.loadBalancers, lb, env.own.gatewayTags(LoadBalancerRole));
  }

  /** Ensuring a Gateway adds at most a load balancer with that Gateway's tags. */
  lemma EnsureGatewayTags(env: Env, spec: GatewaySpec, st: Store, choice: Choice)
    ensures TagsOrNew(st.loadBalancers, EnsureGatewayResult(env, spec, st, choice).store.loadBalancers,
                      env.own.gatewayTags(LoadBalancerRole))
  {
    hide FindLoadBalancer, FindListener, FloatingIPStateOf, GatewayTree.GatewayTreeOk, RouteModel.Blank, EnsureGatewayAdmin,
         NewFloatingIP, TagsOrNew;
    AddedTags(st.loadBalancers, choice.id, NewLoadBalancer(env, spec, choice));
    var found := FindLoadBalancer(env, st.loadBalancers);
    if found.Found? && !FindListener(env, st.listeners, found.id).Conflict? {
      AdminTags(env, spec, st, found.id, FindListener(env, st.listeners, found.id), choice);
    }
  }

  lemma OtherCallCreatesNothing(s: Subject, env: Env, op: Operation, st: Store)
    requires Harmless(s, env, op)
    ensures GraphExists(s, Perform(env, op, st).store) ==> GraphExists(s, st)
  {
    hide EnsureRouteResult, DeleteRouteResult, EnsureGatewayResult, DeleteGatewayResult;
    match op {
      case DeleteRouteOp => DeleteRouteKeepsGateway(env, st);
      case EnsureRouteOp(spec, id) =>
        EnsureRouteKeepsTags(env, spec, st, id);
        SameTagsCreateNothing(s, st, Perform(env, op, st).store);
      case DeleteGatewayOp =>
        DeleteGatewayKeepsTags(env, st);
        SameTagsCreateNothing(s, st, Perform(env, op, st).store);
      case EnsureGatewayOp(spec, choice) => EnsureGatewayTags(env, spec, st, choice);
    }
  }

  ghost predicate SameTags(lbs: map<Id, LoadBalancer>, lbs': map<Id, LoadBalancer>)
  {
    forall lb :: lb in lbs' ==> lb in lbs && lbs'[lb].tags == lbs[lb].tags
  }

  lemma RepairKeepsTags(env: Env, spec: RouteModel.RouteSpec, st: Store, site: Site)
    requires site.loadBalancer in st.loadBalancers && site.listener in st.listeners
    ensures SameTags(st.loadBalancers, RepairAdminState(env, spec, st, site).store.loadBalancers)
  {
    hide FloatingIPStateOf, EnableListener, EnableLoadBalancer, SameTags;
    EnableKeepsTags(st, site);
  }

  lemma EnableKeepsTags(st: Store, site: Site)
    requires site.loadBalancer in st.loadBalancers && site.listener in st.listeners
    ensures SameTags(st.loadBalancers, st.loadBalancers)
    ensures SameTags(st.loadBalancers, EnableListener(st, site.listener).loadBalancers)
    ensures SameTags(st.loadBalancers, EnableLoadBalancer(st, site.loadBalancer).loadBalancers)
  {
  }

  lemma EnsureRouteKeepsTags(env: Env, spec: RouteModel.RouteSpec, st: Store, id: Id)
    ensures SameTags(st.loadBalancers, EnsureRouteResult(env, spec, st, id).store.loadBalancers)
  {
    hide RouteModel.DesiredFor, ViewGateway, TreeOk, GraphOf, RoutePlan.EnsurePlan, RouteSteps.Execute,
         RepairAdminState;
    var d := RouteModel.DesiredFor(env.net, spec);
    var view := ViewGateway(env, st, Some(spec));
    if d.Some? && view.GatewayReady? {
      ReadySite(env, st, spec, view.site);
      RepairKeepsTags(env, d.value.spec, st, view.site);
      if TreeOk(env, st, view.site) {
        var plan := RoutePlan.EnsurePlan(env.net, d.value, GraphOf(env, st, view.site));
        if plan.Some? && plan.value != [] {
          ExecuteKeepsGateway(env, d.value, view.site, st, plan.value[0], id);
        }
      }
    }
  }

  lemma ClearKeepsInv(s: Subject, w: World, revision: string)
    requires ValidSubject(s) && Inv(s, w) && Enabled(s, w, ClearMetadata(revision))
    ensures Inv(s, Next(s, w, ClearMetadata(revision)))
  {
  }

  lemma OutsideKeepsInv(s: Subject, w: World, cluster: Cluster)
    requires ValidSubject(s) && Inv(s, w) && AllowedOutside(s, w, cluster)
    ensures Inv(s, Next(s, w, Outside(cluster)))
  {
  }

  lemma StepKeepsInv(s: Subject, w: World, m: Move)
    requires ValidSubject(s) && Inv(s, w) && Enabled(s, w, m)
    ensures Inv(s, Next(s, w, m))
  {
    hide DeleteGatewayResult, EnsureGatewayResult, Perform, ObserveMutation, ObserveCleanup, BindingValid, GraphExists;
    match m {
      case Bind(port, revision) => BindKeepsInv(s, w, port, revision);
      case EnsureGraph(_, _, _) =>
      case OtherCall(env, op) => OtherCallCreatesNothing(s, env, op, w.store);
      case DeleteGraph =>
        DeleteCreatesNothing(s, w.store);
        if DeleteGatewayResult(s.env, w.store).outcome == Ready {
          ReadyMeansGone(s, w.store);
        }
      case ClearMetadata(revision) => ClearKeepsInv(s, w, revision);
      case GiveUp =>
      case Outside(cluster) => OutsideKeepsInv(s, w, cluster);
      case Provisioning(lb, status) =>
        StatusKeepsTags(w.store, lb, status);
        SameTagsCreateNothing(s, w.store, WithStatus(w.store, lb, status));
    }
  }

  ghost predicate IsLife(s: Subject, w: World, moves: seq<Move>, w': World)
    decreases |moves|
  {
    if moves == [] then w' == w else Enabled(s, w, moves[0]) && IsLife(s, Next(s, w, moves[0]), moves[1..], w')
  }

  lemma {:induction false} LifeKeepsInv(s: Subject, w: World, moves: seq<Move>, w': World)
    requires ValidSubject(s) && Inv(s, w) && IsLife(s, w, moves, w')
    ensures Inv(s, w')
    decreases |moves|
  {
    hide Enabled, Next, Inv, ValidSubject;
    if moves != [] {
      StepKeepsInv(s, w, moves[0]);
      LifeKeepsInv(s, Next(s, w, moves[0]), moves[1..], w');
    }
  }

  /** The lifecycle invariant: from a world without the Gateway's load balancer,
      over every sequence of bind, ensure, replace, cleanup, route, foreign Gateway
      and outside steps, a load balancer with the Gateway's identity exists only
      while the Gateway carries the controller's finalizer and a complete binding. */
  lemma LifecycleInvariant(s: Subject, w: World, moves: seq<Move>, w': World)
    requires ValidSubject(s) && NamesAgree(w.cluster) && !GraphExists(s, w.store) && IsLife(s, w, moves, w')
    ensures GraphExists(s, w'.store) ==> Alive(s, w') && BindingComplete(s.config, TheGateway(s, w'))
  {
    hide IsLife, GraphExists, ValidSubject, BindingComplete, NamesAgree;
    LifeKeepsInv(s, w, moves, w');
  }

  /** The calls of another undigested Gateway identity are harmless. */
  lemma OtherGatewayIsHarmless(c: Codec, mine: Identity, other: Identity, s: Subject, env: Env, op: Operation)
    requires LawfulCodec(c) && GatewayUndigested(c, mine) && GatewayUndigested(c, other)
    requires mine.project != "" && other.project != "" && !(SameGateway(mine, other) && mine.project == other.project)
    requires s.env.own == OwnerOf(c, mine) && env.own == OwnerOf(c, other)
    ensures Harmless(s, env, op)
  {
    hide LawfulCodec, GatewayUndigested, MatchesGateway;
    var tags := env.own.gatewayTags(LoadBalancerRole);
    GeneratedTagsMatch(c, other, LoadBalancerRole);
    IdentitiesApart(c, mine, other, tags, LoadBalancerRole);
  }

  /** An object that disappears leaves no load balancer behind. */
  lemma GoneWithoutGraph(s: Subject, w: World, cluster: Cluster)
    requires Inv(s, w) && Alive(s, w) && AllowedOutside(s, w, cluster)
    requires !Alive(s, w.(cluster := cluster))
    ensures !GraphExists(s, w.store)
  {
  }

  // ----- cleanup comes to an end -----

  /** One move after another. */
  lemma {:induction false} LivesJoin(s: Subject, w: World, a: seq<Move>, mid: World, b: seq<Move>, w': World)
    requires IsLife(s, w, a, mid) && IsLife(s, mid, b, w')
    ensures IsLife(s, w, a + b, w')
    decreases |a|
  {
    hide Enabled, Next;
    if a == [] {
      assert a + b == b;
    } else {
      assert (a + b)[1..] == a[1..] + b;
      LivesJoin(s, Next(s, w, a[0]), a[1..], mid, b, w');
    }
  }

  /** Cleanup is authorised in this world. */
  ghost predicate MayDelete(s: Subject, w: World)
  {
    w.progress.Idle? && Alive(s, w) && ObserveCleanup(s.config, w.cluster, TheGateway(s, w)) == CleanupDelete
  }

  function Repeat(m: Move, n: nat): (r: seq<Move>)
    ensures |r| == n
  {
    if n == 0 then [] else [m] + Repeat(m, n - 1)
  }

  lemma NotYetReady(env: Env, st: Store, lb: Id)
    requires ReadyToDelete(env, st, lb)
    ensures DeleteGatewayResult(env, st).outcome == Progressing
  {
    hide FindLoadBalancer, GatewayDeletion.Deletable, GatewayDeletion.FullPlan, GatewayDeletion.Remove;
  }

  /** As many deletions as the plan is long only change the store. */
  lemma {:induction false} DeletionsRun(s: Subject, w: World, lb: Id, n: nat)
    requires MayDelete(s, w) && ReadyToDelete(s.env, w.store, lb) && n <= |GatewayDeletion.FullPlan(w.store, lb)|
    ensures IsLife(s, w, Repeat(DeleteGraph, n), w.(store := DeleteGatewaySteps(s.env, w.store, n)))
    decreases n
  {
    hide ReadyToDelete, DeleteGatewayResult, ObserveCleanup, GatewayDeletion.FullPlan;
    if n > 0 {
      NotYetReady(s.env, w.store, lb);
      var w1 := w.(store := DeleteGatewayResult(s.env, w.store).store);
      assert Next(s, w, DeleteGraph) == w1;
      assert Repeat(DeleteGraph, n)[1..] == Repeat(DeleteGraph, n - 1);
      if n > 1 {
        DeleteGatewayAdvances(s.env, w.store, lb);
        DeletionsRun(s, w1, lb, n - 1);
      } else {
        assert IsLife(s, w1, [], w1);
      }
    }
  }

  /** Clearing leaves nothing of the binding, whatever was stored. */
  lemma ClearedBinding(config: Config, g: Gateway, revision: string)
    ensures var g' := Unbound(config, g, revision);
            !AnyBinding(config, g') && g'.spec == g.spec && g'.deleting == g.deleting &&
            forall f :: f in g'.finalizers <==> f in g.finalizers && f != config.GatewayFinalizer()
  {
  }

  lemma LastMoves(s: Subject, w: World, revision: string)
    requires ValidSubject(s) && MayDelete(s, w) && DeleteGatewayResult(s.env, w.store) == Result(w.store, Ready)
    requires revision != TheGateway(s, w).resourceVersion
    ensures IsLife(s, w, [DeleteGraph, ClearMetadata(revision)],
                   Put(w, s.key, Unbound(s.config, TheGateway(s, w), revision)))
  {
    hide DeleteGatewayResult, ObserveCleanup, Unbound;
    var g := TheGateway(s, w);
    var w1 := Next(s, w, DeleteGraph);
    assert w1 == w.(progress := GraphDeleted(g));
    var w2 := Next(s, w1, ClearMetadata(revision));
    assert w2 == Put(w, s.key, Unbound(s.config, g, revision));
    assert [DeleteGraph, ClearMetadata(revision)][1..] == [ClearMetadata(revision)];
    assert [ClearMetadata(revision)][1..] == [];
    assert IsLife(s, w2, [], w2);
    assert IsLife(s, w1, [ClearMetadata(revision)], w2);
  }

  ghost function CleanupMoves(w: World, lb: Id, revision: string): seq<Move>
    requires lb in w.store.loadBalancers
  {
    Repeat(DeleteGraph, |GatewayDeletion.FullPlan(w.store, lb)|) + [DeleteGraph, ClearMetadata(revision)]
  }

  ghost function CleanWorld(s: Subject, w: World, lb: Id, revision: string): World
    requires lb in w.store.loadBalancers && Alive(s, w)
  {
    Put(w.(store := DeleteGatewaySteps(s.env, w.store, |GatewayDeletion.FullPlan(w.store, lb)|)), s.key,
        Unbound(s.config, TheGateway(s, w), revision))
  }

  /** The Gateway object is there without graph, finalizer and binding. */
  ghost predicate Gone(s: Subject, w: World)
  {
    !GraphExists(s, w.store) && Alive(s, w) && !AnyBinding(s.config, TheGateway(s, w)) && w.progress.Idle?
  }

  /** Whenever cleanup is authorised and the graph is active and deletable, deleting
      as often as the plan is long and once more, then clearing, is possible
      throughout and ends without graph, finalizer and binding. */
  lemma CleanupCompletes(s: Subject, w: World, lb: Id, revision: string)
    requires ValidSubject(s) && MayDelete(s, w) && ReadyToDelete(s.env, w.store, lb) && lb in w.store.loadBalancers
    requires revision != TheGateway(s, w).resourceVersion
    ensures IsLife(s, w, CleanupMoves(w, lb, revision), CleanWorld(s, w, lb, revision)) && Gone(s, CleanWorld(s, w, lb, revision))
  {
    hide ReadyToDelete, DeleteGatewayResult, ObserveCleanup, GatewayDeletion.FullPlan, GraphExists, Unbound, IsLife, AnyBinding;
    var n := |GatewayDeletion.FullPlan(w.store, lb)|;
    var emptied := w.(store := DeleteGatewaySteps(s.env, w.store, n));
    DeletionsRun(s, w, lb, n);
    GatewayDeletionRun(s.env, w.store, lb, n);
    ReadyMeansGone(s, emptied.store);
    LastMoves(s, emptied, revision);
    ClearedBinding(s.config, TheGateway(s, w), revision);
    UnboundKeepsUID(s.config, TheGateway(s, w), revision);
    LivesJoin(s, w, Repeat(DeleteGraph, n), emptied, [DeleteGraph, ClearMetadata(revision)],
              Put(emptied, s.key, Unbound(s.config, TheGateway(s, w), revision)));
  }

  lemma UnboundKeepsUID(config: Config, g: Gateway, revision: string)
    ensures Unbound(config, g, revision).uid == g.uid
  {
  }

  /** A deleting Gateway with a complete binding of this cluster and project always
      gets there: neither its class nor the installed version can hold it up. */
  lemma DeletingGatewayGoes(s: Subject, w: World, lb: Id, revision: string)
    requires ValidSubject(s) && NamesAgree(w.cluster) && w.progress.Idle? && Alive(s, w)
    requires TheGateway(s, w).deleting && BindingComplete(s.config, TheGateway(s, w)) && SoundBinding(s.config, TheGateway(s, w))
    requires ReadyToDelete(s.env, w.store, lb) && lb in w.store.loadBalancers && revision != TheGateway(s, w).resourceVersion
    ensures IsLife(s, w, CleanupMoves(w, lb, revision), CleanWorld(s, w, lb, revision)) && Gone(s, CleanWorld(s, w, lb, revision))
  {
    hide ReadyToDelete, SoundBinding, BindingComplete, IsLife, Gone, CleanupMoves, CleanWorld, NamesAgree, MayDelete, ValidSubject;
    DeletingMayDelete(s, w);
    CleanupCompletes(s, w, lb, revision);
  }

  lemma DeletingMayDelete(s: Subject, w: World)
    requires ValidSubject(s) && NamesAgree(w.cluster) && w.progress.Idle? && Alive(s, w)
    requires TheGateway(s, w).deleting && SoundBinding(s.config, TheGateway(s, w))
    ensures MayDelete(s, w)
  {
    hide ObserveCleanup, SoundBinding, LawfulGatewayOwner;
    CleanupExactly(s.config, w.cluster, TheGateway(s, w));
  }

  // ----- bringing up -----

  lemma BoundAuthorised(config: Config, cluster: Cluster, g: Gateway, port: string, revision: string)
    requires UpToDate(cluster, g) && port != "" && config.cluster != "" && config.project != ""
    requires ObserveMutation(config, cluster, g, false, port).Some?
    ensures var bound := Bound(config, g, port, revision);
            var cluster' := cluster.(gateways := cluster.gateways[GatewayKey(g) := bound]);
            ObserveMutation(config, cluster', bound, true, port).Some? &&
            ObserveMutation(config, cluster', bound, true, port).value.gateway == bound
  {
    hide BindingValid, BindingComplete, ValidGateway, Itoa;
    BindingRoundTrip(config, g, port, revision, revision);
    BoundKeepsRest(config, g, port, revision);
  }

  lemma BoundKeepsRest(config: Config, g: Gateway, port: string, revision: string)
    ensures var bound := Bound(config, g, port, revision);
            GatewayKey(bound) == GatewayKey(g) && bound.uid == g.uid && bound.generation == g.generation && bound.deleting == g.deleting &&
            bound.spec == g.spec && HasFinalizer(config, bound)
  {
  }

  /** Binding opens the way to the graph: whenever a Gateway may be bound, the bind
      step gives it a complete binding under which, with a supported version, the
      next step may ensure the graph, and that step does what EnsureGateway does. */
  lemma BindThenEnsure(s: Subject, w: World, port: string, revision: string, spec: GatewaySpec, choice: Choice)
    requires ValidSubject(s) && NamesAgree(w.cluster) && w.cluster.versionSupported && Enabled(s, w, Bind(port, revision))
    requires Fresh(w.store, choice.id)
    ensures var bound := Next(s, w, Bind(port, revision));
            Alive(s, bound) && BindingComplete(s.config, TheGateway(s, bound)) &&
            exists snapshot :: Enabled(s, bound, EnsureGraph(snapshot, spec, choice)) &&
              Next(s, bound, EnsureGraph(snapshot, spec, choice)).store == EnsureGatewayResult(s.env, spec, w.store, choice).store &&
              Alive(s, Next(s, bound, EnsureGraph(snapshot, spec, choice)))
  {
    hide BindingValid, ObserveMutation, LawfulGatewayOwner, Fresh, EnsureGatewayResult, Bound, BindingComplete, Sealed;
    var g := TheGateway(s, w);
    BindingRoundTrip(s.config, g, port, revision, revision);
    BoundKeepsRest(s.config, g, port, revision);
    BoundAuthorised(s.config, w.cluster, g, port, revision);
    var bound := Next(s, w, Bind(port, revision));
    UnchangedSeals(s.config, bound.cluster, TheGateway(s, bound), port, true);
    var snapshot := ObserveMutation(s.config, bound.cluster, TheGateway(s, bound), true, port).value;
    SnapshotRequired(s.config, bound.cluster, TheGateway(s, bound), port);
    assert Enabled(s, bound, EnsureGraph(snapshot, spec, choice));
  }

  lemma SnapshotRequired(config: Config, cluster: Cluster, g: Gateway, port: string)
    requires ObserveMutation(config, cluster, g, true, port).Some?
    ensures ObserveMutation(config, cluster, g, true, port).value.required
  {
    hide BindingValid, ValidGateway, Itoa;
  }
}
