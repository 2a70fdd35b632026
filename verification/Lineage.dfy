/** A replica id stays with its service, its node and its container: no step gives a known id to anyone else. */
module Lineage {
  import opened Wrappers
  import opened Nodes
  import opened Scheduler
  import opened Routing
  import opened Worlds
  import opened Reconcile
  import opened ReconcileProofs
  import opened Convergence
  import opened Runs
  import opened Outdated
  import opened LateVisits

  ghost predicate Body(store: Store, t: string, id: string, node: string, container: string) {
    exists k :: Holds(store, t, k, id) && store[t].replicas[k].node == node && store[t].replicas[k].container == container
  }

  /** What is recorded afterwards was recorded before, or has an id from `launched`. */
  ghost predicate Follows(store: Store, store': Store, launched: iset<string>) {
    forall t, id, node, container :: Body(store', t, id, node, container) && id !in launched ==>
      Body(store, t, id, node, container)
  }

  /** No container started but those from `launched`. */
  ghost predicate StartsOnly(docker: Docker, docker': Docker, launched: iset<string>) {
    forall c :: IsRunning(docker', c) && c !in launched ==> IsRunning(docker, c)
  }

  lemma FollowsTwice(a: Store, b: Store, c: Store, launched: iset<string>)
    requires Follows(a, b, launched) && Follows(b, c, launched)
    ensures Follows(a, c, launched)
  {
    hide Body;
  }

  lemma StartsTwice(a: Docker, b: Docker, c: Docker, launched: iset<string>)
    requires StartsOnly(a, b, launched) && StartsOnly(b, c, launched)
    ensures StartsOnly(a, c, launched)
  {}

  lemma CopyFollows(store: Store, store': Store, launched: iset<string>, s: string, r: Replica)
    requires Follows(store, store', launched) && OldCopy(store, s, r) && r.id !in launched
    ensures OldCopy(store', s, r)
  {
    forall t, k | Holds(store', t, k, r.id)
      ensures t == s && store'[t].replicas[k].node == r.node && store'[t].replicas[k].container == r.container {
      var x := store'[t].replicas[k];
      assert Body(store', t, r.id, x.node, x.container);
      var i :| Holds(store, t, i, r.id) && store[t].replicas[i].node == x.node
               && store[t].replicas[i].container == x.container;
    }
  }

  /** Every replica of one list has its body in another. */
  ghost predicate DrawnFrom(a: seq<Replica>, b: seq<Replica>, launched: iset<string>) {
    forall x :: x in a && x.id !in launched ==>
      exists y :: y in b && y.id == x.id && y.node == x.node && y.container == x.container
  }

  /** Rewriting one record with replicas drawn from it. */
  lemma PutFollows(store: Store, s: string, svc: Service, launched: iset<string>)
    requires DrawnFrom(svc.replicas, if s in store then store[s].replicas else [], launched)
    ensures Follows(store, store[s := svc], launched)
  {
    var store' := store[s := svc];
    forall t, id, node, container | Body(store', t, id, node, container) && id !in launched
      ensures Body(store, t, id, node, container) {
      var k :| Holds(store', t, k, id) && store'[t].replicas[k].node == node && store'[t].replicas[k].container == container;
      if t == s {
        var x := svc.replicas[k];
        assert x in svc.replicas;
        var y :| y in (if s in store then store[s].replicas else []) && y.id == x.id && y.node == x.node
                 && y.container == x.container;
        var i :| 0 <= i < |store[s].replicas| && store[s].replicas[i] == y;
        assert Holds(store, s, i, id);
      } else {
        assert Holds(store, t, k, id);
      }
    }
  }

  lemma DropFollows(store: Store, s: string, launched: iset<string>)
    ensures Follows(store, store - {s}, launched)
  {
    forall t, id, node, container | Body(store - {s}, t, id, node, container) ensures Body(store, t, id, node, container) {
      var k :| Holds(store - {s}, t, k, id) && store[t].replicas[k].node == node && store[t].replicas[k].container == container;
      assert Holds(store, t, k, id);
    }
  }

  lemma WithoutFollows(store: Store, s: string, ids: set<string>, launched: iset<string>)
    ensures Follows(store, WithoutIn(store, s, ids), launched)
  {
    if s in store {
      WithoutMembers(store[s].replicas, ids);
      PutFollows(store, s, store[s].(replicas := Without(store[s].replicas, ids)), launched);
    }
  }

  lemma RemoveEachFollows(w: World, spec: ServiceSpec, rs: seq<Replica>, launched: iset<string>)
    requires Named(w.store)
    ensures var w' := RemoveEach(w, spec, rs);
            Follows(w.store, w'.store, launched) && StartsOnly(w.docker, w'.docker, launched) && Named(w'.store)
  {
    hide RemoveEach, Body;
    RemoveEachParts(w, spec, rs);
    WithoutFollows(w.store, spec.name, Ids(rs), launched);
  }

  ghost predicate Launches(supply: nat -> Launch, ids: iset<string>, containers: iset<string>) {
    forall i: nat :: supply(i).Launched? ==> supply(i).id in ids && supply(i).container in containers
  }

  lemma CreateFollows(w: World, spec: ServiceSpec, policy: Policy, launch: Launch, ids: iset<string>,
                      containers: iset<string>)
    requires Named(w.store) && (launch.Launched? ==> launch.id in ids && launch.container in containers)
    ensures var w' := CreateReplica(w, spec, policy, launch);
            && Follows(w.store, w'.store, ids) && StartsOnly(w.docker, w'.docker, containers) && Named(w'.store)
            && w'.store.Keys == w.store.Keys
            && (forall t :: t in w.store && t != spec.name ==> w'.store[t] == w.store[t])
            && (spec.name in w.store ==> w'.store[spec.name].spec == w.store[spec.name].spec)
  {
    hide Allocated, SelectNode, EndpointsOf, Merge, Body;
    var s := spec.name;
    var r := Started(w.ledger, spec, policy, launch);
    if r.Some? && s in w.store {
      PutFollows(w.store, s, w.store[s].(replicas := w.store[s].replicas + [r.value]), ids);
    }
  }

  lemma {:induction false} CreateFromFollows(
    w: World, spec: ServiceSpec, policy: Policy, supply: nat -> Launch, k: nat, n: nat, ids: iset<string>,
    containers: iset<string>)
    requires Named(w.store) && k <= n && Launches(supply, ids, containers)
    ensures var w' := CreateFrom(w, spec, policy, supply, k, n);
            && Follows(w.store, w'.store, ids) && StartsOnly(w.docker, w'.docker, containers) && Named(w'.store)
            && w'.store.Keys == w.store.Keys
            && (forall t :: t in w.store && t != spec.name ==> w'.store[t] == w.store[t])
            && (spec.name in w.store ==> w'.store[spec.name].spec == w.store[spec.name].spec)
    decreases n - k
  {
    hide CreateReplica, Follows, StartsOnly, Named;
    if k == n {
      NothingFollows(w, ids, containers);
    } else {
      var w1 := CreateReplica(w, spec, policy, supply(k));
      CreateFollows(w, spec, policy, supply(k), ids, containers);
      CreateFromFollows(w1, spec, policy, supply, k + 1, n, ids, containers);
      var w' := CreateFrom(w, spec, policy, supply, k, n);
      FollowsTwice(w.store, w1.store, w'.store, ids);
      StartsTwice(w.docker, w1.docker, w'.docker, containers);
    }
  }

  lemma NothingFollows(w: World, ids: iset<string>, containers: iset<string>)
    ensures Follows(w.store, w.store, ids) && StartsOnly(w.docker, w.docker, containers)
  {}

  // ---- A visit, with a record that is current or was listed earlier ----

  lemma RefreshFollows(w: World, svc: Service, claims: Claims, ids: iset<string>, containers: iset<string>)
    requires Consistent(w, claims) && RoutesMatch(w) && ListedBefore(w, svc)
    requires svc.spec.name in w.store || svc.replicas != []
    ensures var w1 := Refresh(w, svc).world;
            && Follows(w.store, w1.store, ids) && StartsOnly(w.docker, w1.docker, containers) && Named(w1.store)
            && w1.store == w.store[svc.spec.name := RecordAfter(w, svc)]
  {
    hide RoutesMatch, Refresh, Claimed, Refunds, Body;
    var s := svc.spec.name;
    RefreshLate(w, svc, claims);
    ClaimedIsDistinct(Refresh(w, svc).world.store, claims - Ids(DeadOf(w.docker, svc.replicas)));
    GoneIsDead(w.docker, w.store, s, svc.replicas);
    if s !in w.store {
      NoneRecorded(w.store, s, svc.replicas);
    }
    forall x | x in Observed(w.docker, svc.replicas)
      ensures exists y :: y in RecordedOf(w.store, s, svc.replicas) && y.id == x.id && y.node == x.node
                          && y.container == x.container {
      SeenFrom(w.docker, RecordedOf(w.store, s, svc.replicas), x);
    }
    PutFollows(w.store, s, RecordAfter(w, svc), ids);
  }

  /** What a visit leaves of everything but the ledger and the routes. */
  ghost predicate VisitedOnly(w: World, end: World, s: string, ids: iset<string>, containers: iset<string>) {
    && Follows(w.store, end.store, ids) && StartsOnly(w.docker, end.docker, containers)
    && forall t :: t != s ==> (t in end.store <==> t in w.store) && (t in w.store ==> end.store[t] == w.store[t])
  }

  lemma WithoutElsewhere(store: Store, s: string, ids: set<string>)
    ensures var store' := WithoutIn(store, s, ids);
            && store'.Keys == store.Keys && (forall t :: t in store && t != s ==> store'[t] == store[t])
            && (s in store ==> store'[s].spec == store[s].spec)
  {}

  lemma RemovalVisits(w: World, spec: ServiceSpec, rs: seq<Replica>, ids: iset<string>, containers: iset<string>)
    requires Named(w.store)
    ensures var end := RemoveEach(w, spec, rs);
            && VisitedOnly(w, end, spec.name, ids, containers) && Named(end.store) && end.store.Keys == w.store.Keys
            && (spec.name in w.store ==> end.store[spec.name].spec == w.store[spec.name].spec)
  {
    hide RemoveEach, Follows, StartsOnly, Named, WithoutIn;
    RemoveEachParts(w, spec, rs);
    WithoutElsewhere(w.store, spec.name, Ids(rs));
    RemoveEachFollows(w, spec, rs, ids);
    RemoveEachFollows(w, spec, rs, containers);
  }

  lemma ScaleFollows(w: World, spec: ServiceSpec, desired: int, running: seq<Replica>, policy: Policy,
                     supply: nat -> Launch, ids: iset<string>, containers: iset<string>)
    requires Named(w.store) && Launches(supply, ids, containers)
    ensures var end := Scale(w, spec, desired, running, policy, supply);
            && VisitedOnly(w, end, spec.name, ids, containers) && Named(end.store) && end.store.Keys == w.store.Keys
            && (spec.name in w.store ==> end.store[spec.name].spec == w.store[spec.name].spec)
  {
    hide RemoveEach, CreateFrom, Follows, StartsOnly, Named, Launches;
    if |running| < desired {
      CreateFromFollows(w, spec, policy, supply, 0, desired - |running|, ids, containers);
    } else if |running| > desired {
      RemovalVisits(w, spec, SliceFrom(running, desired), ids, containers);
    } else {
      NothingFollows(w, ids, containers);
    }
  }

  lemma SettleFollows(w: World, s: string, ids: iset<string>, containers: iset<string>)
    requires Named(w.store)
    ensures var end := SettleStatus(w, s);
            && VisitedOnly(w, end, s, ids, containers) && Named(end.store)
            && (s in w.store ==>
                  && s in end.store && end.store[s].spec == w.store[s].spec
                  && (end.store[s].status == Running || end.store[s].status == Degraded))
  {
    hide Body;
    var end := SettleStatus(w, s);
    NothingFollows(w, ids, containers);
    if end != w {
      PutFollows(w.store, s, end.store[s], ids);
    }
  }

  lemma VisitedTwice(a: World, b: World, c: World, s: string, ids: iset<string>, containers: iset<string>)
    requires VisitedOnly(a, b, s, ids, containers) && VisitedOnly(b, c, s, ids, containers)
    ensures VisitedOnly(a, c, s, ids, containers)
  {
    hide Follows, StartsOnly;
    FollowsTwice(a.store, b.store, c.store, ids);
    StartsTwice(a.docker, b.docker, c.docker, containers);
  }

  lemma RefreshVisits(w: World, svc: Service, w1: World, ids: iset<string>, containers: iset<string>)
    requires Follows(w.store, w1.store, ids) && StartsOnly(w.docker, w1.docker, containers)
    requires w1.store == w.store[svc.spec.name := RecordAfter(w, svc)]
    ensures VisitedOnly(w, w1, svc.spec.name, ids, containers)
  {}

  /** What a late pass overwrites: the specification ends as the listed one if the refresh saw any difference or the record
      was gone, else as the current one; the status ends as running or degraded, so a deletion asked for meanwhile is
      lost. */
  lemma LatePassWrites(w: World, svc: Service, policy: Policy, supply: nat -> Launch, claims: Claims, ids: iset<string>,
                       containers: iset<string>)
    requires Consistent(w, claims) && RoutesMatch(w) && ListedBefore(w, svc)
    requires svc.spec.name in w.store || svc.replicas != []
    requires Launches(supply, ids, containers)
    ensures var s, end := svc.spec.name, ReconcileService(w, svc, policy, supply);
            && s in end.store
            && end.store[s].spec == RecordAfter(w, svc).spec
            && (end.store[s].status == Running || end.store[s].status == Degraded)
            && VisitedOnly(w, end, s, ids, containers)
  {
    hide RoutesMatch, Refresh, RemoveEach, Scale, SettleStatus, Body, Follows, StartsOnly, Named, Claimed, ListedBefore,
         ReconcileService, RecordAfter, Consistent, Kept, VisitedOnly, Launches;
    var s, stale := svc.spec.name, StaleIn(w.docker, svc);
    var w1 := Refresh(w, svc).world;
    var w2 := RemoveEach(w1, svc.spec, stale);
    var w3 := Scale(w2, SpecAfterStale(w, svc), svc.spec.replicas, Kept(w.docker, svc), policy, supply);
    LatePassUnfolds(w, svc, policy, supply, claims);
    RefreshFollows(w, svc, claims, ids, containers);
    RefreshVisits(w, svc, w1, ids, containers);
    RemovalVisits(w1, svc.spec, stale, ids, containers);
    MidwayAfterStale(w, svc, claims);
    MidwayHas(w, svc, w2, DeadOf(w.docker, svc.replicas) + stale, claims);
    ScaleFollows(w2, SpecAfterStale(w, svc), svc.spec.replicas, Kept(w.docker, svc), policy, supply, ids, containers);
    SettleFollows(w3, s, ids, containers);
    VisitedTwice(w, w1, w2, s, ids, containers);
    VisitedTwice(w, w2, w3, s, ids, containers);
    VisitedTwice(w, w3, SettleStatus(w3, s), s, ids, containers);
  }

  // ---- Nodes and their capacities stay ----

  ghost predicate SameNodes(a: Ledger, b: Ledger) {
    |a| == |b| && forall j :: 0 <= j < |a| ==>
      a[j].id == b[j].id && a[j].cpuCapacity == b[j].cpuCapacity && a[j].memCapacity == b[j].memCapacity
  }

  lemma SameNodesKnown(a: Ledger, b: Ledger)
    requires SameNodes(a, b)
    ensures forall n :: Known(a, n) <==> Known(b, n)
  {
    SameIds(a, b);
  }

  lemma {:induction false} LoopKeepsNodes(docker: Docker, ledger: Ledger, spec: ServiceSpec, todo: seq<Replica>)
    ensures SameNodes(ledger, RefreshLoop(docker, ledger, spec, todo).ledger)
    decreases |todo|
  {
    if todo != [] {
      var r := todo[0];
      if r.status != Running {
        LoopKeepsNodes(docker, ledger, spec, todo[1..]);
      } else if !IsRunning(docker, r.container) {
        LoopKeepsNodes(docker - {r.container}, Deallocated(ledger, r.node, r.id, spec.cpu, spec.mem), spec, todo[1..]);
      } else {
        LoopKeepsNodes(docker, Allocated(ledger, r.node, r.id, spec.cpu, spec.mem), spec, todo[1..]);
      }
    }
  }

  lemma {:induction false} RemoveEachKeepsNodes(w: World, spec: ServiceSpec, rs: seq<Replica>)
    ensures SameNodes(w.ledger, RemoveEach(w, spec, rs).ledger)
    decreases |rs|
  {
    hide EndpointsOf, Merge, Without;
    if rs != [] {
      RemoveEachKeepsNodes(RemoveReplica(w, spec, rs[0]), spec, rs[1..]);
    }
  }

  lemma {:induction false} CreateFromKeepsNodes(
    w: World, spec: ServiceSpec, policy: Policy, supply: nat -> Launch, k: nat, n: nat)
    requires k <= n
    ensures SameNodes(w.ledger, CreateFrom(w, spec, policy, supply, k, n).ledger)
    decreases n - k
  {
    hide EndpointsOf, Merge, SelectNode;
    if k < n {
      CreateFromKeepsNodes(CreateReplica(w, spec, policy, supply(k)), spec, policy, supply, k + 1, n);
    }
  }

  lemma VisitKeepsNodes(w: World, svc: Service, policy: Policy, supply: nat -> Launch)
    ensures forall n :: Known(w.ledger, n) <==> Known(VisitService(w, svc, policy, supply).ledger, n)
  {
    hide RefreshLoop, RemoveEach, CreateFrom, EndpointsOf, Merge, RunningOf, StaleOf;
    if svc.status == Deleting {
      RemoveEachKeepsNodes(w, svc.spec, svc.replicas);
      SameNodesKnown(w.ledger, VisitService(w, svc, policy, supply).ledger);
    } else {
      PassKeepsNodes(w, svc, policy, supply);
      SameNodesKnown(w.ledger, VisitService(w, svc, policy, supply).ledger);
    }
  }

  lemma PassKeepsNodes(w: World, svc: Service, policy: Policy, supply: nat -> Launch)
    ensures SameNodes(w.ledger, ReconcileService(w, svc, policy, supply).ledger)
  {
    hide RefreshLoop, RemoveEach, CreateFrom, EndpointsOf, Merge, RunningOf, StaleOf;
    LoopKeepsNodes(w.docker, w.ledger, svc.spec, svc.replicas);
    var Refreshed(w1, s1) := Refresh(w, svc);
    var running := RunningOf(s1.replicas);
    var stale := StaleOf(running, svc.spec.image);
    RemoveEachKeepsNodes(w1, s1.spec, stale);
    var w2 := RemoveEach(w1, s1.spec, stale);
    var s2 := if stale != [] && svc.spec.name in w2.store then w2.store[svc.spec.name] else s1;
    var running2 := if stale == [] then running else RunningOf(s2.replicas);
    var d := svc.spec.replicas;
    if |running2| < d {
      CreateFromKeepsNodes(w2, s2.spec, policy, supply, 0, d - |running2|);
    } else if |running2| > d {
      RemoveEachKeepsNodes(w2, s2.spec, SliceFrom(running2, d));
    }
  }
}
