/** What a visit writes over: the reconcile loop puts back the whole record it listed, count and image included, when its
    look at Docker shows any difference. */
module Overwrites {
  import opened Nodes
  import opened Scheduler
  import opened Routing
  import opened Worlds
  import opened Reconcile
  import opened Runs
  import opened LateVisits

  // ---- What a refresh writes ----

  lemma LiveFrame(docker: Docker, docker': Docker, container: string)
    requires SameLiveContainers(docker, docker') && !IsRunning(docker, container)
    ensures SameLiveContainers(docker - {container}, docker')
  {}

  /** The refresh loop over any list and any ledger: what it keeps, and when it reports a change. */
  lemma {:induction false} LoopObserves(
    docker: Docker, docker0: Docker, ledger: Ledger, spec: ServiceSpec, todo: seq<Replica>)
    requires SameLiveContainers(docker, docker0)
    ensures var o := RefreshLoop(docker, ledger, spec, todo);
            && o.replicas == Observed(docker0, todo)
            && SameLiveContainers(o.docker, docker0)
            && (o.changed <==> Observed(docker0, todo) != todo)
    decreases |todo|
  {
    hide Allocated, Deallocated;
    if todo != [] {
      var r := todo[0];
      ObservedShorter(docker0, todo);
      if Dead(docker, r) {
        LiveFrame(docker, docker0, r.container);
        LoopObserves(
          docker - {r.container}, docker0, Deallocated(ledger, r.node, r.id, spec.cpu, spec.mem), spec, todo[1..]);
      } else {
        var ledger' := if r.status == Running then Allocated(ledger, r.node, r.id, spec.cpu, spec.mem) else ledger;
        LoopObserves(docker, docker0, ledger', spec, todo[1..]);
        SeenUnfolds(docker0, todo);
      }
    }
  }

  /** The look at Docker shows something else than the record says: a dead replica or a new address. */
  predicate SeesDifference(docker: Docker, svc: Service) {
    Observed(docker, svc.replicas) != svc.replicas
  }

  /** The store after a refresh with any record, however old. */
  lemma RefreshWrites(w: World, svc: Service)
    ensures var seen := svc.(replicas := Observed(w.docker, svc.replicas));
            && Refresh(w, svc).service == seen
            && Refresh(w, svc).world.store
               == if SeesDifference(w.docker, svc) then w.store[svc.spec.name := seen] else w.store
  {
    hide RefreshLoop, Observed, EndpointsOf, Merge;
    LoopObserves(w.docker, w.docker, w.ledger, svc.spec, svc.replicas);
    assert svc.(replicas := svc.replicas) == svc;
  }

  // ---- Nothing else writes a specification ----

  ghost predicate SameSpecs(store: Store, store': Store) {
    store'.Keys == store.Keys && forall s :: s in store ==> store'[s].spec == store[s].spec
  }

  lemma RemoveSpecs(w: World, spec: ServiceSpec, r: Replica)
    ensures SameSpecs(w.store, RemoveReplica(w, spec, r).store)
  {
    hide Deallocated, EndpointsOf, Merge;
  }

  lemma {:induction false} RemoveEachSpecs(w: World, spec: ServiceSpec, rs: seq<Replica>)
    ensures SameSpecs(w.store, RemoveEach(w, spec, rs).store)
    decreases |rs|
  {
    hide RemoveReplica;
    if rs != [] {
      RemoveSpecs(w, spec, rs[0]);
      RemoveEachSpecs(RemoveReplica(w, spec, rs[0]), spec, rs[1..]);
    }
  }

  lemma CreateSpecs(w: World, spec: ServiceSpec, policy: Policy, launch: Launch)
    ensures SameSpecs(w.store, CreateReplica(w, spec, policy, launch).store)
  {
    hide Allocated, SelectNode, EndpointsOf, Merge;
  }

  lemma {:induction false} CreateFromSpecs(
    w: World, spec: ServiceSpec, policy: Policy, supply: nat -> Launch, k: nat, n: nat)
    requires k <= n
    ensures SameSpecs(w.store, CreateFrom(w, spec, policy, supply, k, n).store)
    decreases n - k
  {
    hide CreateReplica;
    if k < n {
      CreateSpecs(w, spec, policy, supply(k));
      CreateFromSpecs(CreateReplica(w, spec, policy, supply(k)), spec, policy, supply, k + 1, n);
    }
  }

  lemma ScaleSpecs(w: World, spec: ServiceSpec, desired: int, running: seq<Replica>, policy: Policy, supply: nat -> Launch)
    ensures SameSpecs(w.store, Scale(w, spec, desired, running, policy, supply).store)
  {
    hide RemoveEach, CreateFrom;
    if |running| < desired {
      CreateFromSpecs(w, spec, policy, supply, 0, desired - |running|);
    } else if |running| > desired {
      RemoveEachSpecs(w, spec, SliceFrom(running, desired));
    }
  }

  lemma SettleSpecs(w: World, s: string)
    ensures SameSpecs(w.store, SettleStatus(w, s).store)
  {}

  lemma PassSpecs(w: World, svc: Service, policy: Policy, supply: nat -> Launch)
    ensures SameSpecs(Refresh(w, svc).world.store, ReconcileService(w, svc, policy, supply).store)
  {
    hide Refresh, RemoveEach, Scale, SettleStatus, RunningOf, StaleOf;
    var Refreshed(w1, s1) := Refresh(w, svc);
    var running := RunningOf(s1.replicas);
    var stale := StaleOf(running, svc.spec.image);
    var w2 := RemoveEach(w1, s1.spec, stale);
    var s2 := if stale != [] && svc.spec.name in w2.store then w2.store[svc.spec.name] else s1;
    var running2 := if stale == [] then running else RunningOf(s2.replicas);
    RemoveEachSpecs(w1, s1.spec, stale);
    ScaleSpecs(w2, s2.spec, svc.spec.replicas, running2, policy, supply);
    SettleSpecs(Scale(w2, s2.spec, svc.spec.replicas, running2, policy, supply), svc.spec.name);
  }

  // ---- Whose specification is left ----

  /** After a pass with any record, in any state: the listed specification if a difference was seen, else the stored one,
      and other services keep theirs. A service that is gone comes back exactly if a difference was seen. */
  lemma PassWrites(w: World, svc: Service, policy: Policy, supply: nat -> Launch)
    ensures var end, s := ReconcileService(w, svc, policy, supply), svc.spec.name;
            && end.store.Keys == w.store.Keys + (if SeesDifference(w.docker, svc) then {s} else {})
            && (forall t :: t in end.store ==>
                  end.store[t].spec == if t == s && SeesDifference(w.docker, svc) then svc.spec else w.store[t].spec)
  {
    hide Refresh, ReconcileService, SeesDifference, Observed;
    RefreshWrites(w, svc);
    PassSpecs(w, svc, policy, supply);
  }

  /** A visit that does not tear its service down leaves the stored count alone if and only if the look at Docker shows no
      difference or the listed count is the stored one; the same for the image. It leaves a missing service missing if and
      only if the look shows no difference. */
  lemma VisitLeavesIff(w: World, svc: Service, policy: Policy, supply: nat -> Launch)
    requires svc.status != Deleting
    ensures var end, s := VisitService(w, svc, policy, supply), svc.spec.name;
            && (s in w.store ==>
                  && s in end.store
                  && (end.store[s].spec.replicas == w.store[s].spec.replicas
                      <==> !SeesDifference(w.docker, svc) || svc.spec.replicas == w.store[s].spec.replicas)
                  && (end.store[s].spec.image == w.store[s].spec.image
                      <==> !SeesDifference(w.docker, svc) || svc.spec.image == w.store[s].spec.image))
            && (s !in w.store ==> (s !in end.store <==> !SeesDifference(w.docker, svc)))
  {
    hide ReconcileService, SeesDifference;
    PassWrites(w, svc, policy, supply);
  }

  /** Tearing a service down changes no other specification. */
  lemma TeardownSpecs(w: World, svc: Service)
    ensures SameSpecs(w.store - {svc.spec.name}, TeardownService(w, svc).store)
  {
    hide RemoveEach;
    RemoveEachSpecs(w, svc.spec, svc.replicas);
  }
}
