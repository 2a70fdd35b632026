/** No two replicas of a service share a container, in any run: what settling a service relies on. */
module OwnedContainers {
  import opened Wrappers
  import opened Nodes
  import opened Scheduler
  import opened Routing
  import opened Worlds
  import opened Reconcile
  import opened ReconcileProofs
  import opened Convergence
  import opened Quiescence
  import opened Runs
  import opened Platforms
  import opened Overwrites
  import opened Rollouts

  /** Every record, stored or listed, has containers of its own. */
  ghost predicate AllOwn(p: Platform) {
    && StoreOwn(p.world.store)
    && forall k :: 0 <= k < |p.listed| ==> OwnContainers(p.listed[k].replicas)
  }

  ghost predicate StoreOwn(store: Store) {
    forall s :: s in store ==> OwnContainers(store[s].replicas)
  }

  /** From the k-th on, the launched containers differ from each other and from the recorded ones. */
  ghost predicate Unused(supply: nat -> Launch, k: nat, store: Store) {
    && (forall i, s, r :: i >= k && supply(i).Launched? && s in store && r in store[s].replicas ==>
          supply(i).container != r.container)
    && (forall i, j :: k <= i < j && supply(i).Launched? && supply(j).Launched? ==>
          supply(i).container != supply(j).container)
  }

  ghost predicate UnusedBy(supply: nat -> Launch, rs: seq<Replica>) {
    forall i: nat, r :: supply(i).Launched? && r in rs ==> supply(i).container != r.container
  }

  /** A container id is never given out twice. */
  ghost predicate NewContainers(p: Platform, m: Move) {
    match m
    case VisitNext(_, supply) =>
      Unused(supply, 0, p.world.store) && (p.listed != [] ==> UnusedBy(supply, p.listed[0].replicas))
    case Other(step) => step.Visit? ==> Unused(step.supply, 0, p.world.store)
    case _ => true
  }

  ghost predicate NewContainersAlong(p: Platform, moves: seq<Move>)
    decreases |moves|
  {
    moves == [] || (NewContainers(p, moves[0]) && NewContainersAlong(Moved(p, moves[0]), moves[1..]))
  }

  // ---- Removing and creating ----

  /** Every record's containers were that record's before. */
  ghost predicate NoMore(store: Store, store': Store) {
    forall s :: s in store' ==> s in store && Containers(store'[s].replicas) <= Containers(store[s].replicas)
  }

  lemma {:induction false} OwnWithout(rs: seq<Replica>, ids: set<string>)
    requires OwnContainers(rs)
    ensures OwnContainers(Without(rs, ids)) && Containers(Without(rs, ids)) <= Containers(rs)
  {
    WithoutMembers(rs, ids);
    if rs != [] {
      OwnTail(rs);
      OwnWithout(rs[1..], ids);
      if rs[0].id !in ids {
        OwnCons(rs[0], Without(rs[1..], ids));
      }
    }
  }

  lemma RemoveOwn(w: World, spec: ServiceSpec, r: Replica)
    requires StoreOwn(w.store)
    ensures StoreOwn(RemoveReplica(w, spec, r).store) && NoMore(w.store, RemoveReplica(w, spec, r).store)
  {
    hide Deallocated, EndpointsOf, Merge, OwnContainers, Containers;
    if spec.name in w.store {
      OwnWithout(w.store[spec.name].replicas, {r.id});
    }
  }

  lemma {:induction false} RemoveEachOwn(w: World, spec: ServiceSpec, rs: seq<Replica>)
    requires StoreOwn(w.store)
    ensures StoreOwn(RemoveEach(w, spec, rs).store) && NoMore(w.store, RemoveEach(w, spec, rs).store)
    decreases |rs|
  {
    hide RemoveReplica, StoreOwn, Containers;
    if rs != [] {
      RemoveOwn(w, spec, rs[0]);
      RemoveEachOwn(RemoveReplica(w, spec, rs[0]), spec, rs[1..]);
    }
  }

  lemma StillUnused(supply: nat -> Launch, k: nat, store: Store, store': Store)
    requires Unused(supply, k, store) && NoMore(store, store')
    ensures Unused(supply, k, store')
  {
    forall s, r | s in store' && r in store'[s].replicas
      ensures exists x :: x in store[s].replicas && x.container == r.container {
      assert r.container in Containers(store[s].replicas);
    }
  }

  lemma CreateOwn(w: World, spec: ServiceSpec, policy: Policy, supply: nat -> Launch, k: nat)
    requires StoreOwn(w.store) && Unused(supply, k, w.store)
    ensures var store' := CreateReplica(w, spec, policy, supply(k)).store;
            StoreOwn(store') && Unused(supply, k + 1, store')
  {
    hide Allocated, EndpointsOf, Merge, SelectNode;
    var r := Started(w.ledger, spec, policy, supply(k));
    if r.Some? && spec.name in w.store {
      var rs := w.store[spec.name].replicas;
      forall i | 0 <= i < |rs| ensures rs[i].container != r.value.container {
        assert rs[i] in rs;
      }
    }
  }

  lemma {:induction false} CreateFromOwn(
    w: World, spec: ServiceSpec, policy: Policy, supply: nat -> Launch, k: nat, n: nat)
    requires StoreOwn(w.store) && Unused(supply, k, w.store) && k <= n
    ensures StoreOwn(CreateFrom(w, spec, policy, supply, k, n).store)
    decreases n - k
  {
    hide CreateReplica, StoreOwn, Unused;
    if k < n {
      CreateOwn(w, spec, policy, supply, k);
      CreateFromOwn(CreateReplica(w, spec, policy, supply(k)), spec, policy, supply, k + 1, n);
    }
  }

  lemma ScaleOwn(w: World, spec: ServiceSpec, desired: int, running: seq<Replica>, policy: Policy, supply: nat -> Launch)
    requires StoreOwn(w.store) && Unused(supply, 0, w.store)
    ensures StoreOwn(Scale(w, spec, desired, running, policy, supply).store)
  {
    hide CreateFrom, RemoveEach, StoreOwn, Unused;
    if |running| < desired {
      CreateFromOwn(w, spec, policy, supply, 0, desired - |running|);
    } else if |running| > desired {
      RemoveEachOwn(w, spec, SliceFrom(running, desired));
    }
  }

  lemma SettleOwn(w: World, s: string)
    requires StoreOwn(w.store)
    ensures StoreOwn(SettleStatus(w, s).store)
  {
    hide OwnContainers;
  }

  // ---- Visits and runs ----

  lemma RefreshOwn(w: World, svc: Service, supply: nat -> Launch)
    requires StoreOwn(w.store) && OwnContainers(svc.replicas)
    requires Unused(supply, 0, w.store) && UnusedBy(supply, svc.replicas)
    ensures StoreOwn(Refresh(w, svc).world.store) && Unused(supply, 0, Refresh(w, svc).world.store)
  {
    hide Refresh, OwnContainers, Observed;
    var seen := Observed(w.docker, svc.replicas);
    RefreshWrites(w, svc);
    ObservedUp(w.docker, svc.replicas);
    forall r | r in seen ensures exists x :: x in svc.replicas && x.container == r.container {
      assert r.container in Containers(seen);
    }
  }

  lemma PassOwn(w: World, svc: Service, policy: Policy, supply: nat -> Launch)
    requires StoreOwn(w.store) && OwnContainers(svc.replicas)
    requires Unused(supply, 0, w.store) && UnusedBy(supply, svc.replicas)
    ensures StoreOwn(ReconcileService(w, svc, policy, supply).store)
  {
    hide Refresh, RemoveEach, Scale, SettleStatus, RunningOf, StaleOf, StoreOwn, Unused, UnusedBy, NoMore;
    RefreshOwn(w, svc, supply);
    var Refreshed(w1, s1) := Refresh(w, svc);
    var stale := StaleOf(RunningOf(s1.replicas), svc.spec.image);
    var w2 := RemoveEach(w1, s1.spec, stale);
    var s2 := if stale != [] && svc.spec.name in w2.store then w2.store[svc.spec.name] else s1;
    var running2 := if stale == [] then RunningOf(s1.replicas) else RunningOf(s2.replicas);
    RemoveEachOwn(w1, s1.spec, stale);
    StillUnused(supply, 0, w1.store, w2.store);
    ScaleOwn(w2, s2.spec, svc.spec.replicas, running2, policy, supply);
    SettleOwn(Scale(w2, s2.spec, svc.spec.replicas, running2, policy, supply), svc.spec.name);
  }

  lemma VisitOwn(w: World, svc: Service, policy: Policy, supply: nat -> Launch)
    requires StoreOwn(w.store) && OwnContainers(svc.replicas)
    requires Unused(supply, 0, w.store) && UnusedBy(supply, svc.replicas)
    ensures StoreOwn(VisitService(w, svc, policy, supply).store)
  {
    hide ReconcileService, RemoveEach, OwnContainers, Unused, UnusedBy;
    if svc.status == Deleting {
      RemoveEachOwn(w, svc.spec, svc.replicas);
    } else {
      PassOwn(w, svc, policy, supply);
    }
  }

  lemma {:induction false} RecordsOwn(store: Store, order: seq<string>)
    requires StoreOwn(store)
    ensures forall k :: 0 <= k < |RecordsOf(store, order)| ==> OwnContainers(RecordsOf(store, order)[k].replicas)
  {
    hide OwnContainers;
    if order != [] {
      RecordsOwn(store, order[1..]);
    }
  }

  /** In any state, sound or not. */
  lemma MoveKeepsOwn(p: Platform, m: Move)
    requires AllOwn(p) && NewContainers(p, m)
    ensures AllOwn(Moved(p, m))
  {
    hide VisitService, RemoveEach, ReleaseEach, SetAll, OwnContainers, Unused, UnusedBy;
    var w := p.world;
    match m
    case List(order) => RecordsOwn(w.store, order);
    case VisitNext(policy, supply) => if p.listed != [] { VisitOwn(w, p.listed[0], policy, supply); }
    case RemoveOld(s, copies) => if s in w.store { RemoveEachOwn(w, w.store[s].spec, copies); }
    case Edit(_, _) =>
    case Other(step) => StepKeepsOwn(w, step);
  }

  lemma StepKeepsOwn(w: World, step: Step)
    requires StoreOwn(w.store) && (step.Visit? ==> Unused(step.supply, 0, w.store))
    ensures StoreOwn(After(w, step).store)
  {
    hide VisitService, ReleaseEach, SetAll, Unused;
    match step
    case Visit(s, policy, supply) =>
      if s in w.store {
        RecordUnused(w.store, s, supply);
        VisitOwn(w, w.store[s], policy, supply);
      }
    case DeleteNow(s) => if s in w.store { ReleaseKeepsStore(w, w.store[s].spec, w.store[s].replicas); }
    case _ =>
  }

  lemma RecordUnused(store: Store, s: string, supply: nat -> Launch)
    requires s in store && Unused(supply, 0, store)
    ensures UnusedBy(supply, store[s].replicas)
  {}

  lemma {:induction false} RunKeepsOwn(p: Platform, moves: seq<Move>)
    requires AllOwn(p) && NewContainersAlong(p, moves)
    ensures AllOwn(RunMoves(p, moves))
    decreases |moves|
  {
    hide Moved, AllOwn, NewContainers;
    if moves != [] {
      MoveKeepsOwn(p, moves[0]);
      RunKeepsOwn(Moved(p, moves[0]), moves[1..]);
    }
  }

  /** Wherever a run of harmless moves has led from a sound platform: visit a service, then visit it again with nothing
      changed in between, and the second visit leaves the whole state as it is exactly when the wanted count is not
      negative or the first had nothing left to keep. */
  lemma SettlesAfterAnyRun(
    start: Platform, moves: seq<Move>, s: string, policy: Policy, supply: nat -> Launch, supply': nat -> Launch)
    requires Sound(start) && AllOwn(start)
    requires LegalMoves(start, moves) && HarmlessMoves(start, moves) && NewContainersAlong(start, moves)
    requires s in RunMoves(start, moves).world.store
    requires Legal(RunMoves(start, moves).world, Visit(s, policy, supply)) && FaithfulAddresses(supply)
    requires forall i :: supply(i).Launched?
    ensures var w := RunMoves(start, moves).world;
            var w' := ReconcileService(w, w.store[s], policy, supply);
            s in w'.store &&
            (ReconcileService(w', w'.store[s], policy, supply') == w'
             <==> Reachable(w.store[s].spec.replicas, |Kept(w.docker, w.store[s])|))
  {
    hide RunMoves, LegalMoves, HarmlessMoves, NewContainersAlong, ReconcileService, Sound, Consistent, Legal, OwnContainers,
         Kept, FreshSupply, FaithfulAddresses;
    RunExactIff(start, moves);
    RunKeepsOwn(start, moves);
    var w := RunMoves(start, moves).world;
    SoundIsTidy(RunMoves(start, moves));
    var claims :| Consistent(w, claims);
    LegalIsFresh(w, Visit(s, policy, supply), claims);
    SecondPassIsIdleIff(w, s, policy, supply, supply', claims);
  }

  lemma SoundIsTidy(p: Platform)
    requires Sound(p)
    ensures TidyRoutes(p.world.routes) && exists claims :: Consistent(p.world, claims)
  {}
}
