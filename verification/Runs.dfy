/** Ledger conservation and routing agreement over whole runs of the platform. */
module Runs {
  import opened Nodes
  import opened Scheduler
  import opened Routing
  import opened Worlds
  import opened Reconcile
  import opened ReconcileProofs
  import opened Convergence

  datatype Step =
    | Visit(service: string, policy: Policy, supply: nat -> Launch)  // one turn of the reconcile loop
    | DeleteNow(service: string)                                     // the public `delete_service`
    | ContainerStops(container: string)
    | ContainerVanishes(container: string)
    | AddService(spec: ServiceSpec)
    | SetCount(service: string, replicas: int)
    | SetImage(service: string, image: string)
    | SetStatus(service: string, status: Status)
    | ReportHealth(replica: string, healthy: bool, keys: seq<string>)

  /** The body of the loop in `_reconcile_all`, given the service record the listing returned. */
  function VisitService(w: World, svc: Service, policy: Policy, supply: nat -> Launch): World {
    if svc.status == Deleting then TeardownService(w, svc) else ReconcileService(w, svc, policy, supply)
  }

  function Put(w: World, s: string, svc: Service): World {
    w.(store := w.store[s := svc])
  }

  function After(w: World, step: Step): World {
    match step
    case Visit(s, policy, supply) => if s in w.store then VisitService(w, w.store[s], policy, supply) else w
    case DeleteNow(s) => DeleteService(w, s)
    case ContainerStops(c) =>
      if c in w.docker then w.(docker := w.docker[c := w.docker[c].(running := false)]) else w
    case ContainerVanishes(c) => w.(docker := w.docker - {c})
    case AddService(spec) => if spec.name in w.store then w else Put(w, spec.name, Service(spec, Pending, []))
    case SetCount(s, n) =>
      if s in w.store then Put(w, s, w.store[s].(spec := w.store[s].spec.(replicas := n))) else w
    case SetImage(s, image) =>
      if s in w.store then Put(w, s, w.store[s].(spec := w.store[s].spec.(image := image))) else w
    case SetStatus(s, status) => if s in w.store then Put(w, s, w.store[s].(status := status)) else w
    case ReportHealth(r, h, keys) => w.(routes := SetAll(w.routes, keys, r, h))
  }

  function Run(w: World, steps: seq<Step>): World
    decreases |steps|
  {
    if steps == [] then w else Run(After(w, steps[0]), steps[1..])
  }

  /** New replica ids and container ids have not been used in the store or in Docker; requests are not negative. */
  ghost predicate Legal(w: World, step: Step) {
    match step
    case Visit(_, _, supply) =>
      && (forall i, s, j :: supply(i).Launched? ==> !Holds(w.store, s, j, supply(i).id))
      && (forall i :: supply(i).Launched? ==> supply(i).container !in w.docker)
      && (forall i, j :: 0 <= i < j && supply(i).Launched? && supply(j).Launched? ==>
            supply(i).id != supply(j).id && supply(i).container != supply(j).container)
    case AddService(spec) => spec.cpu >= 0 && spec.mem >= 0
    case _ => true
  }

  ghost predicate LegalRun(w: World, steps: seq<Step>)
    decreases |steps|
  {
    steps == [] || (Legal(w, steps[0]) && LegalRun(After(w, steps[0]), steps[1..]))
  }

  /** Every service's routes are its running replicas with an address, in store order; no route outlives its service. */
  ghost predicate RoutesMatch(w: World) {
    && TidyRoutes(w.routes)
    && (forall s :: s in w.routes ==> s in w.store)
    && (forall s :: s in w.store ==>
          Bare(Get(w.routes, s)) == EndpointsOf(w.store[s].replicas, w.store[s].spec.port))
  }

  lemma RoutesMatchIff(w: World)
    ensures RoutesMatch(w)
       <==> && TidyRoutes(w.routes)
            && (forall s :: s in w.routes ==> s in w.store)
            && (forall s :: s in w.store ==>
                  Serves(Get(w.routes, s), w.store[s].replicas, w.store[s].spec.port))
  {
    hide EndpointsOf, Bare, Serves, Get;
    forall s | s in w.store
      ensures Bare(Get(w.routes, s)) == EndpointsOf(w.store[s].replicas, w.store[s].spec.port)
         <==> Serves(Get(w.routes, s), w.store[s].replicas, w.store[s].spec.port) {
      ServesIff(Get(w.routes, s), w.store[s].replicas, w.store[s].spec.port);
    }
  }

  // ---- Teardown ----

  lemma ForgetService(w: World, s: string, claims: Claims)
    requires Consistent(w, claims) && s in w.store && w.store[s].replicas == []
    ensures Consistent(w.(store := w.store - {s}, routes := w.routes - {s}), claims)
  {
    var store' := w.store - {s};
    forall t, j, x ensures Holds(store', t, j, x) <==> Holds(w.store, t, j, x) {
    }
    forall x | x in claims ensures exists t, j :: Holds(store', t, j, x) {
      var t, j :| Holds(w.store, t, j, x);
      assert Holds(store', t, j, x);
    }
  }

  /** Tearing a service down gives back exactly what its replicas held. */
  lemma TeardownKeeps(w: World, s: string, claims: Claims)
    requires Consistent(w, claims) && TidyRoutes(w.routes) && s in w.store
    ensures var svc := w.store[s];
            var w' := TeardownService(w, svc);
            && Consistent(w', claims - Ids(svc.replicas))
            && w'.store == w.store - {s} && w'.routes == w.routes - {s}
            && w'.docker == w.docker - Containers(svc.replicas)
  {
    hide Consistent, TidyRoutes, RemoveEach;
    var svc := w.store[s];
    ConsistentIsUnique(w, s, claims);
    CurrentCopies(w, s, svc.replicas, claims);
    RemoveEachKeeps(w, s, svc.replicas, claims);
    RemoveEachNone(w, svc.spec);
    forall r | r in svc.replicas ensures r.id in Ids(svc.replicas) {
    }
    WithoutAll(svc.replicas, Ids(svc.replicas));
    var w1 := RemoveEach(w, svc.spec, svc.replicas);
    ForgetService(w1, s, claims - Ids(svc.replicas));
    assert w1.store - {s} == w.store - {s};
    assert w1.routes - {s} == w.routes - {s};
  }

  ghost predicate SameBut(w: World, v: World, s: string) {
    w.docker == v.docker && w.ledger == v.ledger && w.store - {s} == v.store - {s} && w.routes - {s} == v.routes - {s}
  }

  lemma {:induction false} RemoveEachIsReleaseEach(w: World, v: World, spec: ServiceSpec, rs: seq<Replica>)
    requires SameBut(w, v, spec.name) && forall s :: s in w.store ==> w.store[s].spec.name == s
    ensures SameBut(RemoveEach(w, spec, rs), ReleaseEach(v, spec, rs), spec.name)
    decreases |rs|
  {
    hide EndpointsOf, Without, Merge;
    if rs != [] {
      var w1 := RemoveReplica(w, spec, rs[0]);
      var v1 := v.(docker := v.docker - {rs[0].container},
                   ledger := Deallocated(v.ledger, rs[0].node, rs[0].id, spec.cpu, spec.mem));
      assert w1.store - {spec.name} == w.store - {spec.name};
      assert w1.routes - {spec.name} == w.routes - {spec.name};
      RemoveEachIsReleaseEach(w1, v1, spec, rs[1..]);
    }
  }

  /** The two ways of deleting a service, one replica record at a time or all at once, end in the same state. */
  lemma DeleteIsTeardown(w: World, s: string)
    requires s in w.store && forall t :: t in w.store ==> w.store[t].spec.name == t
    ensures DeleteService(w, s) == TeardownService(w, w.store[s])
  {
    RemoveEachIsReleaseEach(w, w, w.store[s].spec, w.store[s].replicas);
  }

  // ---- Every step keeps the ledger exact ----

  lemma LegalIsFresh(w: World, step: Step, claims: Claims)
    requires Consistent(w, claims) && step.Visit? && Legal(w, step)
    ensures FreshSupply(step.supply, 0, claims, w.docker)
  {
    forall i: nat | step.supply(i).Launched? ensures step.supply(i).id !in claims {
    }
  }

  lemma PutKeeps(w: World, s: string, svc: Service, claims: Claims)
    requires Consistent(w, claims) && s in w.store
    requires svc.spec.name == s && svc.spec.cpu == w.store[s].spec.cpu && svc.spec.mem == w.store[s].spec.mem
    requires svc.replicas == w.store[s].replicas
    ensures Consistent(Put(w, s, svc), claims)
  {
    TouchService(w.store, s, svc, claims);
  }

  lemma AddServiceKeeps(w: World, spec: ServiceSpec, claims: Claims)
    requires Consistent(w, claims) && spec.name !in w.store && spec.cpu >= 0 && spec.mem >= 0
    ensures Consistent(Put(w, spec.name, Service(spec, Pending, [])), claims)
  {
    var store' := w.store[spec.name := Service(spec, Pending, [])];
    forall t, j, x ensures Holds(store', t, j, x) <==> Holds(w.store, t, j, x) {
    }
    forall x | x in claims ensures exists t, j :: Holds(store', t, j, x) {
      var t, j :| Holds(w.store, t, j, x);
      assert Holds(store', t, j, x);
    }
  }

  lemma StepKeepsLedger(w: World, step: Step, claims: Claims) returns (claims': Claims)
    requires Consistent(w, claims) && TidyRoutes(w.routes) && Legal(w, step)
    ensures Consistent(After(w, step), claims')
  {
    claims' := claims;
    match step
    case Visit(s, policy, supply) =>
      if s in w.store {
        if w.store[s].status == Deleting {
          TeardownKeeps(w, s, claims);
          claims' := claims - Ids(w.store[s].replicas);
        } else {
          LegalIsFresh(w, step, claims);
          claims' := PassKeeps(w, s, policy, supply, claims);
        }
      }
    case DeleteNow(s) =>
      if s in w.store {
        DeleteIsTeardown(w, s);
        TeardownKeeps(w, s, claims);
        claims' := claims - Ids(w.store[s].replicas);
      }
    case ContainerStops(_) =>
    case ContainerVanishes(_) =>
    case AddService(spec) => if spec.name !in w.store { AddServiceKeeps(w, spec, claims); }
    case SetCount(s, n) => if s in w.store { PutKeeps(w, s, w.store[s].(spec := w.store[s].spec.(replicas := n)), claims); }
    case SetImage(s, i) => if s in w.store { PutKeeps(w, s, w.store[s].(spec := w.store[s].spec.(image := i)), claims); }
    case SetStatus(s, status) => if s in w.store { PutKeeps(w, s, w.store[s].(status := status), claims); }
    case ReportHealth(_, _, _) =>
  }

  // ---- Every step keeps routes and store in agreement ----

  lemma FlipIsBareNeutral(endpoints: seq<Endpoint>, replica: string, healthy: bool)
    ensures Bare(FlipAll(endpoints, replica, healthy)) == Bare(endpoints)
    ensures UniqueReplicas(endpoints) ==> UniqueReplicas(FlipAll(endpoints, replica, healthy))
  {
  }

  lemma {:induction false} ReportKeepsRoutes(routes: Table, keys: seq<string>, replica: string, healthy: bool)
    ensures var routes' := SetAll(routes, keys, replica, healthy);
            && routes'.Keys == routes.Keys
            && (forall s :: Bare(Get(routes', s)) == Bare(Get(routes, s)))
            && (TidyRoutes(routes) ==> TidyRoutes(routes'))
  {
    if keys != [] {
      if Lists(Get(routes, keys[0]), replica) {
        FlipIsBareNeutral(Get(routes, keys[0]), replica, healthy);
      } else {
        ReportKeepsRoutes(routes, keys[1..], replica, healthy);
      }
    }
  }

  lemma VisitKeepsRoutes(w: World, w': World, s: string, running: seq<Replica>, claims': Claims)
    requires RoutesMatch(w) && s in w.store && Passed(w, w', s, running, claims')
    ensures RoutesMatch(w')
  {
    hide Consistent, RunningOf, EndpointsOf;
  }

  lemma ForgetKeepsRoutes(w: World, w': World, s: string)
    requires RoutesMatch(w) && w'.store == w.store - {s} && w'.routes == w.routes - {s}
    ensures RoutesMatch(w')
  {
    hide EndpointsOf;
  }

  lemma PutKeepsRoutes(w: World, s: string, svc: Service)
    requires RoutesMatch(w) && (s in w.store || (s !in w.routes && svc.replicas == []))
    requires s in w.store ==> svc.replicas == w.store[s].replicas && svc.spec.port == w.store[s].spec.port
    ensures RoutesMatch(Put(w, s, svc))
  {
    assert Bare([]) == EndpointsOf([], svc.spec.port);
  }

  lemma VisitStepKeepsRoutes(w: World, step: Step, claims: Claims)
    requires Consistent(w, claims) && RoutesMatch(w) && Legal(w, step) && step.Visit? && step.service in w.store
    ensures RoutesMatch(After(w, step))
  {
    hide Consistent, RoutesMatch, ReconcileService, TeardownService, ScaledRunning, AfterStale, Kept, FreshSupply, Passed;
    var s, svc := step.service, w.store[step.service];
    TidyOf(w);
    if svc.status == Deleting {
      TeardownKeeps(w, s, claims);
      ForgetKeepsRoutes(w, After(w, step), s);
    } else {
      LegalIsFresh(w, step, claims);
      var claims' := PassKeeps(w, s, step.policy, step.supply, claims);
      VisitKeepsRoutes(w, After(w, step), s, ScaledRunning(AfterStale(w, svc), svc.spec, svc.spec.replicas,
                       Kept(w.docker, svc), step.policy, step.supply), claims');
    }
  }

  lemma NameOf(w: World, s: string, claims: Claims)
    requires Consistent(w, claims) && s in w.store
    ensures forall t :: t in w.store ==> w.store[t].spec.name == t
  {
  }

  lemma ReportStepKeepsRoutes(w: World, step: Step)
    requires RoutesMatch(w) && step.ReportHealth?
    ensures RoutesMatch(After(w, step))
  {
    hide EndpointsOf, SetAll;
    ReportKeepsRoutes(w.routes, step.keys, step.replica, step.healthy);
  }

  lemma StepKeepsRoutes(w: World, step: Step, claims: Claims)
    requires Consistent(w, claims) && RoutesMatch(w) && Legal(w, step)
    ensures RoutesMatch(After(w, step))
  {
    hide Consistent, TeardownService, DeleteService, VisitService, Bare, EndpointsOf, SetAll, Legal;
    match step
    case Visit(s, policy, supply) => if s in w.store { VisitStepKeepsRoutes(w, step, claims); }
    case DeleteNow(s) =>
      if s in w.store {
        NameOf(w, s, claims);
        DeleteIsTeardown(w, s);
        TeardownKeeps(w, s, claims);
        ForgetKeepsRoutes(w, After(w, step), s);
      } else {
        DeleteMissing(w, s);
      }
    case ContainerStops(_) =>
    case ContainerVanishes(_) =>
    case AddService(spec) => if spec.name !in w.store { PutKeepsRoutes(w, spec.name, Service(spec, Pending, [])); }
    case SetCount(s, n) =>
      if s in w.store { PutKeepsRoutes(w, s, w.store[s].(spec := w.store[s].spec.(replicas := n))); }
    case SetImage(s, image) =>
      if s in w.store { PutKeepsRoutes(w, s, w.store[s].(spec := w.store[s].spec.(image := image))); }
    case SetStatus(s, status) => if s in w.store { PutKeepsRoutes(w, s, w.store[s].(status := status)); }
    case ReportHealth(_, _, _) => ReportStepKeepsRoutes(w, step);
  }

  lemma DeleteMissing(w: World, s: string)
    requires s !in w.store
    ensures DeleteService(w, s) == w
  {
  }

  /** Over every run, from any exact state: each node's usage is the sum of the requests of exactly the replicas the
      store puts there, no node is over capacity, and each service's routes are its running addressable replicas. */
  lemma {:induction false} RunsConserve(w: World, steps: seq<Step>)
    requires Accounted(w) && RoutesMatch(w) && LegalRun(w, steps)
    ensures var end := Run(w, steps);
            && Accounted(end) && RoutesMatch(end)
            && (forall s :: s in end.routes ==> s in end.store)
            && (forall s :: s in end.store ==>
                  Serves(Get(end.routes, s), end.store[s].replicas, end.store[s].spec.port))
    decreases |steps|
  {
    RoutesMatchIff(Run(w, steps));
    hide Serves;
    if steps != [] {
      hide Accounted, RoutesMatch, After, Legal;
      StepConserves(w, steps[0]);
      RunsConserve(After(w, steps[0]), steps[1..]);
    }
  }

  lemma TidyOf(w: World)
    requires RoutesMatch(w)
    ensures TidyRoutes(w.routes)
  {
  }

  /** The platform starts exact: an empty store and unused nodes. */
  lemma StartIsAccounted(nodes: Ledger)
    requires UniqueNodes(nodes)
    requires forall n :: n in nodes ==> n.cpuUsed == 0 && n.memUsed == 0 && n.replicaIds == []
    requires forall n :: n in nodes ==> n.cpuCapacity >= 0 && n.memCapacity >= 0
    ensures var w := World(map[], map[], nodes, map[]); Accounted(w) && RoutesMatch(w)
  {
    var w := World(map[], map[], nodes, map[]);
    assert Consistent(w, map[]);
  }

  // ---- A whole turn of the reconcile loop ----

  /** One turn of `_reconcile_all`: every record is the one listed before the turn began. */
  function Turn(w: World, snapshot: seq<Service>, policy: Policy, supplies: seq<nat -> Launch>): World
    requires |snapshot| == |supplies|
    decreases |snapshot|
  {
    if snapshot == [] then w
    else Turn(VisitService(w, snapshot[0], policy, supplies[0]), snapshot[1..], policy, supplies[1..])
  }

  function Visits(snapshot: seq<Service>, policy: Policy, supplies: seq<nat -> Launch>): (steps: seq<Step>)
    requires |snapshot| == |supplies|
    ensures |steps| == |snapshot|
  {
    if snapshot == [] then []
    else [Visit(snapshot[0].spec.name, policy, supplies[0])] + Visits(snapshot[1..], policy, supplies[1..])
  }

  /** The records listed before the turn are still what the store holds when each one's visit comes, so a turn is the
      same as visiting every service with a fresh read. */
  lemma {:induction false} ListedRecordsStayCurrent(
    w: World, snapshot: seq<Service>, policy: Policy, supplies: seq<nat -> Launch>)
    requires |snapshot| == |supplies|
    requires Accounted(w) && RoutesMatch(w) && LegalRun(w, Visits(snapshot, policy, supplies))
    requires forall i :: 0 <= i < |snapshot| ==>
               snapshot[i].spec.name in w.store && w.store[snapshot[i].spec.name] == snapshot[i]
    requires forall i, j :: 0 <= i < j < |snapshot| ==> snapshot[i].spec.name != snapshot[j].spec.name
    ensures Turn(w, snapshot, policy, supplies) == Run(w, Visits(snapshot, policy, supplies))
    decreases |snapshot|
  {
    if snapshot != [] {
      hide Accounted, RoutesMatch, Legal, After, VisitService, Serves, Get;
      VisitReads(w, snapshot[0].spec.name, policy, supplies[0]);
      var s, steps := snapshot[0].spec.name, Visits(snapshot, policy, supplies);
      assert steps[1..] == Visits(snapshot[1..], policy, supplies[1..]);
      assert steps[0] == Visit(s, policy, supplies[0]);
      var w1 := After(w, steps[0]);
      StepConserves(w, steps[0]);
      VisitTouchesOnlyItsService(w, steps[0]);
      ListedRecordsStayCurrent(w1, snapshot[1..], policy, supplies[1..]);
    }
  }

  lemma StepConserves(w: World, step: Step)
    requires Accounted(w) && RoutesMatch(w) && Legal(w, step)
    ensures Accounted(After(w, step)) && RoutesMatch(After(w, step))
  {
    hide Consistent, RoutesMatch, After, Legal;
    var claims :| Consistent(w, claims);
    TidyOf(w);
    var claims' := StepKeepsLedger(w, step, claims);
    StepKeepsRoutes(w, step, claims);
  }

  lemma VisitReads(w: World, s: string, policy: Policy, supply: nat -> Launch)
    requires s in w.store
    ensures After(w, Visit(s, policy, supply)) == VisitService(w, w.store[s], policy, supply)
  {}

  lemma VisitTouchesOnlyItsService(w: World, step: Step)
    requires Accounted(w) && RoutesMatch(w) && Legal(w, step) && step.Visit?
    ensures forall t :: t != step.service && t in w.store ==> t in After(w, step).store && After(w, step).store[t] == w.store[t]
  {
    hide Consistent;
    var claims :| Consistent(w, claims);
    var s := step.service;
    if s in w.store {
      if w.store[s].status == Deleting {
        TeardownKeeps(w, s, claims);
      } else {
        LegalIsFresh(w, step, claims);
        var _ := PassKeeps(w, s, step.policy, step.supply, claims);
      }
    }
  }
}
