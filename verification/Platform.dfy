/** The platform with its interleavings: the reconcile loop works off a list of records read when its turn began, while
    rollouts, deletions, edits and container failures happen in between. */
module Platforms {
  import opened Wrappers
  import opened Nodes
  import opened Scheduler
  import opened Routing
  import opened Worlds
  import opened Reconcile
  import opened ReconcileProofs
  import opened Convergence
  import opened Runs
  import opened Edits
  import opened Outdated
  import opened LateVisits
  import opened Lineage

  /** `listed` holds the records that the current turn has still to visit. */
  datatype Platform = Platform(world: World, listed: seq<Service>)

  datatype Move =
    | List(order: seq<string>)                                 // a turn begins
    | VisitNext(policy: Policy, supply: nat -> Launch)         // the next listed record is visited
    | RemoveOld(service: string, copies: seq<Replica>)         // a rollout removes a batch it copied earlier
    | Edit(service: string, spec: ServiceSpec)                 // a specification is replaced as a whole
    | Other(step: Step)                                        // anything else, between two visits

  function RecordsOf(store: Store, order: seq<string>): seq<Service> {
    if order == [] then []
    else (if order[0] in store then [store[order[0]]] else []) + RecordsOf(store, order[1..])
  }

  function Moved(p: Platform, m: Move): Platform {
    match m
    case List(order) => p.(listed := RecordsOf(p.world.store, order))
    case VisitNext(policy, supply) =>
      if p.listed == [] then p else Platform(VisitService(p.world, p.listed[0], policy, supply), p.listed[1..])
    case RemoveOld(s, copies) =>
      if s in p.world.store then p.(world := RemoveEach(p.world, p.world.store[s].spec, copies)) else p
    case Edit(s, spec) => if s in p.world.store then p.(world := Edited(p.world, s, spec)) else p
    case Other(step) => p.(world := After(p.world, step))
  }

  /** New ids and containers are new, also to the records still to be visited; a rollout removes copies of what it read; a
      service created anew, or harmlessly edited, while an old record of it is listed asks for the same. */
  ghost predicate LegalMove(p: Platform, m: Move) {
    match m
    case List(order) => NoDup(order) && forall s :: s in order <==> s in p.world.store
    case VisitNext(policy, supply) =>
      && Legal(p.world, Visit("", policy, supply))
      && forall i: nat, k, r :: supply(i).Launched? && 0 <= k < |p.listed| && r in p.listed[k].replicas ==>
           supply(i).id != r.id && supply(i).container != r.container
    case RemoveOld(s, copies) => OldCopies(p.world.store, s, copies)
    case Edit(s, spec) =>
      s in p.world.store && EditHarmless(p.world, s, spec) ==> KeepsShape(p.listed, s, spec)
    case Other(step) =>
      !step.Visit? && Legal(p.world, step) && (step.AddService? ==> KeepsShape(p.listed, step.spec.name, step.spec))
  }

  ghost predicate KeepsShape(listed: seq<Service>, s: string, spec: ServiceSpec) {
    forall k :: 0 <= k < |listed| && listed[k].spec.name == s ==> SameShape(spec, listed[k].spec)
  }

  /** Every move is legal when it comes, as far as the moves before it were harmless. */
  ghost predicate LegalMoves(p: Platform, moves: seq<Move>)
    decreases |moves|
  {
    moves == []
    || (LegalMove(p, moves[0]) && (HarmlessMove(p, moves[0]) ==> LegalMoves(Moved(p, moves[0]), moves[1..])))
  }

  ghost predicate Exact(w: World) {
    Accounted(w) && RoutesMatch(w)
  }

  ghost predicate AllRunning(store: Store) {
    forall s, r :: s in store && r in store[s].replicas ==> r.status == Running
  }

  /** Exact, every recorded replica is marked as running, and every listed record was its service's record once. */
  ghost predicate Sound(p: Platform) {
    && Exact(p.world)
    && AllRunning(p.world.store)
    && (forall k :: 0 <= k < |p.listed| ==> ListedBefore(p.world, p.listed[k]))
    && (forall i, j :: 0 <= i < j < |p.listed| ==> p.listed[i].spec.name != p.listed[j].spec.name)
  }

  /** What someone could check before the move: a visit or a rollout's removal gives nothing back twice, a visit does not
      give routes to a service without a record, and an edit changes nothing that replicas or routes rely on. */
  ghost predicate HarmlessMove(p: Platform, m: Move) {
    match m
    case VisitNext(_, _) => p.listed == [] || VisitHarmless(p.world, p.listed[0])
    case RemoveOld(s, copies) =>
      s in p.world.store ==>
        Harmless(p.world, s, p.world.store[s].spec.cpu, p.world.store[s].spec.mem, copies)
    case Edit(s, spec) => s in p.world.store ==> EditHarmless(p.world, s, spec)
    case _ => true
  }

  // ---- Listed records while others write ----

  /** The record lost some ids, whose containers went too; or the service is gone, with its containers. */
  lemma StillListed(w: World, w': World, svc: Service, ids: set<string>)
    requires ListedBefore(w, svc) && Follows(w.store, w'.store, iset{}) && StartsOnly(w.docker, w'.docker, iset{})
    requires var s := svc.spec.name;
             s in w'.store ==> s in w.store && SameShape(w'.store[s].spec, w.store[s].spec)
                               && w'.store[s].replicas == Without(w.store[s].replicas, ids)
    requires forall r ::
               (r in svc.replicas && Recorded(w.store, svc.spec.name, r) && (r.id in ids || svc.spec.name !in w'.store)) ==>
                 !IsRunning(w'.docker, r.container)
    ensures ListedBefore(w', svc)
  {
    hide Follows, OldCopy, UniqueIds;
    var s, rs := svc.spec.name, svc.replicas;
    forall r | r in rs ensures OldCopy(w'.store, s, r) {
      CopyFollows(w.store, w'.store, iset{}, s, r);
    }
    if s in w'.store {
      WithoutMembers(w.store[s].replicas, ids);
      forall r | r in rs ensures Recorded(w'.store, s, r) <==> Recorded(w.store, s, r) && r.id !in ids {
        SameId(w.store[s].replicas, ids, r);
      }
      RecordedWithout(w.store, w'.store, s, rs, ids);
    }
  }

  lemma SameId(rs: seq<Replica>, ids: set<string>, r: Replica)
    ensures r.id in Ids(Without(rs, ids)) <==> r.id in Ids(rs) && r.id !in ids
  {
    WithoutMembers(rs, ids);
    if r.id in Ids(rs) && r.id !in ids {
      var x :| x in rs && x.id == r.id;
      assert x in Without(rs, ids);
    }
  }

  lemma {:induction false} RecordedWithout(store: Store, store': Store, s: string, rs: seq<Replica>, ids: set<string>)
    requires forall r :: r in rs ==> (Recorded(store', s, r) <==> Recorded(store, s, r) && r.id !in ids)
    ensures RecordedOf(store', s, rs) == Without(RecordedOf(store, s, rs), ids)
  {
    hide Recorded;
    if rs != [] {
      assert rs[0] in rs && forall x :: x in rs[1..] ==> x in rs;
      RecordedWithout(store, store', s, rs[1..], ids);
      if Recorded(store, s, rs[0]) {
        assert RecordedOf(store, s, rs)[1..] == RecordedOf(store, s, rs[1..]);
      }
    }
  }

  /** Nothing happened to the record, up to count, image and status, and new ids and containers are not its own. */
  lemma StillListedAfter(w: World, w': World, svc: Service, ids: iset<string>, containers: iset<string>)
    requires ListedBefore(w, svc) && Follows(w.store, w'.store, ids) && StartsOnly(w.docker, w'.docker, containers)
    requires var s := svc.spec.name;
             && (s in w'.store <==> s in w.store)
             && (s in w.store ==> SameShape(w'.store[s].spec, w.store[s].spec)
                                  && w'.store[s].replicas == w.store[s].replicas)
    requires forall r :: r in svc.replicas ==> r.id !in ids && r.container !in containers
    ensures ListedBefore(w', svc)
  {
    hide Follows, OldCopy, UniqueIds;
    var s, rs := svc.spec.name, svc.replicas;
    forall r | r in rs ensures OldCopy(w'.store, s, r) {
      CopyFollows(w.store, w'.store, ids, s, r);
    }
    forall r | r in rs ensures Recorded(w'.store, s, r) <==> Recorded(w.store, s, r) {
    }
    RecordedSame(w.store, w'.store, s, rs);
  }

  lemma {:induction false} RecordedSame(store: Store, store': Store, s: string, rs: seq<Replica>)
    requires forall r :: r in rs ==> (Recorded(store', s, r) <==> Recorded(store, s, r))
    ensures RecordedOf(store', s, rs) == RecordedOf(store, s, rs)
  {
    hide Recorded;
    if rs != [] {
      assert rs[0] in rs && forall x :: x in rs[1..] ==> x in rs;
      RecordedSame(store, store', s, rs[1..]);
    }
  }

  // ---- Listing ----

  lemma ListedNow(w: World, s: string)
    requires Accounted(w) && AllRunning(w.store) && s in w.store
    ensures ListedBefore(w, w.store[s]) && w.store[s].spec.name == s
  {
    hide LedgerMatches, OldCopy;
    var claims :| Consistent(w, claims);
    DistinctInService(w.store, s);
    forall r | r in w.store[s].replicas ensures OldCopy(w.store, s, r) && Recorded(w.store, s, r) {
      CurrentIsCopy(w.store, s, r);
    }
    RecordedMembers(w.store, s, w.store[s].replicas);
  }

  lemma {:induction false} RecordsAre(store: Store, order: seq<string>)
    requires forall s :: s in order ==> s in store
    ensures |RecordsOf(store, order)| == |order|
    ensures forall k :: 0 <= k < |order| ==> order[k] in store && RecordsOf(store, order)[k] == store[order[k]]
  {
    if order != [] {
      assert order[0] in order && forall s :: s in order[1..] ==> s in order;
      RecordsAre(store, order[1..]);
    }
  }

  lemma ListIsSound(p: Platform, order: seq<string>)
    requires Sound(p) && LegalMove(p, List(order))
    ensures Sound(Moved(p, List(order)))
  {
    hide Exact, AllRunning, ListedBefore;
    var listed := RecordsOf(p.world.store, order);
    ExactIsAccounted(p.world);
    RecordsAre(p.world.store, order);
    forall k | 0 <= k < |listed| ensures ListedBefore(p.world, listed[k]) && listed[k].spec.name == order[k] {
      assert order[k] in order;
      ListedNow(p.world, order[k]);
    }
  }

  lemma ExactIsAccounted(w: World)
    requires Exact(w)
    ensures Accounted(w) && RoutesMatch(w)
  {}

  // ---- A rollout's removal ----

  lemma WithoutRunning(store: Store, s: string, ids: set<string>)
    requires AllRunning(store)
    ensures AllRunning(WithoutIn(store, s, ids))
  {
    if s in store {
      WithoutMembers(store[s].replicas, ids);
    }
  }

  /** A copy that removes a listed replica removes its container. */
  lemma CopyTakesContainer(w: World, svc: Service, copies: seq<Replica>, r: Replica)
    requires ListedBefore(w, svc) && OldCopies(w.store, svc.spec.name, copies)
    requires r in svc.replicas && Recorded(w.store, svc.spec.name, r) && r.id in Ids(copies)
    ensures r.container in Containers(copies)
  {
    var s := svc.spec.name;
    var c :| c in copies && c.id == r.id;
    var x :| x in w.store[s].replicas && x.id == r.id;
    var k :| 0 <= k < |w.store[s].replicas| && w.store[s].replicas[k] == x;
    assert Holds(w.store, s, k, c.id);
    assert x.container == c.container && OldCopy(w.store, s, r);
  }

  lemma RemoveOldListed(w: World, s: string, copies: seq<Replica>, svc: Service)
    requires Accounted(w) && s in w.store && OldCopies(w.store, s, copies) && ListedBefore(w, svc)
    ensures ListedBefore(RemoveEach(w, w.store[s].spec, copies), svc)
  {
    hide ListedBefore, OldCopies, RemoveEach, Follows, StartsOnly, LedgerMatches, Recorded;
    var claims :| Consistent(w, claims);
    ConsistentIsNamed(w, claims);
    var w' := RemoveEach(w, w.store[s].spec, copies);
    assert w.store[s].spec.name == s;
    RemoveEachParts(w, w.store[s].spec, copies);
    RemoveEachFollows(w, w.store[s].spec, copies, iset{});
    if svc.spec.name == s {
      forall r | r in svc.replicas && Recorded(w.store, s, r) && r.id in Ids(copies)
        ensures !IsRunning(w'.docker, r.container) {
        CopyTakesContainer(w, svc, copies, r);
      }
      StillListed(w, w', svc, Ids(copies));
    } else {
      StillListedAfter(w, w', svc, iset{}, iset{});
    }
  }

  lemma RemoveOldIff(p: Platform, s: string, copies: seq<Replica>)
    requires Sound(p) && LegalMove(p, RemoveOld(s, copies))
    ensures HarmlessMove(p, RemoveOld(s, copies)) ==> Sound(Moved(p, RemoveOld(s, copies)))
    ensures !HarmlessMove(p, RemoveOld(s, copies)) ==> !Exact(Moved(p, RemoveOld(s, copies)).world)
  {
    hide ListedBefore, OldCopies, RemoveEach, Harmless, LedgerMatches, RoutesMatch, AllRunning;
    var w := p.world;
    if s in w.store {
      var claims :| Consistent(w, claims);
      ConsistentIsNamed(w, claims);
      assert w.store[s].spec.name == s && w.store[s].spec.cpu >= 0 && w.store[s].spec.mem >= 0;
      RemoveCopiesIff(w, w.store[s].spec, copies, claims);
      RemoveEachParts(w, w.store[s].spec, copies);
      WithoutRunning(w.store, s, Ids(copies));
      forall k | 0 <= k < |p.listed| ensures ListedBefore(RemoveEach(w, w.store[s].spec, copies), p.listed[k]) {
        RemoveOldListed(w, s, copies, p.listed[k]);
      }
    }
  }

  // ---- Everything else ----

  lemma OtherIsExact(w: World, step: Step)
    requires Exact(w) && Legal(w, step)
    ensures Exact(After(w, step))
  {
    hide Accounted, RoutesMatch, Legal, After;
    assert [step][1..] == [];
    assert Run(w, [step]) == After(w, step);
    RunsConserve(w, [step]);
  }

  lemma ContainersOfRecord(w: World, s: string, svc: Service, r: Replica)
    requires s in w.store && ListedBefore(w, svc) && svc.spec.name == s && r in svc.replicas && Recorded(w.store, s, r)
    ensures r.container in Containers(w.store[s].replicas)
  {
    RecordedMembers(w.store, s, svc.replicas);
    assert r in w.store[s].replicas;
  }

  lemma {:induction false} ReleasedDocker(w: World, spec: ServiceSpec, rs: seq<Replica>)
    ensures ReleaseEach(w, spec, rs).docker == w.docker - Containers(rs)
    ensures ReleaseEach(w, spec, rs).store == w.store
    decreases |rs|
  {
    if rs == [] {
      assert w.docker - Containers([]) == w.docker;
    } else {
      var w1 := w.(docker := w.docker - {rs[0].container},
                   ledger := Deallocated(w.ledger, rs[0].node, rs[0].id, spec.cpu, spec.mem));
      ReleasedDocker(w1, spec, rs[1..]);
      assert rs == [rs[0]] + rs[1..];
      assert Containers(rs) == {rs[0].container} + Containers(rs[1..]);
      assert w.docker - {rs[0].container} - Containers(rs[1..]) == w.docker - Containers(rs);
    }
  }

  lemma DeleteListed(w: World, s: string, svc: Service)
    requires s in w.store && ListedBefore(w, svc)
    ensures ListedBefore(DeleteService(w, s), svc)
    ensures DeleteService(w, s).store == w.store - {s}
  {
    hide ListedBefore, Follows, Recorded, ReleaseEach;
    var w' := DeleteService(w, s);
    ReleasedDocker(w, w.store[s].spec, w.store[s].replicas);
    DropFollows(w.store, s, iset{});
    assert StartsOnly(w.docker, w'.docker, iset{});
    if svc.spec.name == s {
      forall r | r in svc.replicas && Recorded(w.store, s, r) ensures !IsRunning(w'.docker, r.container) {
        ContainersOfRecord(w, s, svc, r);
      }
      StillListed(w, w', svc, {});
    } else {
      StillListedAfter(w, w', svc, iset{}, iset{});
    }
  }

  /** A record put with the replicas it had. */
  lemma PutListed(w: World, s: string, svc': Service, svc: Service)
    requires ListedBefore(w, svc)
    requires s in w.store && svc'.replicas == w.store[s].replicas
    requires svc.spec.name == s ==> SameShape(svc'.spec, w.store[s].spec)
    ensures ListedBefore(Put(w, s, svc'), svc)
  {
    hide ListedBefore, Follows;
    PutFollows(w.store, s, svc', iset{});
    assert StartsOnly(w.docker, w.docker, iset{});
    StillListedAfter(w, Put(w, s, svc'), svc, iset{}, iset{});
  }

  lemma AddListed(w: World, spec: ServiceSpec, svc: Service)
    requires ListedBefore(w, svc) && spec.name !in w.store
    requires svc.spec.name == spec.name ==> SameShape(spec, svc.spec)
    ensures ListedBefore(Put(w, spec.name, Service(spec, Pending, [])), svc)
  {
    var w' := Put(w, spec.name, Service(spec, Pending, []));
    PutFollows(w.store, spec.name, Service(spec, Pending, []), iset{});
    assert StartsOnly(w.docker, w.docker, iset{});
    if svc.spec.name != spec.name {
      hide ListedBefore, Follows;
      StillListedAfter(w, w', svc, iset{}, iset{});
    } else {
      forall r | r in svc.replicas ensures OldCopy(w'.store, spec.name, r) && !Recorded(w'.store, spec.name, r) {
        CopyFollows(w.store, w'.store, iset{}, spec.name, r);
      }
      RecordedMembers(w'.store, spec.name, svc.replicas);
      NoneOf(w'.store, spec.name, svc.replicas);
    }
  }

  lemma {:induction false} NoneOf(store: Store, s: string, rs: seq<Replica>)
    requires forall r :: r in rs ==> !Recorded(store, s, r)
    ensures RecordedOf(store, s, rs) == []
  {
    hide Recorded;
    if rs != [] {
      assert rs[0] in rs && forall x :: x in rs[1..] ==> x in rs;
      NoneOf(store, s, rs[1..]);
    }
  }

  lemma QuietListed(w: World, w': World, svc: Service)
    requires ListedBefore(w, svc) && w'.store == w.store && StartsOnly(w.docker, w'.docker, iset{})
    ensures ListedBefore(w', svc)
  {
    hide ListedBefore, StartsOnly;
    NothingFollows(w, iset{}, iset{});
    StillListedAfter(w, w', svc, iset{}, iset{});
  }

  lemma OtherListed(p: Platform, step: Step, svc: Service)
    requires LegalMove(p, Other(step)) && svc in p.listed && ListedBefore(p.world, svc)
    ensures ListedBefore(After(p.world, step), svc)
  {
    hide ListedBefore, SetAll, DeleteService;
    var w := p.world;
    match step
    case DeleteNow(s) => if s in w.store { DeleteListed(w, s, svc); } else { DeleteMissing(w, s); }
    case ContainerStops(c) => QuietListed(w, After(w, step), svc);
    case ContainerVanishes(c) => QuietListed(w, After(w, step), svc);
    case AddService(spec) =>
      if spec.name !in w.store {
        var k :| 0 <= k < |p.listed| && p.listed[k] == svc;
        AddListed(w, spec, svc);
      }
    case SetCount(s, n) => if s in w.store { PutListed(w, s, w.store[s].(spec := w.store[s].spec.(replicas := n)), svc); }
    case SetImage(s, i) => if s in w.store { PutListed(w, s, w.store[s].(spec := w.store[s].spec.(image := i)), svc); }
    case SetStatus(s, status) => if s in w.store { PutListed(w, s, w.store[s].(status := status), svc); }
    case ReportHealth(_, _, _) => QuietListed(w, After(w, step), svc);
  }

  lemma OtherRunning(w: World, step: Step)
    requires AllRunning(w.store) && !step.Visit?
    ensures AllRunning(After(w, step).store)
  {
    hide SetAll, ReleaseEach;
    match step
    case DeleteNow(s) => if s in w.store { ReleasedDocker(w, w.store[s].spec, w.store[s].replicas); }
    case _ =>
  }

  lemma OtherIsSound(p: Platform, step: Step)
    requires Sound(p) && LegalMove(p, Other(step))
    ensures Sound(Moved(p, Other(step)))
  {
    hide ListedBefore, Exact, AllRunning, After, Legal;
    OtherIsExact(p.world, step);
    OtherRunning(p.world, step);
    forall k | 0 <= k < |p.listed| ensures ListedBefore(After(p.world, step), p.listed[k]) {
      OtherListed(p, step, p.listed[k]);
    }
  }

  // ---- An edit ----

  lemma EditListed(p: Platform, s: string, spec: ServiceSpec, k: nat)
    requires s in p.world.store && KeepsShape(p.listed, s, spec)
    requires k < |p.listed| && ListedBefore(p.world, p.listed[k])
    ensures ListedBefore(Edited(p.world, s, spec), p.listed[k])
  {
    if p.listed[k].spec.name == s {
      ShapeIsListed(p.world, p.listed[k]);
    }
    hide ListedBefore;
    PutListed(p.world, s, p.world.store[s].(spec := spec), p.listed[k]);
  }

  lemma ShapeIsListed(w: World, svc: Service)
    requires ListedBefore(w, svc) && svc.spec.name in w.store
    ensures SameShape(w.store[svc.spec.name].spec, svc.spec)
  {}

  lemma EditIff(p: Platform, s: string, spec: ServiceSpec)
    requires Sound(p) && LegalMove(p, Edit(s, spec))
    ensures HarmlessMove(p, Edit(s, spec)) ==> Sound(Moved(p, Edit(s, spec)))
    ensures !HarmlessMove(p, Edit(s, spec)) ==> !Exact(Moved(p, Edit(s, spec)).world)
  {
    hide ListedBefore, LedgerMatches, RoutesMatch, EditHarmless, KeepsShape;
    if s in p.world.store {
      EditExactIff(p.world, s, spec);
      if EditHarmless(p.world, s, spec) {
        forall k | 0 <= k < |p.listed| ensures ListedBefore(Edited(p.world, s, spec), p.listed[k]) {
          EditListed(p, s, spec, k);
        }
      }
    }
  }

  // ---- A visit ----

  lemma {:induction false} SeenRunning(docker: Docker, rs: seq<Replica>)
    requires forall r :: r in rs ==> r.status == Running
    ensures forall r :: r in Observed(docker, rs) ==> r.status == Running
  {
    if rs != [] {
      assert rs[0] in rs && forall x :: x in rs[1..] ==> x in rs;
      SeenRunning(docker, rs[1..]);
    }
  }

  lemma {:induction false} CreateFromRunning(
    w: World, spec: ServiceSpec, policy: Policy, supply: nat -> Launch, k: nat, n: nat)
    requires AllRunning(w.store) && k <= n
    ensures AllRunning(CreateFrom(w, spec, policy, supply, k, n).store)
    decreases n - k
  {
    hide CreateReplica, AllRunning;
    if k < n {
      CreateRunning(w, spec, policy, supply(k));
      CreateFromRunning(CreateReplica(w, spec, policy, supply(k)), spec, policy, supply, k + 1, n);
    }
  }

  lemma CreateRunning(w: World, spec: ServiceSpec, policy: Policy, launch: Launch)
    requires AllRunning(w.store)
    ensures AllRunning(CreateReplica(w, spec, policy, launch).store)
  {
    hide Allocated, SelectNode, EndpointsOf, Merge;
  }

  lemma PutRunning(store: Store, s: string, svc: Service)
    requires AllRunning(store) && forall r :: r in svc.replicas ==> r.status == Running
    ensures AllRunning(store[s := svc])
  {}

  lemma ScaleRunning(w: World, spec: ServiceSpec, desired: int, running: seq<Replica>, policy: Policy,
                     supply: nat -> Launch)
    requires AllRunning(w.store) && Named(w.store)
    ensures AllRunning(Scale(w, spec, desired, running, policy, supply).store)
  {
    hide RemoveEach, CreateFrom, AllRunning;
    if |running| < desired {
      CreateFromRunning(w, spec, policy, supply, 0, desired - |running|);
    } else if |running| > desired {
      RemoveEachParts(w, spec, SliceFrom(running, desired));
      WithoutRunning(w.store, spec.name, Ids(SliceFrom(running, desired)));
    }
  }

  lemma SettleRunning(w: World, s: string)
    requires AllRunning(w.store)
    ensures AllRunning(SettleStatus(w, s).store)
  {}

  lemma LatePassRunning(w: World, svc: Service, policy: Policy, supply: nat -> Launch, claims: Claims)
    requires Consistent(w, claims) && RoutesMatch(w) && ListedBefore(w, svc) && AllRunning(w.store)
    requires svc.spec.name in w.store || svc.replicas != []
    ensures AllRunning(ReconcileService(w, svc, policy, supply).store)
  {
    hide RoutesMatch, Refresh, RemoveEach, Scale, SettleStatus, AllRunning, Follows, StartsOnly, Named, ReconcileService,
         Consistent, OldCopies;
    var s, stale := svc.spec.name, StaleIn(w.docker, svc);
    var w1 := Refresh(w, svc).world;
    var w2 := RemoveEach(w1, svc.spec, stale);
    LatePassUnfolds(w, svc, policy, supply, claims);
    RefreshFollows(w, svc, claims, iset{}, iset{});
    SeenRunning(w.docker, svc.replicas);
    MidwayStart(w, svc, claims);
    assert RecordAfter(w, svc).replicas == Observed(w.docker, svc.replicas);
    PutRunning(w.store, s, RecordAfter(w, svc));
    RemoveEachParts(w1, svc.spec, stale);
    RemoveEachFollows(w1, svc.spec, stale, iset{});
    WithoutRunning(w1.store, s, Ids(stale));
    ScaleRunning(w2, SpecAfterStale(w, svc), svc.spec.replicas, Kept(w.docker, svc), policy, supply);
    SettleRunning(Scale(w2, SpecAfterStale(w, svc), svc.spec.replicas, Kept(w.docker, svc), policy, supply), s);
  }

  lemma TeardownFollows(w: World, svc: Service)
    requires Named(w.store) && AllRunning(w.store)
    ensures var end := TeardownService(w, svc);
            VisitedOnly(w, end, svc.spec.name, iset{}, iset{}) && AllRunning(end.store)
  {
    hide RemoveEach, Follows, StartsOnly;
    var s := svc.spec.name;
    var w1 := RemoveEach(w, svc.spec, svc.replicas);
    RemoveEachParts(w, svc.spec, svc.replicas);
    RemoveEachFollows(w, svc.spec, svc.replicas, iset{});
    DropFollows(w1.store, s, iset{});
    FollowsTwice(w.store, w1.store, w1.store - {s}, iset{});
    WithoutRunning(w.store, s, Ids(svc.replicas));
  }

  /** What a visit leaves of the other listed records. */
  lemma VisitLeavesListed(w: World, end: World, s: string, svc: Service, ids: iset<string>, containers: iset<string>)
    requires VisitedOnly(w, end, s, ids, containers) && ListedBefore(w, svc) && svc.spec.name != s
    requires forall r :: r in svc.replicas ==> r.id !in ids && r.container !in containers
    ensures ListedBefore(end, svc)
  {
    hide ListedBefore, Follows, StartsOnly;
    StillListedAfter(w, end, svc, ids, containers);
  }

  ghost function IdsOf(supply: nat -> Launch): iset<string> {
    iset i: nat | supply(i).Launched? :: supply(i).id
  }

  ghost function ContainersOf(supply: nat -> Launch): iset<string> {
    iset i: nat | supply(i).Launched? :: supply(i).container
  }

  lemma VisitFollows(p: Platform, policy: Policy, supply: nat -> Launch, claims: Claims)
    requires Sound(p) && p.listed != [] && VisitHarmless(p.world, p.listed[0]) && Consistent(p.world, claims)
    ensures var end := VisitService(p.world, p.listed[0], policy, supply);
            && VisitedOnly(p.world, end, p.listed[0].spec.name, IdsOf(supply), ContainersOf(supply))
            && AllRunning(end.store)
  {
    hide ReconcileService, TeardownService, RoutesMatch, Follows, StartsOnly, AllRunning, Harmless, Consistent, ListedBefore;
    var w, svc := p.world, p.listed[0];
    if svc.status == Deleting {
      ConsistentIsNamed(w, claims);
      TeardownFollows(w, svc);
      MoreFresh(w.store, TeardownService(w, svc).store, IdsOf(supply));
      MoreStarts(w.docker, TeardownService(w, svc).docker, ContainersOf(supply));
    } else {
      LatePassWrites(w, svc, policy, supply, claims, IdsOf(supply), ContainersOf(supply));
      LatePassRunning(w, svc, policy, supply, claims);
    }
  }

  lemma MoreFresh(store: Store, store': Store, ids: iset<string>)
    requires Follows(store, store', iset{})
    ensures Follows(store, store', ids)
  {
    hide Body;
  }

  lemma MoreStarts(docker: Docker, docker': Docker, containers: iset<string>)
    requires StartsOnly(docker, docker', iset{})
    ensures StartsOnly(docker, docker', containers)
  {}

  lemma VisitIff(p: Platform, policy: Policy, supply: nat -> Launch)
    requires Sound(p) && LegalMove(p, VisitNext(policy, supply))
    ensures HarmlessMove(p, VisitNext(policy, supply)) ==> Sound(Moved(p, VisitNext(policy, supply)))
    ensures !HarmlessMove(p, VisitNext(policy, supply)) ==> !Exact(Moved(p, VisitNext(policy, supply)).world)
  {
    hide VisitService, RoutesMatch, VisitHarmless, ListedBefore, AllRunning, Consistent, FreshSupply, VisitedOnly;
    if p.listed != [] {
      var w, svc := p.world, p.listed[0];
      var claims :| Consistent(w, claims);
      LegalIsFresh(w, Visit("", policy, supply), claims);
      LateVisitIff(w, svc, policy, supply, claims);
      if VisitHarmless(w, svc) {
        VisitFollows(p, policy, supply, claims);
        var end := VisitService(w, svc, policy, supply);
        forall k | 1 <= k < |p.listed| ensures ListedBefore(end, p.listed[k]) {
          VisitLeavesListed(w, end, svc.spec.name, p.listed[k], IdsOf(supply), ContainersOf(supply));
        }
        var rest := p.listed[1..];
        assert forall k :: 0 <= k < |rest| ==> rest[k] == p.listed[k + 1];
      }
    }
  }

  // ---- Whole runs ----

  lemma MoveIff(p: Platform, m: Move)
    requires Sound(p) && LegalMove(p, m)
    ensures HarmlessMove(p, m) ==> Sound(Moved(p, m))
    ensures !HarmlessMove(p, m) ==> !Exact(Moved(p, m).world)
  {
    hide Sound, LegalMove, HarmlessMove, Exact, Moved;
    OthersAreHarmless(p, m);
    match m
    case List(order) => ListIsSound(p, order);
    case VisitNext(policy, supply) => VisitIff(p, policy, supply);
    case RemoveOld(s, copies) => RemoveOldIff(p, s, copies);
    case Edit(s, spec) => EditIff(p, s, spec);
    case Other(step) => OtherIsSound(p, step);
  }

  lemma OthersAreHarmless(p: Platform, m: Move)
    ensures m.List? || m.Other? ==> HarmlessMove(p, m)
  {}

  function RunMoves(p: Platform, moves: seq<Move>): Platform
    decreases |moves|
  {
    if moves == [] then p else RunMoves(Moved(p, moves[0]), moves[1..])
  }

  /** Every state of the run is exact. */
  ghost predicate StaysExact(p: Platform, moves: seq<Move>)
    decreases |moves|
  {
    Exact(p.world) && (moves == [] || StaysExact(Moved(p, moves[0]), moves[1..]))
  }

  ghost predicate HarmlessMoves(p: Platform, moves: seq<Move>)
    decreases |moves|
  {
    moves == [] || (HarmlessMove(p, moves[0]) && HarmlessMoves(Moved(p, moves[0]), moves[1..]))
  }

  /** Over every run, with any interleaving of turns, rollouts, deletions, edits and failures: ledger and routes stay right
      all along exactly if every visit, rollout removal and edit was harmless when it came. The platform is sound then. */
  lemma {:induction false} RunExactIff(p: Platform, moves: seq<Move>)
    requires Sound(p) && LegalMoves(p, moves)
    ensures StaysExact(p, moves) <==> HarmlessMoves(p, moves)
    ensures HarmlessMoves(p, moves) ==> Sound(RunMoves(p, moves))
    decreases |moves|
  {
    hide LegalMove, HarmlessMove, Exact, Moved;
    SoundIsExact(p);
    if moves != [] {
      MoveIff(p, moves[0]);
      if HarmlessMove(p, moves[0]) {
        RunExactIff(Moved(p, moves[0]), moves[1..]);
      } else {
        InexactAtOnce(Moved(p, moves[0]), moves[1..]);
      }
    }
  }

  lemma SoundIsExact(p: Platform)
    requires Sound(p)
    ensures Exact(p.world)
  {}

  lemma InexactAtOnce(p: Platform, moves: seq<Move>)
    requires !Exact(p.world)
    ensures !StaysExact(p, moves)
  {}

  /** An empty platform is sound. */
  lemma StartIsSound(nodes: Ledger)
    requires UniqueNodes(nodes)
    requires forall n :: n in nodes ==> n.cpuUsed == 0 && n.memUsed == 0 && n.replicaIds == []
    requires forall n :: n in nodes ==> n.cpuCapacity >= 0 && n.memCapacity >= 0
    ensures Sound(Platform(World(map[], map[], nodes, map[]), []))
  {
    StartIsAccounted(nodes);
  }

  // ---- A turn of the loop, as a run ----

  lemma {:induction false} ExactAtTheEnd(p: Platform, moves: seq<Move>)
    requires StaysExact(p, moves)
    ensures Exact(RunMoves(p, moves).world)
    decreases |moves|
  {
    hide Moved, Exact;
    if moves != [] {
      ExactAtTheEnd(Moved(p, moves[0]), moves[1..]);
    }
  }

  lemma {:induction false} RunMovesAppend(p: Platform, a: seq<Move>, b: seq<Move>)
    ensures RunMoves(p, a + b) == RunMoves(RunMoves(p, a), b)
    decreases |a|
  {
    hide Moved;
    if a == [] {
      assert a + b == b;
    } else {
      assert (a + b)[1..] == a[1..] + b;
      RunMovesAppend(Moved(p, a[0]), a[1..], b);
    }
  }

  function Others(steps: seq<Step>): seq<Move> {
    if steps == [] then [] else [Other(steps[0])] + Others(steps[1..])
  }

  lemma {:induction false} OthersRun(p: Platform, steps: seq<Step>)
    ensures RunMoves(p, Others(steps)) == p.(world := Run(p.world, steps))
    decreases |steps|
  {
    hide After;
    if steps != [] {
      assert Others(steps)[1..] == Others(steps[1..]);
      OthersRun(p.(world := After(p.world, steps[0])), steps[1..]);
    }
  }

  /** One turn of `_reconcile_all` over the records listed when it began, with `env` acting before each visit. */
  function TurnBeside(w: World, listed: seq<Service>, policy: Policy, supplies: seq<nat -> Launch>,
                      env: (nat, World) -> World, k: nat): World
    requires |listed| == |supplies|
    decreases |listed|
  {
    if listed == [] then w
    else TurnBeside(VisitService(env(k, w), listed[0], policy, supplies[0]), listed[1..], policy, supplies[1..], env, k + 1)
  }

  /** The moves of such a turn: before the k-th visit the others take the steps `plan(k)`. */
  function TurnMoves(policy: Policy, supplies: seq<nat -> Launch>, plan: nat -> seq<Step>, k: nat): seq<Move>
    decreases |supplies|
  {
    if supplies == [] then []
    else Others(plan(k)) + [VisitNext(policy, supplies[0])] + TurnMoves(policy, supplies[1..], plan, k + 1)
  }

  function Between(plan: nat -> seq<Step>): (nat, World) -> World {
    (k: nat, w: World) => Run(w, plan(k))
  }

  lemma {:induction false} TurnIsMoves(w: World, listed: seq<Service>, policy: Policy, supplies: seq<nat -> Launch>,
                                       plan: nat -> seq<Step>, k: nat)
    requires |listed| == |supplies|
    ensures RunMoves(Platform(w, listed), TurnMoves(policy, supplies, plan, k))
         == Platform(TurnBeside(w, listed, policy, supplies, Between(plan), k), [])
    decreases |listed|
  {
    hide VisitService, Run;
    if listed != [] {
      var p := Platform(w, listed);
      var others, visit := Others(plan(k)), VisitNext(policy, supplies[0]);
      var rest := TurnMoves(policy, supplies[1..], plan, k + 1);
      OthersRun(p, plan(k));
      RunMovesAppend(p, others + [visit], rest);
      RunMovesAppend(p, others, [visit]);
      assert [visit][1..] == [];
      var w1 := VisitService(Run(w, plan(k)), listed[0], policy, supplies[0]);
      TurnIsMoves(w1, listed[1..], policy, supplies[1..], plan, k + 1);
    }
  }

  /** A whole turn, with anything happening between its visits: if every visit is harmless when it comes, ledger and routes
      are right in the end. */
  lemma HarmlessTurnIsExact(w: World, listed: seq<Service>, policy: Policy, supplies: seq<nat -> Launch>,
                            plan: nat -> seq<Step>)
    requires |listed| == |supplies| && Sound(Platform(w, listed))
    requires LegalMoves(Platform(w, listed), TurnMoves(policy, supplies, plan, 0))
    requires HarmlessMoves(Platform(w, listed), TurnMoves(policy, supplies, plan, 0))
    ensures Exact(TurnBeside(w, listed, policy, supplies, Between(plan), 0))
  {
    hide *;
    var p, moves := Platform(w, listed), TurnMoves(policy, supplies, plan, 0);
    RunExactIff(p, moves);
    ExactAtTheEnd(p, moves);
    TurnIsMoves(w, listed, policy, supplies, plan, 0);
  }

  /** With nobody else acting, the turn visits the listed records one after the other. */
  lemma {:induction false} QuietTurn(w: World, listed: seq<Service>, policy: Policy, supplies: seq<nat -> Launch>, k: nat)
    requires |listed| == |supplies|
    ensures TurnBeside(w, listed, policy, supplies, (i: nat, v: World) => v, k) == Turn(w, listed, policy, supplies)
    decreases |listed|
  {
    hide VisitService;
    if listed != [] {
      QuietTurn(VisitService(w, listed[0], policy, supplies[0]), listed[1..], policy, supplies[1..], k + 1);
    }
  }
}
