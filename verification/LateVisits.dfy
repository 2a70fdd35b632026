/** Visits of the reconcile loop with a record listed earlier: exactly when they keep ledger and routes right, and what they
    overwrite. */
module LateVisits {
  import opened Wrappers
  import opened Nodes
  import opened Scheduler
  import opened Routing
  import opened Worlds
  import opened Reconcile
  import opened ReconcileProofs
  import opened Convergence
  import opened Runs
  import opened Outdated

  /** What the theorems hold fixed while a record is waiting for its visit. */
  predicate SameShape(a: ServiceSpec, b: ServiceSpec) {
    a.name == b.name && a.cpu == b.cpu && a.mem == b.mem && a.port == b.port
  }

  /** `svc` was the record of its service at some time; since then replicas have only been removed from it, together with
      their containers, or the service was deleted, and perhaps created anew. Count, image and status may have changed. */
  ghost predicate ListedBefore(w: World, svc: Service) {
    var s := svc.spec.name;
    && svc.spec.cpu >= 0 && svc.spec.mem >= 0
    && OldCopies(w.store, s, svc.replicas)
    && (forall r :: r in svc.replicas ==> r.status == Running)
    && (forall r :: r in svc.replicas && !Recorded(w.store, s, r) ==> !IsRunning(w.docker, r.container))
    && (s in w.store ==>
          SameShape(w.store[s].spec, svc.spec) && w.store[s].replicas == RecordedOf(w.store, s, svc.replicas))
  }

  /** The replicas that a visit removes. */
  function Leavers(docker: Docker, svc: Service): seq<Replica> {
    if svc.status == Deleting then svc.replicas
    else
      var kept := Kept(docker, svc);
      DeadOf(docker, svc.replicas) + StaleIn(docker, svc)
      + if |kept| > svc.spec.replicas then SliceFrom(kept, svc.spec.replicas) else []
  }

  // ---- The refresh ----

  lemma {:induction false} ObservedShorter(docker: Docker, rs: seq<Replica>)
    ensures |Observed(docker, rs)| == |rs| - |DeadOf(docker, rs)|
    ensures Observed(docker, rs) == rs ==> DeadOf(docker, rs) == []
  {
    if rs != [] {
      ObservedShorter(docker, rs[1..]);
    }
  }

  /** The node of a running replica lists it, if the ledger knows the node. */
  predicate NodeLists(ledger: Ledger, r: Replica) {
    var i := IndexOf(ledger, r.node);
    i < |ledger| ==> r.id in ledger[i].replicaIds
  }

  lemma {:induction false} OthersRemain(ids: seq<string>, x: string, y: string)
    requires y in ids && x != y
    ensures y in RemoveFirst(ids, x)
  {
    if ids[0] != x && ids[0] != y {
      OthersRemain(ids[1..], x, y);
    }
  }

  lemma ListsAfterRefund(ledger: Ledger, r: Replica, x: Replica, cpu: int, mem: int)
    requires NodeLists(ledger, x) && x.id != r.id
    ensures NodeLists(Deallocated(ledger, r.node, r.id, cpu, mem), x)
  {
    var l := Deallocated(ledger, r.node, r.id, cpu, mem);
    SameIds(ledger, l);
    var i := IndexOf(ledger, x.node);
    if i < |ledger| && r.node == x.node {
      OthersRemain(ledger[i].replicaIds, r.id, x.id);
    }
  }

  lemma AllocateListed(ledger: Ledger, r: Replica, cpu: int, mem: int)
    requires NodeLists(ledger, r)
    ensures Allocated(ledger, r.node, r.id, cpu, mem) == ledger
  {}

  /** The refresh loop over any list whose live replicas their nodes list. */
  lemma {:induction false} LoopParts(docker: Docker, ledger: Ledger, spec: ServiceSpec, todo: seq<Replica>)
    requires UniqueIds(todo)
    requires forall r :: r in todo && r.status == Running && IsRunning(docker, r.container) ==> NodeLists(ledger, r)
    ensures var o := RefreshLoop(docker, ledger, spec, todo);
            && o.replicas == Observed(docker, todo)
            && o.docker == docker - Containers(DeadOf(docker, todo))
            && o.ledger == Refunds(ledger, spec.cpu, spec.mem, DeadOf(docker, todo))
            && (o.changed <==> Observed(docker, todo) != todo)
    decreases |todo|
  {
    if todo == [] {
      assert docker - Containers([]) == docker;
    } else {
      var r := todo[0];
      UniqueTail(todo);
      assert r in todo;
      assert forall x :: x in todo[1..] ==> x in todo && x.id in Ids(todo[1..]);
      if Dead(docker, r) {
        LoopDead(docker, ledger, spec, todo);
      } else {
        LoopLive(docker, ledger, spec, todo);
      }
    }
  }

  lemma {:induction false} LoopDead(docker: Docker, ledger: Ledger, spec: ServiceSpec, todo: seq<Replica>)
    requires todo != [] && UniqueIds(todo) && Dead(docker, todo[0])
    requires forall r :: r in todo && r.status == Running && IsRunning(docker, r.container) ==> NodeLists(ledger, r)
    ensures var o := RefreshLoop(docker, ledger, spec, todo);
            && o.replicas == Observed(docker, todo)
            && o.docker == docker - Containers(DeadOf(docker, todo))
            && o.ledger == Refunds(ledger, spec.cpu, spec.mem, DeadOf(docker, todo))
            && (o.changed <==> Observed(docker, todo) != todo)
    decreases |todo|, 0
  {
    hide NodeLists, Deallocated, Refunds;
    var r, rest := todo[0], todo[1..];
    var docker', ledger' := docker - {r.container}, Deallocated(ledger, r.node, r.id, spec.cpu, spec.mem);
    UniqueTail(todo);
    forall x | x in rest && x.status == Running && IsRunning(docker', x.container) ensures NodeLists(ledger', x) {
      assert x in todo && x.id in Ids(rest);
      ListsAfterRefund(ledger, r, x, spec.cpu, spec.mem);
    }
    LoopParts(docker', ledger', spec, rest);
    ObservedFrame(docker, docker', rest);
    ObservedShorter(docker, todo);
    RefundsUnfold(ledger, spec.cpu, spec.mem, r, DeadOf(docker, rest));
    var dead := DeadOf(docker, rest);
    assert DeadOf(docker, todo) == [r] + dead;
    assert Containers([r] + dead) == {r.container} + Containers(dead);
    assert docker - {r.container} - Containers(dead) == docker - Containers([r] + dead);
  }

  lemma RefundsUnfold(ledger: Ledger, cpu: int, mem: int, r: Replica, rs: seq<Replica>)
    ensures Refunds(ledger, cpu, mem, [r] + rs) == Refunds(Deallocated(ledger, r.node, r.id, cpu, mem), cpu, mem, rs)
  {
    assert ([r] + rs)[1..] == rs;
  }

  lemma {:induction false} LoopLive(docker: Docker, ledger: Ledger, spec: ServiceSpec, todo: seq<Replica>)
    requires todo != [] && UniqueIds(todo) && !Dead(docker, todo[0])
    requires forall r :: r in todo && r.status == Running && IsRunning(docker, r.container) ==> NodeLists(ledger, r)
    ensures var o := RefreshLoop(docker, ledger, spec, todo);
            && o.replicas == Observed(docker, todo)
            && o.docker == docker - Containers(DeadOf(docker, todo))
            && o.ledger == Refunds(ledger, spec.cpu, spec.mem, DeadOf(docker, todo))
            && (o.changed <==> Observed(docker, todo) != todo)
    decreases |todo|, 0
  {
    hide NodeLists, Refunds, RefreshLoop, Observed, DeadOf;
    UniqueTail(todo);
    assert todo[0] in todo && forall x :: x in todo[1..] ==> x in todo;
    LoopParts(docker, ledger, spec, todo[1..]);
    LoopUnfolds(docker, ledger, spec, todo);
    SeenUnfolds(docker, todo);
  }

  function SeenAs(docker: Docker, r: Replica): Replica {
    if r.status == Running then Observe(docker, r) else r
  }

  lemma LoopUnfolds(docker: Docker, ledger: Ledger, spec: ServiceSpec, todo: seq<Replica>)
    requires todo != [] && !Dead(docker, todo[0])
    requires todo[0].status == Running ==> NodeLists(ledger, todo[0])
    ensures var o, rest := RefreshLoop(docker, ledger, spec, todo), RefreshLoop(docker, ledger, spec, todo[1..]);
            && o.replicas == [SeenAs(docker, todo[0])] + rest.replicas
            && o.docker == rest.docker && o.ledger == rest.ledger
            && (o.changed <==> rest.changed || SeenAs(docker, todo[0]) != todo[0])
  {
    hide Allocated;
    if todo[0].status == Running {
      AllocateListed(ledger, todo[0], spec.cpu, spec.mem);
    }
  }

  lemma SeenUnfolds(docker: Docker, todo: seq<Replica>)
    requires todo != [] && !Dead(docker, todo[0])
    ensures Observed(docker, todo) == [SeenAs(docker, todo[0])] + Observed(docker, todo[1..])
    ensures DeadOf(docker, todo) == DeadOf(docker, todo[1..])
    ensures Observed(docker, todo) == todo
       <==> SeenAs(docker, todo[0]) == todo[0] && Observed(docker, todo[1..]) == todo[1..]
  {
    var rest := Observed(docker, todo[1..]);
    assert todo == [todo[0]] + todo[1..];
    assert ([SeenAs(docker, todo[0])] + rest)[1..] == rest;
  }

  lemma {:induction false} DeadMembers(docker: Docker, rs: seq<Replica>)
    ensures forall r :: r in DeadOf(docker, rs) <==> r in rs && Dead(docker, r)
  {
    if rs != [] {
      DeadMembers(docker, rs[1..]);
      assert rs == [rs[0]] + rs[1..];
    }
  }

  lemma {:induction false} RecordedMembers(store: Store, s: string, rs: seq<Replica>)
    ensures forall r :: r in RecordedOf(store, s, rs) <==> r in rs && Recorded(store, s, r)
    ensures (forall r :: r in rs ==> Recorded(store, s, r)) ==> RecordedOf(store, s, rs) == rs
  {
    hide Recorded;
    if rs != [] {
      RecordedMembers(store, s, rs[1..]);
      assert rs == [rs[0]] + rs[1..];
    }
  }

  /** What is gone from the record is dead, so only what is still recorded can be seen alive. */
  lemma {:induction false} GoneIsDead(docker: Docker, store: Store, s: string, rs: seq<Replica>)
    requires forall r :: r in rs && !Recorded(store, s, r) ==> Dead(docker, r)
    ensures Observed(docker, rs) == Observed(docker, RecordedOf(store, s, rs))
  {
    hide Recorded, Dead;
    if rs != [] {
      assert rs[0] in rs && forall x :: x in rs[1..] ==> x in rs;
      GoneIsDead(docker, store, s, rs[1..]);
      if Recorded(store, s, rs[0]) {
        assert RecordedOf(store, s, rs)[1..] == RecordedOf(store, s, rs[1..]);
      }
    }
  }

  /** The store as it would be read by someone who sees only what is still recorded. */
  lemma DeadClaims(docker: Docker, store: Store, s: string, rs: seq<Replica>, claims: Claims)
    requires ClaimsFor(store, claims) && forall r :: r in rs ==> OldCopy(store, s, r)
    ensures claims - Ids(DeadOf(docker, rs)) == claims - Ids(DeadOf(docker, RecordedOf(store, s, rs)))
  {
    var recorded := RecordedOf(store, s, rs);
    DeadMembers(docker, rs);
    DeadMembers(docker, recorded);
    RecordedMembers(store, s, rs);
    forall id | id in claims ensures id in Ids(DeadOf(docker, rs)) <==> id in Ids(DeadOf(docker, recorded)) {
      if id in Ids(DeadOf(docker, rs)) {
        var r :| r in DeadOf(docker, rs) && r.id == id;
        ClaimedIsRecorded(store, s, r, claims);
        assert r in DeadOf(docker, recorded);
      }
      if id in Ids(DeadOf(docker, recorded)) {
        var r :| r in DeadOf(docker, recorded) && r.id == id;
        assert r in DeadOf(docker, rs);
      }
    }
  }

  lemma ListsWhatItHolds(w: World, svc: Service, claims: Claims)
    requires Consistent(w, claims) && ListedBefore(w, svc)
    ensures forall r :: r in svc.replicas && r.status == Running && IsRunning(w.docker, r.container) ==>
              NodeLists(w.ledger, r)
  {
    forall r | r in svc.replicas && IsRunning(w.docker, r.container) ensures NodeLists(w.ledger, r) {
      ClaimedIsRecorded(w.store, svc.spec.name, r, claims);
      var i := IndexOf(w.ledger, r.node);
      if i < |w.ledger| {
        assert NodeMatches(w.ledger[i], claims);
      }
    }
  }

  /** The record that the refresh leaves in the store: the listed one, if it saw anything different, else the current
      one. */
  function RecordAfter(w: World, svc: Service): Service {
    var seen := Observed(w.docker, svc.replicas);
    if seen != svc.replicas || svc.spec.name !in w.store then svc.(replicas := seen) else w.store[svc.spec.name]
  }

  ghost predicate RefreshedLate(w: World, svc: Service, w1: World, claims1: Claims) {
    var s := svc.spec.name;
    && w1.store == w.store[s := RecordAfter(w, svc)]
    && RecordAfter(w, svc).replicas == Observed(w.docker, svc.replicas)
    && SameShape(RecordAfter(w, svc).spec, svc.spec)
    && w1.docker == w.docker - Containers(DeadOf(w.docker, svc.replicas))
    && w1.ledger == Refunds(w.ledger, svc.spec.cpu, svc.spec.mem, DeadOf(w.docker, svc.replicas))
    && Claimed(w1.store, claims1)
    && RoutesMatch(w1)
  }

  /** The claims after a late refresh. */
  lemma RefreshClaims(w: World, svc: Service, claims: Claims)
    requires Consistent(w, claims) && RoutesMatch(w) && ListedBefore(w, svc)
    ensures var store' := w.store[svc.spec.name := RecordAfter(w, svc)];
            Claimed(store', claims - Ids(DeadOf(w.docker, svc.replicas)))
  {
    hide LedgerMatches, RoutesMatch, TidyRoutes;
    var s, rs := svc.spec.name, svc.replicas;
    DeadClaims(w.docker, w.store, s, rs, claims);
    GoneIsDead(w.docker, w.store, s, rs);
    if s in w.store {
      var cur := w.store[s];
      CurrentRefresh(w, s, claims);
      var store1 := w.store[s := cur.(replicas := Observed(w.docker, cur.replicas))];
      var claims1 := claims - Ids(DeadOf(w.docker, rs));
      assert Observed(w.docker, cur.replicas) == Observed(w.docker, rs);
      ObservedShorter(w.docker, rs);
      var after := RecordAfter(w, svc);
      if after.replicas != Observed(w.docker, rs) {
        RecordedMembers(w.store, s, rs);
        DeadMembers(w.docker, rs);
      }
      TouchService(store1, s, after, claims1);
      assert store1[s := after] == w.store[s := after];
    } else {
      NoneRecorded(w.store, s, rs);
      EmptyRecord(w.store, svc.(replicas := []), claims);
      assert claims - Ids([]) == claims;
    }
  }

  lemma {:induction false} NoneRecorded(store: Store, s: string, rs: seq<Replica>)
    requires s !in store
    ensures RecordedOf(store, s, rs) == []
  {
    if rs != [] {
      NoneRecorded(store, s, rs[1..]);
    }
  }

  lemma EmptyRecord(store: Store, svc: Service, claims: Claims)
    requires Claimed(store, claims) && svc.replicas == [] && svc.spec.name !in store
    requires svc.spec.cpu >= 0 && svc.spec.mem >= 0
    ensures Claimed(store[svc.spec.name := svc], claims)
  {
    var store' := store[svc.spec.name := svc];
    forall t, j, x ensures Holds(store', t, j, x) <==> Holds(store, t, j, x) {
    }
    forall x | x in claims ensures exists t, j :: Holds(store', t, j, x) {
      var t, j :| Holds(store, t, j, x);
      assert Holds(store', t, j, x);
    }
  }

  lemma CurrentRefresh(w: World, s: string, claims: Claims)
    requires Consistent(w, claims) && RoutesMatch(w) && s in w.store
    ensures var svc := w.store[s];
            Claimed(w.store[s := svc.(replicas := Observed(w.docker, svc.replicas))],
                    claims - Ids(DeadOf(w.docker, svc.replicas)))
  {
    hide Observed, DeadOf;
    RefreshKeeps(w, s, claims);
  }

  lemma SyncKeepsRoutes(w: World, v: World, s: string)
    requires RoutesMatch(w) && v.routes == w.routes && s in v.store && v.store == w.store[s := v.store[s]]
    requires Distinct(v.store) && v.store[s].spec.name == s
    ensures RoutesMatch(Sync(v, v.store[s]))
  {
    hide EndpointsOf, Merge, Bare;
    DistinctInService(v.store, s);
    SyncStep(v, s);
  }

  lemma AllGone(w: World, svc: Service)
    requires ListedBefore(w, svc) && svc.spec.name !in w.store
    ensures Observed(w.docker, svc.replicas) == []
  {
    NoneRecorded(w.store, svc.spec.name, svc.replicas);
    GoneIsDead(w.docker, w.store, svc.spec.name, svc.replicas);
  }

  lemma UnchangedIsCurrent(w: World, svc: Service)
    requires ListedBefore(w, svc) && svc.spec.name in w.store && Observed(w.docker, svc.replicas) == svc.replicas
    ensures w.store[svc.spec.name].replicas == svc.replicas
  {
    ObservedShorter(w.docker, svc.replicas);
    DeadMembers(w.docker, svc.replicas);
    RecordedMembers(w.store, svc.spec.name, svc.replicas);
  }

  /** A late refresh, on a record that is still there or that listed something. */
  lemma RefreshLate(w: World, svc: Service, claims: Claims)
    requires Consistent(w, claims) && RoutesMatch(w) && ListedBefore(w, svc)
    requires svc.spec.name in w.store || svc.replicas != []
    ensures RefreshedLate(w, svc, Refresh(w, svc).world, claims - Ids(DeadOf(w.docker, svc.replicas)))
    ensures Refresh(w, svc).service == svc.(replicas := Observed(w.docker, svc.replicas))
  {
    hide RoutesMatch, RefreshLoop, EndpointsOf, Merge, Refunds, LedgerMatches, Claimed, NodeLists;
    var s := svc.spec.name;
    ListsWhatItHolds(w, svc, claims);
    LoopParts(w.docker, w.ledger, svc.spec, svc.replicas);
    RefreshClaims(w, svc, claims);
    var seen, after := Observed(w.docker, svc.replicas), RecordAfter(w, svc);
    if s !in w.store {
      AllGone(w, svc);
    } else if seen == svc.replicas {
      UnchangedIsCurrent(w, svc);
      assert w.store[s := w.store[s]] == w.store;
    }
    assert after.replicas == seen && SameShape(after.spec, svc.spec);
    var o := RefreshLoop(w.docker, w.ledger, svc.spec, svc.replicas);
    var u := World(w.store[s := after], o.docker, o.ledger, w.routes);
    assert Refresh(w, svc).world == Sync(u, after);
    ClaimedIsDistinct(u.store, claims - Ids(DeadOf(w.docker, svc.replicas)));
    SyncKeepsRoutes(w, u, s);
  }

  lemma ClaimedIsDistinct(store: Store, claims: Claims)
    requires Claimed(store, claims)
    ensures Distinct(store) && Named(store)
  {}

  // ---- Creating on a ledger that may be wrong ----

  lemma ChargedBack(ledger: Ledger, node: string, id: string, cpu: int, mem: int)
    requires NonNegativeUse(ledger) && cpu >= 0 && mem >= 0
    requires forall j :: 0 <= j < |ledger| ==> id !in ledger[j].replicaIds
    ensures Deallocated(Allocated(ledger, node, id, cpu, mem), node, id, cpu, mem) == ledger
    ensures NonNegativeUse(Allocated(ledger, node, id, cpu, mem))
  {
    var charged := Allocated(ledger, node, id, cpu, mem);
    SameIds(ledger, charged);
    var i := IndexOf(ledger, node);
    if i < |ledger| {
      RemoveAppended(ledger[i].replicaIds, id);
    }
  }

  lemma {:induction false} RemoveAppended(ids: seq<string>, x: string)
    requires x !in ids
    ensures RemoveFirst(ids + [x], x) == ids
  {
    if ids != [] {
      assert (ids + [x])[1..] == ids[1..] + [x];
      RemoveAppended(ids[1..], x);
      assert ids == [ids[0]] + ids[1..];
    } else {
      assert [] + [x] == [x];
      assert [x][1..] == [];
    }
  }

  lemma CreateRoutes(w: World, spec: ServiceSpec, r: Replica, container: Container, claims: Claims)
    requires Claimed(w.store, claims) && RoutesMatch(w) && spec.name in w.store && r.id !in claims
    ensures RoutesMatch(Register(w, spec, r, container))
    ensures var svc := w.store[spec.name];
            Claimed(Register(w, spec, r, container).store, claims[r.id := Claim(r.node, svc.spec.cpu, svc.spec.mem)])
  {
    hide EndpointsOf, Merge, Allocated, RoutesMatch;
    var s := spec.name;
    AddReplica(w.store, s, r, claims);
    var store' := w.store[s := w.store[s].(replicas := w.store[s].replicas + [r])];
    SyncKeepsRoutes(w, World(store', w.docker[r.container := container], Charged(w.ledger, spec, Some(r)), w.routes), s);
  }

  /** Creations keep the routes in agreement whatever the ledger says, and they end exact exactly if they began exact. */
  lemma {:induction false} CreateBack(
    w: World, spec: ServiceSpec, policy: Policy, supply: nat -> Launch, k: nat, n: nat, claims: Claims)
    requires k <= n && Claimed(w.store, claims) && RoutesMatch(w) && spec.name in w.store
    requires SameShape(w.store[spec.name].spec, spec) && spec.cpu >= 0 && spec.mem >= 0
    requires NonNegativeUse(w.ledger) && Unheld(w.ledger, supply, k)
    requires FreshSupply(supply, k, claims, w.docker)
    ensures RoutesMatch(CreateFrom(w, spec, policy, supply, k, n))
    ensures Accounted(CreateFrom(w, spec, policy, supply, k, n)) <==> LedgerMatches(w.ledger, claims)
    decreases n - k
  {
    hide RoutesMatch, Claimed, LedgerMatches, NonNegativeUse, Unheld, CreateReplica, Started, Charged, Allocated, Accounted;
    if k == n {
      AccountedMeans(w, claims);
    } else {
      var w1 := CreateReplica(w, spec, policy, supply(k));
      var r := Started(w.ledger, spec, policy, supply(k));
      CreateParts(w, spec, policy, supply(k));
      if r.None? {
        CreateNothing(w, spec, policy, supply(k));
        LaterUnheld(w.ledger, supply, k);
        FreshAfter(supply, k, claims, w.docker, claims, w1.docker);
        CreateBack(w1, spec, policy, supply, k + 1, n, claims);
      } else {
        StartedIs(w.ledger, spec, policy, supply(k));
        var claims1 := claims[r.value.id := Claim(r.value.node, spec.cpu, spec.mem)];
        CreateOne(w, spec, policy, supply, k, claims);
        FreshAfter(supply, k, claims, w.docker, claims1, w1.docker);
        CreateBack(w1, spec, policy, supply, k + 1, n, claims1);
        OneBack(w.ledger, policy, spec, claims, supply, k);
      }
    }
  }

  lemma CreateNothing(w: World, spec: ServiceSpec, policy: Policy, launch: Launch)
    requires Started(w.ledger, spec, policy, launch).None?
    ensures CreateReplica(w, spec, policy, launch) == w
  {}

  lemma LaterUnheld(ledger: Ledger, supply: nat -> Launch, k: nat)
    requires Unheld(ledger, supply, k)
    ensures Unheld(ledger, supply, k + 1)
  {}

  lemma CreateOne(w: World, spec: ServiceSpec, policy: Policy, supply: nat -> Launch, k: nat, claims: Claims)
    requires Claimed(w.store, claims) && RoutesMatch(w) && spec.name in w.store
    requires SameShape(w.store[spec.name].spec, spec) && spec.cpu >= 0 && spec.mem >= 0
    requires NonNegativeUse(w.ledger) && Unheld(w.ledger, supply, k) && FreshSupply(supply, k, claims, w.docker)
    requires Started(w.ledger, spec, policy, supply(k)).Some?
    ensures var r, w1 := Started(w.ledger, spec, policy, supply(k)).value, CreateReplica(w, spec, policy, supply(k));
            && Claimed(w1.store, claims[r.id := Claim(r.node, spec.cpu, spec.mem)]) && RoutesMatch(w1)
            && spec.name in w1.store && SameShape(w1.store[spec.name].spec, spec)
            && NonNegativeUse(w1.ledger) && Unheld(w1.ledger, supply, k + 1)
  {
    hide RoutesMatch, Claimed, NonNegativeUse, Unheld, Allocated, SelectNode, EndpointsOf, Merge;
    StartedIs(w.ledger, spec, policy, supply(k));
    var r := Started(w.ledger, spec, policy, supply(k)).value;
    CreateRoutes(w, spec, r, Container(true, supply(k).inspected), claims);
    UnheldIds(w.ledger, supply, k);
    ChargedBack(w.ledger, r.node, r.id, spec.cpu, spec.mem);
    UnheldAfter(w.ledger, supply, k, r.node, spec.cpu, spec.mem);
  }

  lemma UnheldIds(ledger: Ledger, supply: nat -> Launch, k: nat)
    requires Unheld(ledger, supply, k) && supply(k).Launched?
    ensures forall j :: 0 <= j < |ledger| ==> supply(k).id !in ledger[j].replicaIds
  {}

  lemma OneBack(ledger: Ledger, policy: Policy, spec: ServiceSpec, claims: Claims, supply: nat -> Launch, k: nat)
    requires NonNegativeUse(ledger) && Unheld(ledger, supply, k)
    requires Started(ledger, spec, policy, supply(k)).Some?
    requires supply(k).id !in claims && spec.cpu >= 0 && spec.mem >= 0
    ensures var r := Started(ledger, spec, policy, supply(k));
            LedgerMatches(Charged(ledger, spec, r), claims[r.value.id := Claim(r.value.node, spec.cpu, spec.mem)])
            <==> LedgerMatches(ledger, claims)
  {
    hide LedgerMatches, NonNegativeUse, Unheld, Allocated, Deallocated, SelectNode;
    StartedIs(ledger, spec, policy, supply(k));
    var r := Started(ledger, spec, policy, supply(k)).value;
    var c := Claim(r.node, spec.cpu, spec.mem);
    UnheldIds(ledger, supply, k);
    ChargedBack(ledger, r.node, r.id, spec.cpu, spec.mem);
    if LedgerMatches(Allocated(ledger, r.node, r.id, spec.cpu, spec.mem), claims[r.id := c]) {
      DeallocateHeld(Allocated(ledger, r.node, r.id, spec.cpu, spec.mem), claims[r.id := c], r.id);
      assert claims[r.id := c] - {r.id} == claims;
    }
    if LedgerMatches(ledger, claims) {
      UniqueOf(ledger);
      var n := SelectNode(policy, ledger, spec.cpu, spec.mem).value;
      var i :| 0 <= i < |ledger| && ledger[i] == n;
      IndexIsUnique(ledger, i);
      AllocateFresh(ledger, claims, r.id, c);
    }
  }

  // ---- The pass, in phases ----

  lemma {:induction false} RefundsAppend(ledger: Ledger, cpu: int, mem: int, a: seq<Replica>, b: seq<Replica>)
    ensures Refunds(ledger, cpu, mem, a + b) == Refunds(Refunds(ledger, cpu, mem, a), cpu, mem, b)
    decreases |a|
  {
    hide Deallocated;
    if a == [] {
      assert a + b == b;
    } else {
      assert (a + b)[1..] == a[1..] + b;
      RefundsAppend(Deallocated(ledger, a[0].node, a[0].id, cpu, mem), cpu, mem, a[1..], b);
    }
  }

  lemma IdsTogether(a: seq<Replica>, b: seq<Replica>)
    ensures Ids(a + b) == Ids(a) + Ids(b)
  {
    assert forall r :: r in a + b <==> r in a || r in b;
  }

  lemma UniqueTogether(a: seq<Replica>, b: seq<Replica>)
    requires UniqueIds(a) && UniqueIds(b) && Ids(a) !! Ids(b)
    ensures UniqueIds(a + b)
  {
    forall i, j | 0 <= i < j < |a + b| ensures (a + b)[i].id != (a + b)[j].id {
      if i >= |a| {
        assert b[i - |a|].id != b[j - |a|].id;
      } else if j >= |a| {
        assert a[i] in a && b[j - |a|] in b;
        assert a[i].id in Ids(a) && b[j - |a|].id in Ids(b);
      }
    }
  }

  /** Midway through a late visit: the replicas `gone` have been refunded, removed from the record or seen to be missing. */
  ghost predicate Midway(w: World, svc: Service, v: World, gone: seq<Replica>, claims: Claims) {
    var s := svc.spec.name;
    && v.ledger == Refunds(w.ledger, svc.spec.cpu, svc.spec.mem, gone)
    && Claimed(v.store, claims - Ids(gone))
    && RoutesMatch(v)
    && s in v.store && SameShape(v.store[s].spec, svc.spec)
    && v.docker.Keys <= w.docker.Keys
  }

  lemma MidwayRemove(w: World, svc: Service, v: World, gone: seq<Replica>, claims: Claims, spec: ServiceSpec,
                     rs: seq<Replica>)
    requires Midway(w, svc, v, gone, claims) && SameShape(spec, svc.spec)
    requires UniqueIds(rs) && forall r :: r in rs ==> r in v.store[svc.spec.name].replicas
    ensures var v' := RemoveEach(v, spec, rs);
            && Midway(w, svc, v', gone + rs, claims)
            && v'.store[svc.spec.name]
               == v.store[svc.spec.name].(replicas := Without(v.store[svc.spec.name].replicas, Ids(rs)))
  {
    hide RoutesMatch, Claimed, RemoveEach, Refunds;
    var s := svc.spec.name;
    ClaimedIsDistinct(v.store, claims - Ids(gone));
    forall r | r in rs ensures OldCopy(v.store, s, r) {
      CurrentIsCopy(v.store, s, r);
    }
    RemoveEachParts(v, spec, rs);
    RemoveEachKeepsRoutes(v, spec, rs);
    RemovedClaims(v, spec, rs, claims - Ids(gone));
    IdsTogether(gone, rs);
    assert claims - Ids(gone) - Ids(rs) == claims - Ids(gone + rs);
    RefundsAppend(w.ledger, svc.spec.cpu, svc.spec.mem, gone, rs);
  }

  /** What is seen alive is what was listed, up to addresses, and differs in id from what is dead. */
  lemma {:induction false} SeenIds(docker: Docker, rs: seq<Replica>)
    requires UniqueIds(rs)
    ensures UniqueIds(Observed(docker, rs)) && UniqueIds(DeadOf(docker, rs))
    ensures Ids(Observed(docker, rs)) !! Ids(DeadOf(docker, rs))
    ensures Ids(Observed(docker, rs)) <= Ids(rs) && Ids(DeadOf(docker, rs)) <= Ids(rs)
  {
    hide Dead, Observe;
    if rs != [] {
      UniqueTail(rs);
      SeenIds(docker, rs[1..]);
      var seen, dead := Observed(docker, rs[1..]), DeadOf(docker, rs[1..]);
      assert Ids(rs) == {rs[0].id} + Ids(rs[1..]) by { assert rs == [rs[0]] + rs[1..]; }
      if Dead(docker, rs[0]) {
        IdsTogether([rs[0]], dead);
        UniqueCons(rs[0], dead);
      } else {
        var x := if rs[0].status == Running then Observe(docker, rs[0]) else rs[0];
        ObserveId(docker, rs[0]);
        IdsTogether([x], seen);
        UniqueCons(x, seen);
      }
    }
  }

  lemma ObserveId(docker: Docker, r: Replica)
    ensures var x := Observe(docker, r); x.id == r.id && x.node == r.node && x.container == r.container
  {}

  lemma {:induction false} SeenFrom(docker: Docker, rs: seq<Replica>, x: Replica)
    requires x in Observed(docker, rs)
    ensures exists r :: r in rs && r.id == x.id && r.node == x.node && r.container == x.container
  {
    hide Dead, Observe;
    var rest := rs[1..];
    assert rs == [rs[0]] + rest;
    ObserveId(docker, rs[0]);
    if x in Observed(docker, rest) {
      SeenFrom(docker, rest, x);
      var r :| r in rest && r.id == x.id && r.node == x.node && r.container == x.container;
      assert r in rs;
    } else {
      assert rs[0] in rs;
    }
  }

  lemma SameCopy(store: Store, s: string, r: Replica, x: Replica)
    requires OldCopy(store, s, r) && r.id == x.id && r.node == x.node && r.container == x.container
    ensures OldCopy(store, s, x)
  {}

  /** The stale and the surplus replicas, as parts of what is seen alive. */
  lemma LeaverParts(docker: Docker, svc: Service)
    requires UniqueIds(svc.replicas)
    ensures var seen, stale, kept := Observed(docker, svc.replicas), StaleIn(docker, svc), Kept(docker, svc);
            var tail := if |kept| > svc.spec.replicas then SliceFrom(kept, svc.spec.replicas) else [];
            && UniqueIds(seen) && UniqueIds(stale) && UniqueIds(kept) && UniqueIds(tail)
            && (forall r :: r in stale ==> r in seen) && (forall r :: r in kept ==> r in seen)
            && (forall r :: r in tail ==> r in kept)
            && Ids(stale) !! Ids(kept)
            && RunningOf(Without(seen, Ids(stale))) == kept
  {
    var seen := Observed(docker, svc.replicas);
    var running := RunningOf(seen);
    SeenIds(docker, svc.replicas);
    UniqueRunning(seen);
    RunningMembers(seen);
    UniqueStale(running, svc.spec.image);
    StaleMembers(running, svc.spec.image);
    CurrentMembers(running, svc.spec.image);
    WithoutCommutesRunning(seen, Ids(StaleOf(running, svc.spec.image)));
    WithoutStaleIsCurrent(running, svc.spec.image);
    UniqueWithout(running, Ids(StaleOf(running, svc.spec.image)));
    var kept := Kept(docker, svc);
    var k := SliceStart(|kept|, svc.spec.replicas);
    CutTail(kept, k);
  }

  lemma LeaversAreCopies(w: World, svc: Service)
    requires ListedBefore(w, svc)
    ensures OldCopies(w.store, svc.spec.name, Leavers(w.docker, svc))
  {
    hide OldCopy;
    if svc.status != Deleting {
      var docker, s, kept := w.docker, svc.spec.name, Kept(w.docker, svc);
      var dead, stale := DeadOf(docker, svc.replicas), StaleIn(docker, svc);
      var tail := if |kept| > svc.spec.replicas then SliceFrom(kept, svc.spec.replicas) else [];
      SeenIds(docker, svc.replicas);
      LeaverParts(docker, svc);
      DeadMembers(docker, svc.replicas);
      SubIds(stale, Observed(docker, svc.replicas));
      SubIds(tail, kept);
      SubIds(kept, Observed(docker, svc.replicas));
      UniqueTogether(dead, stale);
      IdsTogether(dead, stale);
      UniqueTogether(dead + stale, tail);
      forall x | x in Leavers(docker, svc) ensures OldCopy(w.store, s, x) {
        if x !in dead {
          assert x in Observed(docker, svc.replicas);
          SeenFrom(docker, svc.replicas, x);
          var r :| r in svc.replicas && r.id == x.id && r.node == x.node && r.container == x.container;
          SameCopy(w.store, s, r, x);
        }
      }
    }
  }

  lemma SubIds(a: seq<Replica>, b: seq<Replica>)
    requires forall r :: r in a ==> r in b
    ensures Ids(a) <= Ids(b)
  {}

  // ---- Room to create on a ledger that may be wrong ----

  lemma {:induction false} ShedIn(ids: seq<string>, rs: seq<Replica>, node: string)
    ensures forall id :: id in Shed(ids, rs, node) ==> id in ids
    decreases |rs|
  {
    if rs != [] {
      var rest := if rs[0].node == node then RemoveFirst(ids, rs[0].id) else ids;
      StillIn(ids, rs[0].id);
      ShedIn(rest, rs[1..], node);
    }
  }

  lemma RefundedIsUsable(ledger: Ledger, claims: Claims, cpu: nat, mem: nat, rs: seq<Replica>, supply: nat -> Launch,
                         docker: Docker)
    requires LedgerMatches(ledger, claims) && FreshSupply(supply, 0, claims, docker)
    ensures NonNegativeUse(Refunds(ledger, cpu, mem, rs)) && Unheld(Refunds(ledger, cpu, mem, rs), supply, 0)
  {
    hide Refunds, Shed, CountOn, FreshSupply;
    var l := Refunds(ledger, cpu, mem, rs);
    ExactIsNonNegative(ledger, claims);
    FreshIsUnheld(ledger, docker, supply, 0, claims);
    SameLength(ledger, cpu, mem, rs);
    forall j | 0 <= j < |ledger|
      ensures l[j].id == ledger[j].id && l[j].cpuUsed >= 0 && l[j].memUsed >= 0
      ensures forall id :: id in l[j].replicaIds ==> id in ledger[j].replicaIds {
      RefundsAt(ledger, cpu, mem, rs, j);
      ShedIn(ledger[j].replicaIds, rs, ledger[j].id);
    }
  }

  /** The end of a visit: scaling from a state midway, and settling the status. */
  lemma ScaleLate(w: World, svc: Service, v: World, spec: ServiceSpec, gone: seq<Replica>, policy: Policy,
                  supply: nat -> Launch, claims: Claims)
    requires Consistent(w, claims) && Midway(w, svc, v, gone, claims) && SameShape(spec, svc.spec)
    requires svc.spec.cpu >= 0 && svc.spec.mem >= 0
    requires FreshSupply(supply, 0, claims, w.docker)
    requires var kept := RunningOf(v.store[svc.spec.name].replicas);
             |kept| <= svc.spec.replicas && UniqueIds(kept)
    ensures var kept := RunningOf(v.store[svc.spec.name].replicas);
            var end := Scale(v, spec, svc.spec.replicas, kept, policy, supply);
            && RoutesMatch(end)
            && (Accounted(end) <==> LedgerMatches(v.ledger, claims - Ids(gone)))
  {
    hide RoutesMatch, Claimed, CreateFrom, LedgerMatches, Refunds, Accounted, FreshSupply, RunningOf, UniqueIds;
    var kept := RunningOf(v.store[svc.spec.name].replicas);
    var n := svc.spec.replicas - |kept|;
    AccountedMeans(v, claims - Ids(gone));
    if n > 0 {
      LedgerOf(w, claims);
      RefundedIsUsable(w.ledger, claims, svc.spec.cpu, svc.spec.mem, gone, supply, w.docker);
      FreshSupplyShrinks(supply, claims, w.docker, claims - Ids(gone), v.docker);
      CreateBack(v, spec, policy, supply, 0, n, claims - Ids(gone));
    }
  }

  lemma MidwayStart(w: World, svc: Service, claims: Claims)
    requires Consistent(w, claims) && RoutesMatch(w) && ListedBefore(w, svc)
    requires svc.spec.name in w.store || svc.replicas != []
    ensures var w1 := Refresh(w, svc).world;
            && Midway(w, svc, w1, DeadOf(w.docker, svc.replicas), claims)
            && w1.store[svc.spec.name].replicas == Observed(w.docker, svc.replicas)
    ensures Refresh(w, svc).service == svc.(replicas := Observed(w.docker, svc.replicas))
  {
    hide RoutesMatch, Claimed, Refunds, ListedBefore, Refresh, Consistent;
    RefreshLate(w, svc, claims);
  }

  lemma MidwayAfterStale(w: World, svc: Service, claims: Claims)
    requires Consistent(w, claims) && RoutesMatch(w) && ListedBefore(w, svc)
    requires svc.spec.name in w.store || svc.replicas != []
    ensures var w2 := RemoveEach(Refresh(w, svc).world, svc.spec, StaleIn(w.docker, svc));
            && Midway(w, svc, w2, DeadOf(w.docker, svc.replicas) + StaleIn(w.docker, svc), claims)
            && RunningOf(w2.store[svc.spec.name].replicas) == Kept(w.docker, svc)
  {
    hide RoutesMatch, Claimed, Refunds, Refresh, Consistent, Midway, RemoveEach, Observed, StaleOf, RunningOf, CurrentOf,
         OldCopy, UniqueIds, Without;
    MidwayStart(w, svc, claims);
    LeaverParts(w.docker, svc);
    MidwayHas(w, svc, Refresh(w, svc).world, DeadOf(w.docker, svc.replicas), claims);
    MidwayRemove(w, svc, Refresh(w, svc).world, DeadOf(w.docker, svc.replicas), claims, svc.spec, StaleIn(w.docker, svc));
  }

  lemma MidwayHas(w: World, svc: Service, v: World, gone: seq<Replica>, claims: Claims)
    requires Midway(w, svc, v, gone, claims)
    ensures svc.spec.name in v.store && SameShape(v.store[svc.spec.name].spec, svc.spec)
    ensures RoutesMatch(v) && Claimed(v.store, claims - Ids(gone))
    ensures v.ledger == Refunds(w.ledger, svc.spec.cpu, svc.spec.mem, gone)
  {}

  /** The specification that the last part of a visit works with. */
  function SpecAfterStale(w: World, svc: Service): ServiceSpec {
    var w2 := RemoveEach(Refresh(w, svc).world, svc.spec, StaleIn(w.docker, svc));
    if StaleIn(w.docker, svc) != [] && svc.spec.name in w2.store then w2.store[svc.spec.name].spec else svc.spec
  }

  lemma LatePassUnfolds(w: World, svc: Service, policy: Policy, supply: nat -> Launch, claims: Claims)
    requires Consistent(w, claims) && RoutesMatch(w) && ListedBefore(w, svc)
    requires svc.spec.name in w.store || svc.replicas != []
    ensures var w2 := RemoveEach(Refresh(w, svc).world, svc.spec, StaleIn(w.docker, svc));
            ReconcileService(w, svc, policy, supply)
            == SettleStatus(Scale(w2, SpecAfterStale(w, svc), svc.spec.replicas, Kept(w.docker, svc), policy, supply),
                            svc.spec.name)
  {
    hide RoutesMatch, Refresh, Consistent, Midway, RemoveEach, Observed, RunningOf, Scale, SettleStatus, ListedBefore,
         StaleOf, CurrentOf;
    MidwayStart(w, svc, claims);
    MidwayAfterStale(w, svc, claims);
    var w2 := RemoveEach(Refresh(w, svc).world, svc.spec, StaleIn(w.docker, svc));
    MidwayHas(w, svc, w2, DeadOf(w.docker, svc.replicas) + StaleIn(w.docker, svc), claims);
    if StaleIn(w.docker, svc) == [] {
      NoStaleAllCurrent(RunningOf(Observed(w.docker, svc.replicas)), svc.spec.image);
    }
  }

  /** A late pass over a record that is still there, or that listed something: the routes agree at the end, and the ledger
      is exact exactly if refunding the leavers keeps it so. */
  lemma LatePassLedger(w: World, svc: Service, policy: Policy, supply: nat -> Launch, claims: Claims)
    requires Consistent(w, claims) && RoutesMatch(w) && ListedBefore(w, svc) && svc.status != Deleting
    requires svc.spec.name in w.store || svc.replicas != []
    requires FreshSupply(supply, 0, claims, w.docker)
    ensures var end := ReconcileService(w, svc, policy, supply);
            var gone := Leavers(w.docker, svc);
            && RoutesMatch(end)
            && (Accounted(end) <==>
                LedgerMatches(Refunds(w.ledger, svc.spec.cpu, svc.spec.mem, gone), claims - Ids(gone)))
  {
    hide RoutesMatch, Refresh, Consistent, Midway, RemoveEach, Observed, RunningOf, SettleStatus, OldCopy, DeadOf, StaleOf,
         CurrentOf, Claimed, Refunds, FreshSupply, ReconcileService, Accounted, LedgerMatches, UniqueIds;
    var s, kept := svc.spec.name, Kept(w.docker, svc);
    var gone := DeadOf(w.docker, svc.replicas) + StaleIn(w.docker, svc);
    var w2 := RemoveEach(Refresh(w, svc).world, svc.spec, StaleIn(w.docker, svc));
    var spec2 := SpecAfterStale(w, svc);
    LatePassUnfolds(w, svc, policy, supply, claims);
    MidwayAfterStale(w, svc, claims);
    MidwayHas(w, svc, w2, gone, claims);
    LeaverParts(w.docker, svc);
    var w3 := Scale(w2, spec2, svc.spec.replicas, kept, policy, supply);
    if |kept| > svc.spec.replicas {
      var tail := SliceFrom(kept, svc.spec.replicas);
      KeptIsListed(w2, s, kept);
      MidwayRemove(w, svc, w2, gone, claims, spec2, tail);
      MidwayHas(w, svc, w3, gone + tail, claims);
      AccountedMeans(w3, claims - Ids(gone + tail));
    } else {
      assert gone + [] == gone;
      ScaleLate(w, svc, w2, spec2, gone, policy, supply, claims);
    }
    SettleIsNeutral(w3, s);
  }

  lemma KeptIsListed(v: World, s: string, kept: seq<Replica>)
    requires s in v.store && RunningOf(v.store[s].replicas) == kept
    ensures forall r :: r in kept ==> r in v.store[s].replicas
  {
    RunningMembers(v.store[s].replicas);
  }

  lemma StatusIsNeutral(w: World, s: string, status: Status)
    requires s in w.store
    ensures Accounted(w) ==> Accounted(w.(store := w.store[s := w.store[s].(status := status)]))
  {
    if Accounted(w) {
      var claims :| Consistent(w, claims);
      var w' := w.(store := w.store[s := w.store[s].(status := status)]);
      hide LedgerMatches;
      TouchService(w.store, s, w'.store[s], claims);
      assert Consistent(w', claims);
    }
  }

  lemma StatusKeepsRoutes(w: World, s: string, status: Status)
    requires s in w.store
    ensures RoutesMatch(w.(store := w.store[s := w.store[s].(status := status)])) <==> RoutesMatch(w)
  {
    hide EndpointsOf, Bare;
    var w' := w.(store := w.store[s := w.store[s].(status := status)]);
    assert forall t :: t in w.store <==> t in w'.store;
    assert forall t :: t in w.store ==>
      w'.store[t].replicas == w.store[t].replicas && w'.store[t].spec == w.store[t].spec;
  }

  /** Settling the status changes neither what is exact nor what the routes agree with. */
  lemma SettleIsNeutral(w: World, s: string)
    ensures Accounted(SettleStatus(w, s)) <==> Accounted(w)
    ensures RoutesMatch(SettleStatus(w, s)) <==> RoutesMatch(w)
  {
    hide Accounted, RoutesMatch, RunningOf;
    var w' := SettleStatus(w, s);
    if w' != w {
      StatusIsNeutral(w, s, w'.store[s].status);
      StatusIsNeutral(w', s, w.store[s].status);
      assert w'.store[s := w'.store[s].(status := w.store[s].status)] == w.store;
      StatusKeepsRoutes(w, s, w'.store[s].status);
    }
  }

  // ---- Records that are gone and listed nothing ----

  lemma {:induction false} CreateUnrecorded(
    w: World, spec: ServiceSpec, policy: Policy, supply: nat -> Launch, k: nat, n: nat)
    requires k <= n && spec.name !in w.store
    ensures var w' := CreateFrom(w, spec, policy, supply, k, n); w'.store == w.store && w'.routes == w.routes
    decreases n - k
  {
    hide Allocated, SelectNode;
    if k < n {
      CreateUnrecorded(CreateReplica(w, spec, policy, supply(k)), spec, policy, supply, k + 1, n);
    }
  }

  lemma RefreshNothing(w: World, svc: Service)
    requires svc.replicas == []
    ensures Refresh(w, svc).service == svc && Refresh(w, svc).world.store == w.store
    ensures svc.spec.name in Refresh(w, svc).world.routes
  {
    hide Merge;
  }

  /** A visit to a service that is gone by then, with a record that listed no replica: it gets routes without a record. */
  lemma VisitToNothing(w: World, svc: Service, policy: Policy, supply: nat -> Launch)
    requires svc.status != Deleting && svc.spec.name !in w.store && svc.replicas == []
    ensures var end := ReconcileService(w, svc, policy, supply);
            svc.spec.name in end.routes && svc.spec.name !in end.store
  {
    hide Refresh, CreateFrom;
    var s := svc.spec.name;
    var w1 := Refresh(w, svc).world;
    RefreshNothing(w, svc);
    assert RunningOf([]) == [] && StaleOf([], svc.spec.image) == [];
    assert RemoveEach(w1, svc.spec, []) == w1;
    hide RemoveEach, RunningOf, StaleOf;
    if 0 < svc.spec.replicas {
      CreateUnrecorded(w1, svc.spec, policy, supply, 0, svc.spec.replicas);
    } else if 0 > svc.spec.replicas {
      assert SliceFrom<Replica>([], svc.spec.replicas) == [];
    }
  }

  // ---- The exact condition ----

  /** What someone could check before the visit: its service is still there, or is being deleted, or it listed a replica;
      and the visit gives nothing back twice. */
  ghost predicate VisitHarmless(w: World, svc: Service) {
    && (svc.status == Deleting || svc.spec.name in w.store || svc.replicas != [])
    && Harmless(w, svc.spec.name, svc.spec.cpu, svc.spec.mem, Leavers(w.docker, svc))
  }

  lemma TeardownLate(w: World, svc: Service, claims: Claims)
    requires Consistent(w, claims) && RoutesMatch(w) && ListedBefore(w, svc)
    ensures var end := TeardownService(w, svc);
            && RoutesMatch(end)
            && (Accounted(end) <==> Harmless(w, svc.spec.name, svc.spec.cpu, svc.spec.mem, svc.replicas))
  {
    hide RoutesMatch, Harmless, LedgerMatches, RemoveEach, Accounted;
    var s := svc.spec.name;
    var w1 := RemoveEach(w, svc.spec, svc.replicas);
    RemoveCopiesIff(w, svc.spec, svc.replicas, claims);
    ConsistentIsNamed(w, claims);
    RemoveEachParts(w, svc.spec, svc.replicas);
    RemovedClaims(w, svc.spec, svc.replicas, claims);
    if s in w.store {
      RecordedMembers(w.store, s, svc.replicas);
      forall r | r in w.store[s].replicas ensures r.id in Ids(svc.replicas) {
        assert r in svc.replicas;
      }
      WithoutAll(w.store[s].replicas, Ids(svc.replicas));
    }
    ForgetEmpty(w1, s, claims - Ids(svc.replicas));
  }

  /** Forgetting a record without replicas. */
  lemma ForgetEmpty(w: World, s: string, claims: Claims)
    requires Claimed(w.store, claims) && RoutesMatch(w) && (s in w.store ==> w.store[s].replicas == [])
    ensures var end := w.(store := w.store - {s}, routes := w.routes - {s});
            RoutesMatch(end) && (Accounted(end) <==> Accounted(w))
  {
    hide LedgerMatches, Accounted, EndpointsOf, Bare;
    var end := w.(store := w.store - {s}, routes := w.routes - {s});
    forall t, i, x ensures Holds(end.store, t, i, x) <==> Holds(w.store, t, i, x) {
    }
    assert Claimed(end.store, claims) by {
      forall x | x in claims ensures exists t, i :: Holds(end.store, t, i, x) {
        var t, i :| Holds(w.store, t, i, x);
        assert Holds(end.store, t, i, x);
      }
    }
    AccountedMeans(w, claims);
    AccountedMeans(end, claims);
  }

  /** A visit with a record listed earlier keeps the ledger exact and the routes in agreement exactly when it is
      harmless. */
  lemma LateVisitIff(w: World, svc: Service, policy: Policy, supply: nat -> Launch, claims: Claims)
    requires Consistent(w, claims) && RoutesMatch(w) && ListedBefore(w, svc)
    requires FreshSupply(supply, 0, claims, w.docker)
    ensures var end := VisitService(w, svc, policy, supply);
            Accounted(end) && RoutesMatch(end) <==> VisitHarmless(w, svc)
  {
    hide RoutesMatch, Harmless, LedgerMatches, ReconcileService, TeardownService, Accounted, Claimed, WellFormed, Distinct,
         ClaimsFor, FreshSupply, OldCopy, UniqueIds, NothingExtra, Copies, Refunds, Observed;
    if svc.status == Deleting {
      TeardownLate(w, svc, claims);
    } else if svc.spec.name !in w.store && svc.replicas == [] {
      VisitToNothing(w, svc, policy, supply);
      RoutesNeedRecords(ReconcileService(w, svc, policy, supply), svc.spec.name);
    } else {
      var gone := Leavers(w.docker, svc);
      LatePassLedger(w, svc, policy, supply, claims);
      LeaversAreCopies(w, svc);
      HarmlessMeans(w, svc.spec.name, svc.spec.cpu, svc.spec.mem, gone, claims);
      RefundCopiesIff(w.ledger, claims, svc.spec.cpu, svc.spec.mem, gone);
    }
  }

  lemma RoutesNeedRecords(w: World, s: string)
    requires s in w.routes && s !in w.store
    ensures !RoutesMatch(w)
  {}
}
