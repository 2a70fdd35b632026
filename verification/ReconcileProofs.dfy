/** What each step of a reconcile pass keeps, and what one pass achieves. */
module ReconcileProofs {
  import opened Wrappers
  import opened Nodes
  import opened Scheduler
  import opened Routing
  import opened Worlds
  import opened Reconcile

  ghost predicate TidyRoutes(routes: Table) {
    forall s :: s in routes ==> UniqueReplicas(routes[s])
  }

  /** A step that touched only service `s` and left its routes in agreement, with health bits carried over. */
  ghost predicate SyncedStep(w: World, w': World, s: string) {
    && s in w'.routes && w'.routes == w.routes[s := w'.routes[s]]
    && RoutesAgree(w', s)
    && TidyRoutes(w'.routes)
  }

  lemma SyncStep(w: World, s: string)
    requires s in w.store && w.store[s].spec.name == s && UniqueIds(w.store[s].replicas) && TidyRoutes(w.routes)
    ensures SyncedStep(w, Sync(w, w.store[s]), s)
    ensures HealthKept(Get(w.routes, s), Sync(w, w.store[s]).routes[s])
  {
    SyncAgrees(w, s);
  }

  // ---- Refresh ----

  /** The state after the loop of the refresh, before the routes are synced. */
  function Unsynced(w: World, svc: Service): World {
    var o := RefreshLoop(w.docker, w.ledger, svc.spec, svc.replicas);
    World(w.store[svc.spec.name := svc.(replicas := o.replicas)], o.docker, o.ledger, w.routes)
  }

  lemma RefreshUnfolds(w: World, s: string)
    requires s in w.store && w.store[s].spec.name == s
    requires var svc := w.store[s];
             var o := RefreshLoop(w.docker, w.ledger, svc.spec, svc.replicas);
             !o.changed ==> o.replicas == svc.replicas
    ensures var u := Unsynced(w, w.store[s]); Refresh(w, w.store[s]) == Refreshed(Sync(u, u.store[s]), u.store[s])
  {
    var svc := w.store[s];
    var o := RefreshLoop(w.docker, w.ledger, svc.spec, svc.replicas);
    if !o.changed {
      assert w.store[s := svc.(replicas := o.replicas)] == w.store;
    }
  }

  /** Refreshing keeps the ledger exact, forgets exactly the dead replicas and brings the routes into agreement. */
  lemma RefreshKeeps(w: World, s: string, claims: Claims)
    requires Consistent(w, claims) && TidyRoutes(w.routes) && s in w.store
    ensures var svc := w.store[s];
            var dead := DeadOf(w.docker, svc.replicas);
            var Refreshed(w1, s1) := Refresh(w, svc);
            && s1 == svc.(replicas := Observed(w.docker, svc.replicas))
            && w1.store == w.store[s := s1]
            && w1.docker == w.docker - Containers(dead)
            && Consistent(w1, claims - Ids(dead))
            && SyncedStep(w, w1, s)
            && HealthKept(Get(w.routes, s), w1.routes[s])
  {
    hide RefreshLoop, Observed, DeadOf, EndpointsOf, Merge, HealthKept, TidyRoutes, LedgerMatches, Distinct,
         ClaimsFor, UniqueIds;
    var svc := w.store[s];
    assert [] + svc.replicas == svc.replicas;
    RefreshLoopKeeps(w.docker, w.ledger, w.store, s, [], svc.replicas, claims);
    var o := RefreshLoop(w.docker, w.ledger, svc.spec, svc.replicas);
    assert [] + o.replicas == o.replicas;
    RefreshUnfolds(w, s);
    var u := Unsynced(w, svc);
    DistinctInService(u.store, s);
    SyncStep(u, s);
  }

  // ---- Removing ----

  /** Removing a replica by any copy of it, however old, drops its record, container and claim. */
  lemma RemoveKeeps(w: World, s: string, r: Replica, claims: Claims)
    requires Consistent(w, claims) && TidyRoutes(w.routes) && OldCopy(w.store, s, r) && Recorded(w.store, s, r)
    ensures var svc := w.store[s];
            var w' := RemoveReplica(w, svc.spec, r);
            && w'.store == w.store[s := svc.(replicas := Without(svc.replicas, {r.id}))]
            && w'.docker == w.docker - {r.container}
            && r.id in claims && Consistent(w', claims - {r.id})
            && SyncedStep(w, w', s)
            && HealthKept(Get(w.routes, s), w'.routes[s])
  {
    var svc := w.store[s];
    var k :| 0 <= k < |svc.replicas| && svc.replicas[k].id == r.id;
    assert Holds(w.store, s, k, r.id);
    DistinctInService(w.store, s);
    WithoutOne(svc.replicas, k);
    DropReplica(w.store, s, k, claims);
    DeallocateHeld(w.ledger, claims, r.id);
    var svc' := svc.(replicas := Without(svc.replicas, {r.id}));
    var store' := w.store[s := svc'];
    DistinctInService(store', s);
    SyncStep(World(store', w.docker - {r.container},
                   Deallocated(w.ledger, r.node, r.id, svc.spec.cpu, svc.spec.mem), w.routes), s);
  }

  /** Copies stay copies when the record loses replicas. */
  lemma CopyAfterRemoval(store: Store, s: string, x: Replica, ids: set<string>)
    requires s in store && OldCopy(store, s, x)
    ensures OldCopy(store[s := store[s].(replicas := Without(store[s].replicas, ids))], s, x)
  {
    var rs := store[s].replicas;
    var store' := store[s := store[s].(replicas := Without(rs, ids))];
    WithoutMembers(rs, ids);
    forall t, k | Holds(store', t, k, x.id)
      ensures t == s && store'[t].replicas[k].node == x.node && store'[t].replicas[k].container == x.container {
      if t == s {
        var y := store'[s].replicas[k];
        assert y in rs;
        var i :| 0 <= i < |rs| && rs[i] == y;
        assert Holds(store, s, i, x.id);
      } else {
        assert Holds(store, t, k, x.id);
      }
    }
  }

  /** The effect of removing the listed replicas of one service, on everything but the routes. */
  ghost predicate Removed(w: World, w': World, s: string, rs: seq<Replica>, claims: Claims)
    requires s in w.store
  {
    && w'.store == w.store[s := w.store[s].(replicas := Without(w.store[s].replicas, Ids(rs)))]
    && w'.docker == w.docker - Containers(rs)
    && Consistent(w', claims - Ids(rs))
  }

  lemma RemoveNone(w: World, s: string, claims: Claims)
    requires Consistent(w, claims) && s in w.store
    ensures Removed(w, w, s, [], claims)
  {
    WithoutNone(w.store[s].replicas, Ids([]));
    assert w.store[s := w.store[s].(replicas := w.store[s].replicas)] == w.store;
    assert claims - Ids([]) == claims;
    assert w.docker - Containers([]) == w.docker;
  }

  lemma RemovedThen(w: World, w1: World, w2: World, s: string, r: Replica, rs: seq<Replica>, claims: Claims)
    requires s in w.store && s in w1.store
    requires w1.store == w.store[s := w.store[s].(replicas := Without(w.store[s].replicas, {r.id}))]
    requires w1.docker == w.docker - {r.container}
    requires Removed(w1, w2, s, rs, claims - {r.id})
    ensures Removed(w, w2, s, [r] + rs, claims)
  {
    WithoutTwice(w.store[s].replicas, {r.id}, Ids(rs));
    assert Ids([r] + rs) == {r.id} + Ids(rs);
    assert Containers([r] + rs) == {r.container} + Containers(rs);
    assert claims - {r.id} - Ids(rs) == claims - Ids([r] + rs);
    assert w.docker - {r.container} - Containers(rs) == w.docker - Containers([r] + rs);
  }

  /** The copies are of recorded replicas. */
  ghost predicate RecordedCopies(store: Store, s: string, rs: seq<Replica>) {
    forall r :: r in rs ==> OldCopy(store, s, r) && Recorded(store, s, r)
  }

  lemma RestStillRecorded(store: Store, s: string, rs: seq<Replica>)
    requires s in store && rs != [] && UniqueIds(rs) && RecordedCopies(store, s, rs)
    ensures UniqueIds(rs[1..])
    ensures RecordedCopies(store[s := store[s].(replicas := Without(store[s].replicas, {rs[0].id}))], s, rs[1..])
  {
    UniqueTail(rs);
    var all := store[s].replicas;
    WithoutMembers(all, {rs[0].id});
    forall x | x in rs[1..]
      ensures x in rs && x.id in Ids(Without(all, {rs[0].id})) {
      assert x.id in Ids(rs[1..]) && x in rs;
      var y :| y in all && y.id == x.id;
      assert y in Without(all, {rs[0].id});
    }
    forall x | x in rs[1..]
      ensures OldCopy(store[s := store[s].(replicas := Without(all, {rs[0].id}))], s, x) {
      CopyAfterRemoval(store, s, x, {rs[0].id});
    }
  }

  lemma CurrentAreCopies(store: Store, s: string, rs: seq<Replica>)
    requires Distinct(store) && s in store && forall r :: r in rs ==> r in store[s].replicas
    ensures RecordedCopies(store, s, rs)
  {
    forall r | r in rs ensures OldCopy(store, s, r) && Recorded(store, s, r) {
      CurrentIsCopy(store, s, r);
    }
  }

  lemma SyncedThen(w: World, w1: World, w2: World, s: string)
    requires SyncedStep(w, w1, s) && SyncedStep(w1, w2, s)
    ensures SyncedStep(w, w2, s)
  {
    assert w.routes[s := w1.routes[s]][s := w2.routes[s]] == w.routes[s := w2.routes[s]];
  }

  lemma {:induction false} RemoveEachKeeps(w: World, s: string, rs: seq<Replica>, claims: Claims)
    requires Consistent(w, claims) && TidyRoutes(w.routes) && s in w.store
    requires UniqueIds(rs) && RecordedCopies(w.store, s, rs)
    ensures Removed(w, RemoveEach(w, w.store[s].spec, rs), s, rs, claims)
    ensures rs != [] ==> SyncedStep(w, RemoveEach(w, w.store[s].spec, rs), s)
    decreases |rs|
  {
    hide RemoveReplica, OldCopy, Recorded, UniqueIds, HealthKept, Consistent, Removed, RoutesAgree;
    var svc := w.store[s];
    if rs == [] {
      RemoveNone(w, s, claims);
    } else {
      var r, rest := rs[0], rs[1..];
      assert r in rs;
      RemoveKeeps(w, s, r, claims);
      var w1 := RemoveReplica(w, svc.spec, r);
      RestStillRecorded(w.store, s, rs);
      RemoveEachKeeps(w1, s, rest, claims - {r.id});
      var w2 := RemoveEach(w1, svc.spec, rest);
      assert rs == [r] + rest;
      RemovedThen(w, w1, w2, s, r, rest, claims);
      if rest != [] {
        SyncedThen(w, w1, w2, s);
      }
    }
  }

  // ---- Creating ----

  /** The replicas attempts k, ..., n - 1 start; only the ledger decides. */
  function StartedFrom(
    ledger: Ledger, spec: ServiceSpec, policy: Policy, supply: nat -> Launch, k: nat, n: nat): (rs: seq<Replica>)
    requires k <= n
    ensures |rs| <= n - k
    decreases n - k
  {
    if k == n then []
    else
      var r := Started(ledger, spec, policy, supply(k));
      var rest := StartedFrom(Charged(ledger, spec, r), spec, policy, supply, k + 1, n);
      if r.Some? then [r.value] + rest else rest
  }

  lemma CreateParts(w: World, spec: ServiceSpec, policy: Policy, launch: Launch)
    ensures var r := Started(w.ledger, spec, policy, launch);
            var w' := CreateReplica(w, spec, policy, launch);
            && w'.ledger == Charged(w.ledger, spec, r)
            && w'.docker == if r.None? then w.docker
                            else w.docker[launch.container := Container(true, launch.inspected)]
  {
    hide Allocated, SelectNode;
  }

  /** What a successful attempt adds: the container, running under the address that Docker inspects, and at the end of the
      record a running replica with the launched id, container and address, on the selected node and the image wanted. */
  lemma CreateMeans(w: World, spec: ServiceSpec, policy: Policy, launch: Launch)
    requires spec.name in w.store
    ensures var target, w' := SelectNode(policy, w.ledger, spec.cpu, spec.mem), CreateReplica(w, spec, policy, launch);
            if target.None? || launch.Refused? then w' == w
            else
              && w'.docker.Keys == w.docker.Keys + {launch.container}
              && w'.docker[launch.container].running && w'.docker[launch.container].ip == launch.inspected
              && (forall c :: c in w.docker && c != launch.container ==> w'.docker[c] == w.docker[c])
              && w'.store.Keys == w.store.Keys
              && (forall s :: s in w.store && s != spec.name ==> w'.store[s] == w.store[s])
              && w'.store[spec.name].spec == w.store[spec.name].spec
              && w'.store[spec.name].status == w.store[spec.name].status
              && var before, after := w.store[spec.name].replicas, w'.store[spec.name].replicas;
                 && |after| == |before| + 1 && after[..|before|] == before
                 && var r := after[|before|];
                    && r.id == launch.id && r.container == launch.container && r.node == target.value.id
                    && r.status == Running && r.ip == launch.ip && r.image == spec.image
  {
    hide Allocated, EndpointsOf, Merge, SelectNode;
  }

  function WithClaims(claims: Claims, spec: ServiceSpec, rs: seq<Replica>): Claims
    decreases |rs|
  {
    if rs == [] then claims
    else WithClaims(claims[rs[0].id := Claim(rs[0].node, spec.cpu, spec.mem)], spec, rs[1..])
  }

  /** From attempt k on, every launch brings an id and a container that nobody has used. */
  ghost predicate FreshSupply(supply: nat -> Launch, k: nat, claims: Claims, docker: Docker) {
    && (forall i :: i >= k && supply(i).Launched? ==> supply(i).id !in claims && supply(i).container !in docker)
    && (forall i, j :: k <= i < j && supply(i).Launched? && supply(j).Launched? ==>
          supply(i).id != supply(j).id && supply(i).container != supply(j).container)
  }

  lemma CreateKeeps(w: World, s: string, policy: Policy, launch: Launch, claims: Claims)
    requires Consistent(w, claims) && TidyRoutes(w.routes) && s in w.store
    requires launch.Launched? ==> launch.id !in claims
    ensures var svc := w.store[s];
            var w' := CreateReplica(w, svc.spec, policy, launch);
            match Started(w.ledger, svc.spec, policy, launch)
            case None => w' == w
            case Some(r) =>
              && w'.store == w.store[s := svc.(replicas := svc.replicas + [r])]
              && Consistent(w', claims[r.id := Claim(r.node, svc.spec.cpu, svc.spec.mem)])
              && SyncedStep(w, w', s)
              && HealthKept(Get(w.routes, s), w'.routes[s])
  {
    var svc := w.store[s];
    var started := Started(w.ledger, svc.spec, policy, launch);
    if started.Some? {
      var r := started.value;
      var n := SelectNode(policy, w.ledger, svc.spec.cpu, svc.spec.mem).value;
      var i :| 0 <= i < |w.ledger| && w.ledger[i] == n;
      IndexIsUnique(w.ledger, i);
      AllocateFresh(w.ledger, claims, r.id, Claim(r.node, svc.spec.cpu, svc.spec.mem));
      AddReplica(w.store, s, r, claims);
      var store' := w.store[s := svc.(replicas := svc.replicas + [r])];
      DistinctInService(store', s);
      SyncStep(World(store', w.docker[r.container := Container(true, launch.inspected)],
                     Charged(w.ledger, svc.spec, started), w.routes), s);
    }
  }

  /** The effect of adding the listed replicas to one service. */
  ghost predicate Added(w: World, w': World, s: string, rs: seq<Replica>, claims: Claims)
    requires s in w.store
  {
    && w'.store == w.store[s := w.store[s].(replicas := w.store[s].replicas + rs)]
    && Consistent(w', WithClaims(claims, w.store[s].spec, rs))
    && (if rs == [] then w' == w else SyncedStep(w, w', s))
  }

  lemma AddedThen(w: World, w1: World, w2: World, s: string, r: Replica, rs: seq<Replica>, claims: Claims)
    requires s in w.store && s in w1.store
    requires w1.store == w.store[s := w.store[s].(replicas := w.store[s].replicas + [r])]
    requires SyncedStep(w, w1, s)
    requires Added(w1, w2, s, rs, claims[r.id := Claim(r.node, w.store[s].spec.cpu, w.store[s].spec.mem)])
    ensures Added(w, w2, s, [r] + rs, claims)
  {
    assert w.store[s].replicas + [r] + rs == w.store[s].replicas + ([r] + rs);
    assert ([r] + rs)[1..] == rs;
    if rs != [] {
      SyncedThen(w, w1, w2, s);
    }
  }

  lemma AddedNone(w: World, s: string, claims: Claims)
    requires Consistent(w, claims) && s in w.store
    ensures Added(w, w, s, [], claims)
  {
    assert w.store[s].replicas + [] == w.store[s].replicas;
    assert w.store[s := w.store[s].(replicas := w.store[s].replicas)] == w.store;
  }

  lemma FreshAfter(supply: nat -> Launch, k: nat, claims: Claims, docker: Docker, claims': Claims, docker': Docker)
    requires FreshSupply(supply, k, claims, docker)
    requires forall id :: id in claims' ==> id in claims || (supply(k).Launched? && id == supply(k).id)
    requires forall c :: c in docker' ==> c in docker || (supply(k).Launched? && c == supply(k).container)
    ensures FreshSupply(supply, k + 1, claims', docker')
  {
  }

  /** Any number of creation attempts, some refused by Docker, keep the ledger exact. */
  lemma {:induction false} CreateFromKeeps(
    w: World, s: string, policy: Policy, supply: nat -> Launch, k: nat, n: nat, claims: Claims)
    requires Consistent(w, claims) && TidyRoutes(w.routes) && s in w.store && k <= n
    requires FreshSupply(supply, k, claims, w.docker)
    ensures var spec := w.store[s].spec;
            Added(w, CreateFrom(w, spec, policy, supply, k, n), s,
                  StartedFrom(w.ledger, spec, policy, supply, k, n), claims)
    decreases n - k
  {
    hide CreateReplica, Started, Charged;
    var spec := w.store[s].spec;
    if k == n {
      AddedNone(w, s, claims);
    } else {
      CreateParts(w, spec, policy, supply(k));
      CreateKeeps(w, s, policy, supply(k), claims);
      var w1 := CreateReplica(w, spec, policy, supply(k));
      match Started(w.ledger, spec, policy, supply(k))
      case None =>
        FreshAfter(supply, k, claims, w.docker, claims, w.docker);
        CreateFromKeeps(w1, s, policy, supply, k + 1, n, claims);
      case Some(r) =>
        StartedIs(w.ledger, spec, policy, supply(k));
        var claims' := claims[r.id := Claim(r.node, spec.cpu, spec.mem)];
        FreshAfter(supply, k, claims, w.docker, claims', w1.docker);
        CreateFromKeeps(w1, s, policy, supply, k + 1, n, claims');
        AddedThen(w, w1, CreateFrom(w1, spec, policy, supply, k + 1, n), s, r,
                  StartedFrom(w1.ledger, spec, policy, supply, k + 1, n), claims);
    }
  }

  lemma StartedIs(ledger: Ledger, spec: ServiceSpec, policy: Policy, launch: Launch)
    requires Started(ledger, spec, policy, launch).Some?
    ensures var r := Started(ledger, spec, policy, launch).value;
            && launch.Launched? && r.id == launch.id && r.container == launch.container && r.ip == launch.ip
            && r.status == Running && r.image == spec.image
  {
  }

  /** No node holds an id that is still to be supplied. */
  ghost predicate Unheld(ledger: Ledger, supply: nat -> Launch, k: nat) {
    && UniqueNodes(ledger)
    && forall i, j :: i >= k && supply(i).Launched? && 0 <= j < |ledger| ==> supply(i).id !in ledger[j].replicaIds
  }

  lemma FreshIsUnheld(ledger: Ledger, docker: Docker, supply: nat -> Launch, k: nat, claims: Claims)
    requires LedgerMatches(ledger, claims) && FreshSupply(supply, k, claims, docker)
    ensures Unheld(ledger, supply, k)
  {
    forall i, j | i >= k && supply(i).Launched? && 0 <= j < |ledger|
      ensures supply(i).id !in ledger[j].replicaIds
    {
      assert NodeMatches(ledger[j], claims);
    }
  }

  lemma UnheldAfter(ledger: Ledger, supply: nat -> Launch, k: nat, node: string, cpu: int, mem: int)
    requires Unheld(ledger, supply, k) && supply(k).Launched?
    requires forall i :: i > k && supply(i).Launched? ==> supply(i).id != supply(k).id
    ensures Unheld(Allocated(ledger, node, supply(k).id, cpu, mem), supply, k + 1)
  {
  }

  lemma AttemptTakesSlot(ledger: Ledger, spec: ServiceSpec, policy: Policy, supply: nat -> Launch, k: nat)
    requires Unheld(ledger, supply, k) && supply(k).Launched? && spec.cpu >= 0 && spec.mem >= 0
    requires forall i :: i > k && supply(i).Launched? ==> supply(i).id != supply(k).id
    ensures var slots := TotalSlots(ledger, spec.cpu, spec.mem);
            var r := Started(ledger, spec, policy, supply(k));
            && (r.None? <==> slots == Only(0))
            && TotalSlots(Charged(ledger, spec, r), spec.cpu, spec.mem) == Less(slots, 1)
            && Unheld(Charged(ledger, spec, r), supply, k + 1)
  {
    var id := supply(k).id;
    forall n | n in ledger ensures id !in n.replicaIds {
      var j :| 0 <= j < |ledger| && ledger[j] == n;
    }
    PlacementTakesOneSlot(policy, ledger, id, spec.cpu, spec.mem);
    var target := SelectNode(policy, ledger, spec.cpu, spec.mem);
    if target.Some? {
      UnheldAfter(ledger, supply, k, target.value.id, spec.cpu, spec.mem);
    }
  }

  /** When Docker refuses nothing, the number started is the number of attempts or the free slots, whichever is
      smaller, under either policy; the i-th replica started is the i-th one supplied. */
  lemma {:induction false} StartedCount(
    ledger: Ledger, spec: ServiceSpec, policy: Policy, supply: nat -> Launch, k: nat, n: nat)
    requires k <= n && Unheld(ledger, supply, k) && spec.cpu >= 0 && spec.mem >= 0
    requires forall i :: k <= i < n ==> supply(i).Launched?
    requires forall i, j :: k <= i < j && supply(i).Launched? && supply(j).Launched? ==> supply(i).id != supply(j).id
    ensures var rs := StartedFrom(ledger, spec, policy, supply, k, n);
            && |rs| == Fill(n - k, TotalSlots(ledger, spec.cpu, spec.mem))
            && forall i :: 0 <= i < |rs| ==> rs[i].id == supply(k + i).id
    decreases n - k
  {
    hide Started, Charged, Unheld, TotalSlots;
    if k < n {
      AttemptTakesSlot(ledger, spec, policy, supply, k);
      var r := Started(ledger, spec, policy, supply(k));
      if r.Some? {
        StartedIs(ledger, spec, policy, supply(k));
      }
      StartedCount(Charged(ledger, spec, r), spec, policy, supply, k + 1, n);
    }
  }

  /** After the attempts, the free slots that were not used are still free. */
  lemma {:induction false} SlotsAfter(w: World, spec: ServiceSpec, policy: Policy, supply: nat -> Launch, k: nat, n: nat)
    requires k <= n && Unheld(w.ledger, supply, k) && spec.cpu >= 0 && spec.mem >= 0
    requires forall i :: k <= i < n ==> supply(i).Launched?
    requires forall i, j :: k <= i < j && supply(i).Launched? && supply(j).Launched? ==> supply(i).id != supply(j).id
    ensures TotalSlots(CreateFrom(w, spec, policy, supply, k, n).ledger, spec.cpu, spec.mem)
         == Less(TotalSlots(w.ledger, spec.cpu, spec.mem), n - k)
    decreases n - k
  {
    hide Started, Charged, CreateReplica, Unheld, TotalSlots;
    if k < n {
      AttemptTakesSlot(w.ledger, spec, policy, supply, k);
      CreateParts(w, spec, policy, supply(k));
      SlotsAfter(CreateReplica(w, spec, policy, supply(k)), spec, policy, supply, k + 1, n);
    }
  }

  lemma {:induction false} StartedAreRunning(
    ledger: Ledger, spec: ServiceSpec, policy: Policy, supply: nat -> Launch, k: nat, n: nat)
    requires k <= n
    ensures var rs := StartedFrom(ledger, spec, policy, supply, k, n);
            && RunningOf(rs) == rs
            && forall r :: r in rs ==> r.status == Running && r.image == spec.image
    decreases n - k
  {
    if k < n {
      var r := Started(ledger, spec, policy, supply(k));
      if r.Some? {
        StartedIs(ledger, spec, policy, supply(k));
      }
      hide Started, Charged;
      StartedAreRunning(Charged(ledger, spec, r), spec, policy, supply, k + 1, n);
    }
  }

  /** Inspecting a new container later shows the address it was created with, or none. */
  ghost predicate FaithfulAddresses(supply: nat -> Launch) {
    forall i :: supply(i).Launched? ==> supply(i).inspected == "" || supply(i).inspected == supply(i).ip
  }

  ghost predicate Up(docker: Docker, r: Replica) {
    IsRunning(docker, r.container) && (docker[r.container].ip == "" || docker[r.container].ip == r.ip)
  }

  ghost predicate AllUp(docker: Docker, rs: seq<Replica>) {
    forall r :: r in rs ==> Up(docker, r)
  }

  lemma NoneUp(docker: Docker)
    ensures AllUp(docker, [])
  {}

  lemma UpCons(docker: Docker, r: Replica, rs: seq<Replica>)
    requires Up(docker, r) && AllUp(docker, rs)
    ensures AllUp(docker, [r] + rs)
  {}

  /** Creating leaves other containers alone and leaves every new replica's container up. */
  lemma {:induction false} CreateFromDocker(
    w: World, spec: ServiceSpec, policy: Policy, supply: nat -> Launch, k: nat, n: nat, claims: Claims)
    requires k <= n && FreshSupply(supply, k, claims, w.docker) && FaithfulAddresses(supply)
    ensures var rs := StartedFrom(w.ledger, spec, policy, supply, k, n);
            var w' := CreateFrom(w, spec, policy, supply, k, n);
            && (forall c :: c in w.docker ==> c in w'.docker && w'.docker[c] == w.docker[c])
            && AllUp(w'.docker, rs)
    decreases n - k
  {
    hide Started, Charged, CreateReplica, Up, AllUp;
    if k == n {
      NoneUp(w.docker);
    } else {
      var r := Started(w.ledger, spec, policy, supply(k));
      var w1 := CreateReplica(w, spec, policy, supply(k));
      CreateParts(w, spec, policy, supply(k));
      if r.Some? {
        StartedIs(w.ledger, spec, policy, supply(k));
        StartedUp(w, spec, policy, supply(k));
      }
      var claims' := if supply(k).Launched? then claims[supply(k).id := Claim("", 0, 0)] else claims;
      FreshAfter(supply, k, claims, w.docker, claims', w1.docker);
      CreateFromDocker(w1, spec, policy, supply, k + 1, n, claims');
      var rest := StartedFrom(w1.ledger, spec, policy, supply, k + 1, n);
      var w' := CreateFrom(w1, spec, policy, supply, k + 1, n);
      if r.Some? {
        UpStays(w1.docker, w'.docker, r.value);
        UpCons(w'.docker, r.value, rest);
      }
    }
  }

  lemma StartedUp(w: World, spec: ServiceSpec, policy: Policy, launch: Launch)
    requires Started(w.ledger, spec, policy, launch).Some?
    requires launch.Launched? && (launch.inspected == "" || launch.inspected == launch.ip)
    ensures Up(CreateReplica(w, spec, policy, launch).docker, Started(w.ledger, spec, policy, launch).value)
  {
    CreateParts(w, spec, policy, launch);
    StartedIs(w.ledger, spec, policy, launch);
    hide CreateReplica, Started;
  }

  lemma UpStays(docker: Docker, docker': Docker, r: Replica)
    requires Up(docker, r) && forall c :: c in docker ==> c in docker' && docker'[c] == docker[c]
    ensures Up(docker', r)
  {}
}
