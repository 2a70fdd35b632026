/** One reconcile pass over one service, as functions of the combined state. */
module Reconcile {
  import opened Wrappers
  import opened Nodes
  import opened Scheduler
  import opened Routing
  import opened Worlds
  import opened Selections

  // ---- Routing sync ----

  /** `_sync_routing_table`. */
  function Sync(w: World, svc: Service): World {
    w.(routes := Updated(w.routes, svc.spec.name, EndpointsOf(svc.replicas, svc.spec.port)))
  }

  function Bare(endpoints: seq<Endpoint>): seq<Endpoint> {
    seq(|endpoints|, i requires 0 <= i < |endpoints| => endpoints[i].(healthy := false))
  }

  /** The service's routes are its running replicas with an address, in store order. */
  ghost predicate RoutesAgree(w: World, s: string) {
    && s in w.store && s in w.routes
    && Bare(w.routes[s]) == EndpointsOf(w.store[s].replicas, w.store[s].spec.port)
  }

  /** The endpoints serve a service: there are positions of its list of replicas, in order and namely all those of a running
      replica with an address, and the k-th endpoint is that of the replica at the k-th of them. */
  ghost predicate Serves(endpoints: seq<Endpoint>, rs: seq<Replica>, port: int) {
    exists at: seq<nat> :: ServesAt(endpoints, rs, port, at)
  }

  ghost predicate ServesAt(endpoints: seq<Endpoint>, rs: seq<Replica>, port: int, at: seq<nat>) {
    && Ascending(at, |rs|)
    && (forall i: nat :: i < |rs| ==> (i in at <==> rs[i].status == Running && rs[i].ip != ""))
    && |endpoints| == |at|
    && forall k :: 0 <= k < |at| ==>
         && at[k] < |rs| && endpoints[k].replica == rs[at[k]].id && endpoints[k].host == rs[at[k]].ip
         && endpoints[k].port == port
  }

  /** Agreement is that, whatever the health bits. */
  lemma ServesIff(endpoints: seq<Endpoint>, rs: seq<Replica>, port: int)
    ensures Bare(endpoints) == EndpointsOf(rs, port) <==> Serves(endpoints, rs, port)
  {
    hide EndpointsOf, Ascending;
    EndpointsSelect(rs, port);
    var keep := (r: Replica) => r.status == Running && r.ip != "";
    var form := (r: Replica) => Endpoint(r.id, r.ip, port, false);
    if Bare(endpoints) == EndpointsOf(rs, port) {
      var at :| Picks(rs, keep, at) && Formed(rs, form, at, EndpointsOf(rs, port));
      forall k | 0 <= k < |at|
        ensures endpoints[k].replica == rs[at[k]].id && endpoints[k].host == rs[at[k]].ip && endpoints[k].port == port {
        assert Bare(endpoints)[k] == form(rs[at[k]]);
      }
      assert ServesAt(endpoints, rs, port, at);
    }
    if Serves(endpoints, rs, port) {
      var at :| ServesAt(endpoints, rs, port, at);
      assert Picks(rs, keep, at) && Formed(rs, form, at, Bare(endpoints));
      SelectsOne(rs, keep, form, Bare(endpoints), EndpointsOf(rs, port));
    }
  }

  lemma RoutesAgreeIff(w: World, s: string)
    ensures RoutesAgree(w, s)
       <==> s in w.store && s in w.routes && Serves(w.routes[s], w.store[s].replicas, w.store[s].spec.port)
  {
    hide EndpointsOf, Serves, Bare;
    if s in w.store && s in w.routes {
      ServesIff(w.routes[s], w.store[s].replicas, w.store[s].spec.port);
    }
  }

  /** After a sync with any record, its routes serve it. */
  lemma SyncServes(w: World, svc: Service)
    ensures svc.spec.name in Sync(w, svc).routes
    ensures Serves(Sync(w, svc).routes[svc.spec.name], svc.replicas, svc.spec.port)
  {
    hide EndpointsOf, Serves;
    var after := Sync(w, svc).routes[svc.spec.name];
    EndpointsUnhealthy(svc.replicas, svc.spec.port);
    assert Bare(after) == EndpointsOf(svc.replicas, svc.spec.port);
    ServesIff(after, svc.replicas, svc.spec.port);
  }

  lemma {:induction false} EndpointsUnhealthy(rs: seq<Replica>, port: int)
    ensures forall e :: e in EndpointsOf(rs, port) ==> !e.healthy
  {
    if rs != [] {
      EndpointsUnhealthy(rs[1..], port);
    }
  }

  /** Replicas that stay listed keep their health bit; replicas newly listed start unhealthy. */
  ghost predicate HealthKept(before: seq<Endpoint>, after: seq<Endpoint>) {
    forall i :: 0 <= i < |after| ==>
      && (forall j :: 0 <= j < |before| && before[j].replica == after[i].replica ==>
            after[i].healthy == before[j].healthy)
      && (!Lists(before, after[i].replica) ==> !after[i].healthy)
  }

  lemma SyncAgrees(w: World, s: string)
    requires s in w.store && w.store[s].spec.name == s && UniqueIds(w.store[s].replicas)
    requires UniqueReplicas(Get(w.routes, s))
    ensures RoutesAgree(Sync(w, w.store[s]), s)
    ensures Serves(Sync(w, w.store[s]).routes[s], w.store[s].replicas, w.store[s].spec.port)
    ensures UniqueReplicas(Sync(w, w.store[s]).routes[s])
    ensures HealthKept(Get(w.routes, s), Sync(w, w.store[s]).routes[s])
  {
    hide Serves;
    SyncServes(w, w.store[s]);
    var svc := w.store[s];
    var eps := EndpointsOf(svc.replicas, svc.spec.port);
    var before, after := Get(w.routes, s), Sync(w, svc).routes[s];
    EndpointsUnique(svc.replicas, svc.spec.port);
    assert Bare(after) == eps;
    forall i | 0 <= i < |after|
      ensures forall j :: 0 <= j < |before| && before[j].replica == after[i].replica ==>
                after[i].healthy == before[j].healthy
      ensures !Lists(before, after[i].replica) ==> !after[i].healthy
    {
      assert after[i].replica == eps[i].replica;
      forall j | 0 <= j < |before| && before[j].replica == after[i].replica
        ensures after[i].healthy == before[j].healthy
      {
        HealthOfListed(before, j, false);
      }
      if !Lists(before, after[i].replica) {
        HealthOfUnlisted(before, after[i].replica, false);
      }
    }
  }

  /** Syncing routes that already agree changes nothing, health bits included. */
  lemma SyncIdle(w: World, s: string)
    requires RoutesAgree(w, s) && w.store[s].spec.name == s && UniqueReplicas(w.routes[s])
    ensures Sync(w, w.store[s]) == w
  {
    var before := w.routes[s];
    var eps := EndpointsOf(w.store[s].replicas, w.store[s].spec.port);
    var after := Merge(before, eps);
    forall i | 0 <= i < |before| ensures after[i] == before[i] {
      assert Bare(before)[i] == eps[i];
      HealthOfListed(before, i, false);
    }
    assert after == before;
    assert w.routes[s := before] == w.routes;
  }

  // ---- Refresh ----

  datatype Observation = Observation(docker: Docker, ledger: Ledger, replicas: seq<Replica>, changed: bool)

  /** A running container's address on the service network replaces the recorded one, when there is one. */
  function Observe(docker: Docker, r: Replica): Replica {
    if r.container in docker && docker[r.container].ip != "" then r.(ip := docker[r.container].ip) else r
  }

  /** The loop of `_refresh_observed_replicas`. */
  function RefreshLoop(docker: Docker, ledger: Ledger, spec: ServiceSpec, todo: seq<Replica>): Observation
    decreases |todo|
  {
    if todo == [] then Observation(docker, ledger, [], false)
    else
      var r := todo[0];
      if r.status != Running then
        var rest := RefreshLoop(docker, ledger, spec, todo[1..]);
        rest.(replicas := [r] + rest.replicas)
      else if !IsRunning(docker, r.container) then
        var rest := RefreshLoop(
          docker - {r.container}, Deallocated(ledger, r.node, r.id, spec.cpu, spec.mem), spec, todo[1..]);
        rest.(changed := true)
      else
        var seen := Observe(docker, r);
        var rest := RefreshLoop(docker, Allocated(ledger, r.node, r.id, spec.cpu, spec.mem), spec, todo[1..]);
        rest.(replicas := [seen] + rest.replicas, changed := rest.changed || seen != r)
  }

  datatype Refreshed = Refreshed(world: World, service: Service)

  function Refresh(w: World, svc: Service): Refreshed {
    var o := RefreshLoop(w.docker, w.ledger, svc.spec, svc.replicas);
    var svc' := if o.changed then svc.(replicas := o.replicas) else svc;
    var store' := if o.changed then w.store[svc.spec.name := svc'] else w.store;
    Refreshed(Sync(w.(store := store', docker := o.docker, ledger := o.ledger), svc'), svc')
  }

  // ---- Replica lifecycle ----

  /** `_remove_replica`. */
  function RemoveReplica(w: World, spec: ServiceSpec, r: Replica): World {
    var w1 := w.(docker := w.docker - {r.container},
                 ledger := Deallocated(w.ledger, r.node, r.id, spec.cpu, spec.mem));
    if spec.name in w1.store then
      var cur := w1.store[spec.name];
      var cur' := cur.(replicas := Without(cur.replicas, {r.id}));
      Sync(w1.(store := w1.store[spec.name := cur']), cur')
    else
      w1
  }

  function RemoveEach(w: World, spec: ServiceSpec, rs: seq<Replica>): World
    decreases |rs|
  {
    if rs == [] then w else RemoveEach(RemoveReplica(w, spec, rs[0]), spec, rs[1..])
  }

  /** What Docker and the id generator answer to one attempt to start a replica: `ip` is returned at creation,
      `inspected` is what inspecting the container shows. */
  datatype Launch = Launched(id: string, container: string, ip: string, inspected: string) | Refused

  /** The replica one attempt starts, if a node has room and Docker obliges. */
  function Started(ledger: Ledger, spec: ServiceSpec, policy: Policy, launch: Launch): Option<Replica> {
    var target := SelectNode(policy, ledger, spec.cpu, spec.mem);
    if target.None? || launch.Refused? then None
    else Some(Replica(launch.id, launch.container, target.value.id, Running, launch.ip, spec.image))
  }

  function Charged(ledger: Ledger, spec: ServiceSpec, r: Option<Replica>): Ledger {
    if r.None? then ledger else Allocated(ledger, r.value.node, r.value.id, spec.cpu, spec.mem)
  }

  /** Account for a started replica and append it to the service's current record. */
  function Register(w: World, spec: ServiceSpec, r: Replica, container: Container): World {
    var w1 := w.(docker := w.docker[r.container := container], ledger := Charged(w.ledger, spec, Some(r)));
    if spec.name in w1.store then
      var cur := w1.store[spec.name];
      var cur' := cur.(replicas := cur.replicas + [r]);
      Sync(w1.(store := w1.store[spec.name := cur']), cur')
    else
      w1
  }

  /** `_create_replica`. */
  function CreateReplica(w: World, spec: ServiceSpec, policy: Policy, launch: Launch): World {
    match Started(w.ledger, spec, policy, launch)
    case None => w
    case Some(r) => Register(w, spec, r, Container(true, launch.inspected))
  }

  /** Attempts number k, k + 1, ..., n - 1. */
  function CreateFrom(w: World, spec: ServiceSpec, policy: Policy, supply: nat -> Launch, k: nat, n: nat): World
    requires k <= n
    decreases n - k
  {
    if k == n then w else CreateFrom(CreateReplica(w, spec, policy, supply(k)), spec, policy, supply, k + 1, n)
  }

  /** Python's `s[d:]`, where a negative index counts from the end. */
  function SliceFrom<T>(s: seq<T>, d: int): seq<T> {
    s[SliceStart(|s|, d)..]
  }

  function SliceStart(n: nat, d: int): (k: nat)
    ensures k <= n
  {
    if d >= 0 then Min(d, n) else Max(0, n + d)
  }

  function SettleStatus(w: World, s: string): World {
    if s !in w.store then w
    else
      var svc := w.store[s];
      var status := if RunningOf(svc.replicas) != [] then Running else Degraded;
      if svc.status == status then w else w.(store := w.store[s := svc.(status := status)])
  }

  /** Scale to the wanted count, from the replicas found running. */
  function Scale(
    w: World, spec: ServiceSpec, desired: int, running: seq<Replica>, policy: Policy, supply: nat -> Launch): World
  {
    if |running| < desired then CreateFrom(w, spec, policy, supply, 0, desired - |running|)
    else if |running| > desired then RemoveEach(w, spec, SliceFrom(running, desired))
    else w
  }

  function ReconcileService(w: World, svc: Service, policy: Policy, supply: nat -> Launch): World {
    var name := svc.spec.name;
    var Refreshed(w1, s1) := Refresh(w, svc);
    var running := RunningOf(s1.replicas);
    var stale := StaleOf(running, svc.spec.image);
    var w2 := RemoveEach(w1, s1.spec, stale);
    var s2 := if stale != [] && name in w2.store then w2.store[name] else s1;
    var running2 := if stale == [] then running else RunningOf(s2.replicas);
    SettleStatus(Scale(w2, s2.spec, svc.spec.replicas, running2, policy, supply), name)
  }

  /** `_teardown_service`. */
  function TeardownService(w: World, svc: Service): World {
    var w1 := RemoveEach(w, svc.spec, svc.replicas);
    w1.(store := w1.store - {svc.spec.name}, routes := w1.routes - {svc.spec.name})
  }

  function ReleaseEach(w: World, spec: ServiceSpec, rs: seq<Replica>): World
    decreases |rs|
  {
    if rs == [] then w
    else
      var w1 := w.(docker := w.docker - {rs[0].container},
                   ledger := Deallocated(w.ledger, rs[0].node, rs[0].id, spec.cpu, spec.mem));
      ReleaseEach(w1, spec, rs[1..])
  }

  /** `delete_service`. */
  function DeleteService(w: World, s: string): World {
    if s !in w.store then w
    else
      var svc := w.store[s];
      var w1 := ReleaseEach(w, svc.spec, svc.replicas);
      w1.(store := w1.store - {s}, routes := w1.routes - {s})
  }

  // ---- What refreshing sees ----

  predicate Dead(docker: Docker, r: Replica) {
    r.status == Running && !IsRunning(docker, r.container)
  }

  /** The replicas that survive a look at Docker, with the addresses Docker reports. */
  function Observed(docker: Docker, rs: seq<Replica>): seq<Replica> {
    if rs == [] then []
    else if Dead(docker, rs[0]) then Observed(docker, rs[1..])
    else if rs[0].status == Running then [Observe(docker, rs[0])] + Observed(docker, rs[1..])
    else [rs[0]] + Observed(docker, rs[1..])
  }

  function DeadOf(docker: Docker, rs: seq<Replica>): seq<Replica> {
    if rs == [] then []
    else if Dead(docker, rs[0]) then [rs[0]] + DeadOf(docker, rs[1..])
    else DeadOf(docker, rs[1..])
  }

  ghost predicate SameLiveContainers(d: Docker, d': Docker) {
    forall c :: (IsRunning(d, c) <==> IsRunning(d', c)) && (IsRunning(d, c) ==> d[c] == d'[c])
  }

  lemma {:induction false} ObservedFrame(d: Docker, d': Docker, rs: seq<Replica>)
    requires SameLiveContainers(d, d')
    ensures Observed(d, rs) == Observed(d', rs)
    ensures DeadOf(d, rs) == DeadOf(d', rs)
  {
    if rs != [] {
      ObservedFrame(d, d', rs[1..]);
    }
  }

  /** The refresh loop's outcome `o` is exact for a store whose list is `done` followed by what was observed. */
  ghost predicate RefreshedTo(
    docker: Docker, store: Store, s: string, done: seq<Replica>, todo: seq<Replica>, claims: Claims, o: Observation)
    requires s in store
  {
    var store' := store[s := store[s].(replicas := done + o.replicas)];
    var claims' := claims - Ids(DeadOf(docker, todo));
    && o.replicas == Observed(docker, todo)
    && o.docker == docker - Containers(DeadOf(docker, todo))
    && (!o.changed ==> o.replicas == todo && DeadOf(docker, todo) == [])
    && WellFormed(store') && Distinct(store') && ClaimsFor(store', claims') && LedgerMatches(o.ledger, claims')
  }

  lemma DeadStep(
    docker: Docker, ledger: Ledger, store: Store, s: string, done: seq<Replica>, todo: seq<Replica>, claims: Claims)
    requires s in store && todo != [] && Dead(docker, todo[0])
    requires var r, spec := todo[0], store[s].spec;
             var docker', ledger' := docker - {r.container}, Deallocated(ledger, r.node, r.id, spec.cpu, spec.mem);
             RefreshedTo(docker', store, s, done, todo[1..], claims - {r.id}, RefreshLoop(docker', ledger', spec, todo[1..]))
    ensures RefreshedTo(docker, store, s, done, todo, claims, RefreshLoop(docker, ledger, store[s].spec, todo))
  {
    var r := todo[0];
    ObservedFrame(docker, docker - {r.container}, todo[1..]);
    var dead, rest := DeadOf(docker, todo), DeadOf(docker, todo[1..]);
    assert dead == [r] + rest;
    assert Ids(dead) == Ids(rest) + {r.id};
    assert Containers(dead) == Containers(rest) + {r.container};
    assert claims - {r.id} - Ids(rest) == claims - Ids(dead);
    assert docker - {r.container} - Containers(rest) == docker - Containers(dead);
  }

  lemma LiveStep(
    docker: Docker, ledger: Ledger, store: Store, s: string, done: seq<Replica>, todo: seq<Replica>, claims: Claims)
    requires s in store && todo != [] && !Dead(docker, todo[0])
    requires var r, spec := todo[0], store[s].spec;
             r.status == Running ==> Allocated(ledger, r.node, r.id, spec.cpu, spec.mem) == ledger
    requires var seen := if todo[0].status == Running then Observe(docker, todo[0]) else todo[0];
             RefreshedTo(docker, store, s, done + [seen], todo[1..], claims,
                         RefreshLoop(docker, ledger, store[s].spec, todo[1..]))
    ensures RefreshedTo(docker, store, s, done, todo, claims, RefreshLoop(docker, ledger, store[s].spec, todo))
  {
    var seen := if todo[0].status == Running then Observe(docker, todo[0]) else todo[0];
    var o, rest := RefreshLoop(docker, ledger, store[s].spec, todo), RefreshLoop(docker, ledger, store[s].spec, todo[1..]);
    assert done + [seen] + rest.replicas == done + o.replicas;
    assert DeadOf(docker, todo) == DeadOf(docker, todo[1..]);
    assert todo == [todo[0]] + todo[1..];
  }

  /** Replacing the service's list before or after makes no difference to where the loop ends. */
  lemma RefreshedToFrame(
    docker: Docker, store: Store, store': Store, s: string, done: seq<Replica>, todo: seq<Replica>, claims: Claims,
    o: Observation)
    requires s in store && s in store' && store'[s].spec == store[s].spec && store'[s].status == store[s].status
    requires store' == store[s := store'[s]]
    requires RefreshedTo(docker, store', s, done, todo, claims, o)
    ensures RefreshedTo(docker, store, s, done, todo, claims, o)
  {
    assert store'[s := store'[s].(replicas := done + o.replicas)] == store[s := store[s].(replicas := done + o.replicas)];
  }

  lemma RefreshNothing(
    docker: Docker, ledger: Ledger, store: Store, s: string, done: seq<Replica>, claims: Claims)
    requires s in store && store[s].replicas == done
    requires WellFormed(store) && Distinct(store) && ClaimsFor(store, claims) && LedgerMatches(ledger, claims)
    ensures RefreshedTo(docker, store, s, done, [], claims, RefreshLoop(docker, ledger, store[s].spec, []))
  {
    assert done + [] == done;
    assert store[s := store[s].(replicas := done + [])] == store;
    assert claims - Ids(DeadOf(docker, [])) == claims;
    assert docker - Containers(DeadOf(docker, [])) == docker;
  }

  /** The refresh loop, from a state in which the store's list is `done + todo`. */
  lemma {:induction false} RefreshLoopKeeps(
    docker: Docker, ledger: Ledger, store: Store, s: string, done: seq<Replica>, todo: seq<Replica>, claims: Claims)
    requires s in store && store[s].replicas == done + todo
    requires WellFormed(store) && Distinct(store) && ClaimsFor(store, claims) && LedgerMatches(ledger, claims)
    ensures RefreshedTo(docker, store, s, done, todo, claims, RefreshLoop(docker, ledger, store[s].spec, todo))
    decreases |todo|, 1
  {
    if todo == [] {
      assert done + todo == done;
      RefreshNothing(docker, ledger, store, s, done, claims);
    } else if Dead(docker, todo[0]) {
      RefreshDead(docker, ledger, store, s, done, todo, claims);
    } else {
      RefreshLive(docker, ledger, store, s, done, todo, claims);
    }
  }

  lemma {:induction false} RefreshDead(
    docker: Docker, ledger: Ledger, store: Store, s: string, done: seq<Replica>, todo: seq<Replica>, claims: Claims)
    requires s in store && store[s].replicas == done + todo && todo != [] && Dead(docker, todo[0])
    requires WellFormed(store) && Distinct(store) && ClaimsFor(store, claims) && LedgerMatches(ledger, claims)
    ensures RefreshedTo(docker, store, s, done, todo, claims, RefreshLoop(docker, ledger, store[s].spec, todo))
    decreases |todo|, 0
  {
    var svc, r, k := store[s], todo[0], |done|;
    var docker' := docker - {r.container};
    var ledger' := Deallocated(ledger, r.node, r.id, svc.spec.cpu, svc.spec.mem);
    var store' := store[s := svc.(replicas := done + todo[1..])];
    assert svc.replicas[k] == r;
    assert svc.replicas[..k] + svc.replicas[k + 1..] == done + todo[1..];
    DropReplica(store, s, k, claims);
    DeallocateHeld(ledger, claims, r.id);
    RefreshLoopKeeps(docker', ledger', store', s, done, todo[1..], claims - {r.id});
    var o := RefreshLoop(docker', ledger', svc.spec, todo[1..]);
    RefreshedToFrame(docker', store, store', s, done, todo[1..], claims - {r.id}, o);
    DeadStep(docker, ledger, store, s, done, todo, claims);
  }

  lemma {:induction false} RefreshLive(
    docker: Docker, ledger: Ledger, store: Store, s: string, done: seq<Replica>, todo: seq<Replica>, claims: Claims)
    requires s in store && store[s].replicas == done + todo && todo != [] && !Dead(docker, todo[0])
    requires WellFormed(store) && Distinct(store) && ClaimsFor(store, claims) && LedgerMatches(ledger, claims)
    ensures RefreshedTo(docker, store, s, done, todo, claims, RefreshLoop(docker, ledger, store[s].spec, todo))
    decreases |todo|, 0
  {
    hide RefreshLoop, Observed, DeadOf, LedgerMatches;
    var svc, r, k := store[s], todo[0], |done|;
    var seen := if r.status == Running then Observe(docker, r) else r;
    var svc' := svc.(replicas := done + [seen] + todo[1..]);
    assert svc.replicas[k] == r;
    assert Holds(store, s, k, r.id);
    TouchService(store, s, svc', claims);
    if r.status == Running {
      AllocateHeld(ledger, claims, r.id);
    }
    RefreshLoopKeeps(docker, ledger, store[s := svc'], s, done + [seen], todo[1..], claims);
    var o := RefreshLoop(docker, ledger, svc.spec, todo[1..]);
    RefreshedToFrame(docker, store, store[s := svc'], s, done + [seen], todo[1..], claims, o);
    LiveStep(docker, ledger, store, s, done, todo, claims);
  }
}
