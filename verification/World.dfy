/** The combined state the orchestrator drives: service store, Docker, resource ledger and routes. */
module Worlds {
  import opened Wrappers
  import opened Nodes
  import opened Routing
  import opened Selections

  datatype Status = Pending | Running | Updating | Degraded | Stopped | Failed | Deleting

  datatype Replica = Replica(
    id: string, container: string, node: string, status: Status, ip: string, image: string)

  datatype ServiceSpec = ServiceSpec(
    name: string, image: string, replicas: int, cpu: int, mem: int, port: int)

  datatype Service = Service(spec: ServiceSpec, status: Status, replicas: seq<Replica>)

  /** A container, with the address `docker inspect` reports on its service's network ("" when none). */
  datatype Container = Container(running: bool, ip: string)

  type Docker = map<string, Container>

  type Store = map<string, Service>

  datatype World = World(store: Store, docker: Docker, ledger: Ledger, routes: Table)

  predicate IsRunning(docker: Docker, container: string) {
    container in docker && docker[container].running
  }

  // ---- Lists of replicas ----

  function RunningOf(rs: seq<Replica>): seq<Replica> {
    if rs == [] then []
    else if rs[0].status == Running then [rs[0]] + RunningOf(rs[1..])
    else RunningOf(rs[1..])
  }

  predicate Stale(r: Replica, image: string) {
    r.image != "" && r.image != image
  }

  function StaleOf(rs: seq<Replica>, image: string): seq<Replica> {
    if rs == [] then []
    else if Stale(rs[0], image) then [rs[0]] + StaleOf(rs[1..], image)
    else StaleOf(rs[1..], image)
  }

  function CurrentOf(rs: seq<Replica>, image: string): seq<Replica> {
    if rs == [] then []
    else if Stale(rs[0], image) then CurrentOf(rs[1..], image)
    else [rs[0]] + CurrentOf(rs[1..], image)
  }

  function Without(rs: seq<Replica>, ids: set<string>): seq<Replica> {
    if rs == [] then []
    else if rs[0].id in ids then Without(rs[1..], ids)
    else [rs[0]] + Without(rs[1..], ids)
  }

  function Ids(rs: seq<Replica>): set<string> {
    set r | r in rs :: r.id
  }

  function Containers(rs: seq<Replica>): set<string> {
    set r | r in rs :: r.container
  }

  ghost predicate UniqueIds(rs: seq<Replica>) {
    forall i, j :: 0 <= i < j < |rs| ==> rs[i].id != rs[j].id
  }

  /** The endpoints a service should have: its running replicas with an address, in store order. */
  function EndpointsOf(rs: seq<Replica>, port: int): seq<Endpoint> {
    if rs == [] then []
    else if rs[0].status == Running && rs[0].ip != "" then
      [Endpoint(rs[0].id, rs[0].ip, port, false)] + EndpointsOf(rs[1..], port)
    else EndpointsOf(rs[1..], port)
  }

  // ---- Which entries the lists are made of ----

  lemma {:induction false} RunningSelects(rs: seq<Replica>)
    ensures Selects(rs, (r: Replica) => r.status == Running, (r: Replica) => r, RunningOf(rs))
  {
    if rs == [] {
      SelectsNothing((r: Replica) => r.status == Running, (r: Replica) => r);
    } else {
      RunningSelects(rs[1..]);
      SelectsCons(rs, (r: Replica) => r.status == Running, (r: Replica) => r, RunningOf(rs[1..]));
    }
  }

  lemma {:induction false} WithoutSelects(rs: seq<Replica>, ids: set<string>)
    ensures Selects(rs, (r: Replica) => r.id !in ids, (r: Replica) => r, Without(rs, ids))
  {
    if rs == [] {
      SelectsNothing((r: Replica) => r.id !in ids, (r: Replica) => r);
    } else {
      WithoutSelects(rs[1..], ids);
      SelectsCons(rs, (r: Replica) => r.id !in ids, (r: Replica) => r, Without(rs[1..], ids));
    }
  }

  lemma {:induction false} EndpointsSelect(rs: seq<Replica>, port: int)
    ensures Selects(rs, (r: Replica) => r.status == Running && r.ip != "",
                    (r: Replica) => Endpoint(r.id, r.ip, port, false), EndpointsOf(rs, port))
  {
    if rs == [] {
      SelectsNothing((r: Replica) => r.status == Running && r.ip != "",
                     (r: Replica) => Endpoint(r.id, r.ip, port, false));
    } else {
      EndpointsSelect(rs[1..], port);
      SelectsCons(rs, (r: Replica) => r.status == Running && r.ip != "",
                  (r: Replica) => Endpoint(r.id, r.ip, port, false), EndpointsOf(rs[1..], port));
    }
  }

  lemma {:induction false} RunningAppend(a: seq<Replica>, b: seq<Replica>)
    ensures RunningOf(a + b) == RunningOf(a) + RunningOf(b)
  {
    if a == [] {
      assert a + b == b;
    } else {
      assert (a + b)[1..] == a[1..] + b;
      RunningAppend(a[1..], b);
    }
  }

  lemma {:induction false} WithoutAppend(a: seq<Replica>, b: seq<Replica>, ids: set<string>)
    ensures Without(a + b, ids) == Without(a, ids) + Without(b, ids)
  {
    if a == [] {
      assert a + b == b;
    } else {
      assert (a + b)[1..] == a[1..] + b;
      WithoutAppend(a[1..], b, ids);
    }
  }

  lemma {:induction false} WithoutNone(rs: seq<Replica>, ids: set<string>)
    requires forall r :: r in rs ==> r.id !in ids
    ensures Without(rs, ids) == rs
  {
    if rs != [] {
      assert rs[0] in rs;
      WithoutNone(rs[1..], ids);
    }
  }

  lemma {:induction false} WithoutAll(rs: seq<Replica>, ids: set<string>)
    requires forall r :: r in rs ==> r.id in ids
    ensures Without(rs, ids) == []
  {
    if rs != [] {
      assert rs[0] in rs;
      WithoutAll(rs[1..], ids);
    }
  }

  lemma {:induction false} WithoutTwice(rs: seq<Replica>, a: set<string>, b: set<string>)
    ensures Without(Without(rs, a), b) == Without(rs, a + b)
  {
    if rs != [] {
      WithoutTwice(rs[1..], a, b);
      if rs[0].id !in a {
        assert Without(rs, a)[1..] == Without(rs[1..], a);
      }
    }
  }

  lemma {:induction false} WithoutMembers(rs: seq<Replica>, ids: set<string>)
    ensures forall r :: r in Without(rs, ids) <==> r in rs && r.id !in ids
  {
    if rs != [] {
      WithoutMembers(rs[1..], ids);
      assert rs == [rs[0]] + rs[1..];
    }
  }

  lemma {:induction false} WithoutCommutesRunning(rs: seq<Replica>, ids: set<string>)
    ensures RunningOf(Without(rs, ids)) == Without(RunningOf(rs), ids)
  {
    if rs != [] {
      WithoutCommutesRunning(rs[1..], ids);
      if rs[0].status == Running {
        assert RunningOf(rs)[1..] == RunningOf(rs[1..]);
      }
      if rs[0].id !in ids {
        assert Without(rs, ids)[1..] == Without(rs[1..], ids);
      }
    }
  }

  lemma {:induction false} RunningMembers(rs: seq<Replica>)
    ensures forall r :: r in RunningOf(rs) <==> r in rs && r.status == Running
  {
    if rs != [] {
      RunningMembers(rs[1..]);
      assert rs == [rs[0]] + rs[1..];
    }
  }

  lemma {:induction false} StaleMembers(rs: seq<Replica>, image: string)
    ensures forall r :: r in StaleOf(rs, image) <==> r in rs && Stale(r, image)
  {
    if rs != [] {
      StaleMembers(rs[1..], image);
      assert rs == [rs[0]] + rs[1..];
    }
  }

  lemma {:induction false} CurrentMembers(rs: seq<Replica>, image: string)
    ensures forall r :: r in CurrentOf(rs, image) <==> r in rs && !Stale(r, image)
  {
    if rs != [] {
      CurrentMembers(rs[1..], image);
      assert rs == [rs[0]] + rs[1..];
    }
  }

  lemma UniqueTail(rs: seq<Replica>)
    requires UniqueIds(rs) && rs != []
    ensures UniqueIds(rs[1..]) && rs[0].id !in Ids(rs[1..])
  {
  }

  lemma UniqueCons(r: Replica, rs: seq<Replica>)
    requires UniqueIds(rs) && r.id !in Ids(rs)
    ensures UniqueIds([r] + rs)
  {
    forall i | 0 <= i < |rs| ensures rs[i].id != r.id {
      assert rs[i] in rs;
    }
  }

  lemma {:induction false} UniqueRunning(rs: seq<Replica>)
    requires UniqueIds(rs)
    ensures UniqueIds(RunningOf(rs)) && Ids(RunningOf(rs)) <= Ids(rs)
  {
    RunningMembers(rs);
    if rs != [] {
      UniqueTail(rs);
      UniqueRunning(rs[1..]);
      if rs[0].status == Running {
        UniqueCons(rs[0], RunningOf(rs[1..]));
      }
    }
  }

  lemma {:induction false} UniqueStale(rs: seq<Replica>, image: string)
    requires UniqueIds(rs)
    ensures UniqueIds(StaleOf(rs, image)) && Ids(StaleOf(rs, image)) <= Ids(rs)
  {
    StaleMembers(rs, image);
    if rs != [] {
      UniqueTail(rs);
      UniqueStale(rs[1..], image);
      if Stale(rs[0], image) {
        UniqueCons(rs[0], StaleOf(rs[1..], image));
      }
    }
  }

  lemma {:induction false} UniqueWithout(rs: seq<Replica>, ids: set<string>)
    requires UniqueIds(rs)
    ensures UniqueIds(Without(rs, ids)) && Ids(Without(rs, ids)) == Ids(rs) - ids
  {
    WithoutMembers(rs, ids);
    if rs != [] {
      UniqueTail(rs);
      UniqueWithout(rs[1..], ids);
      if rs[0].id !in ids {
        UniqueCons(rs[0], Without(rs[1..], ids));
      }
    }
  }

  /** Taking the stale ids out of a list without repeats leaves exactly the current ones, in order. */
  lemma {:induction false} WithoutStaleIsCurrent(rs: seq<Replica>, image: string)
    requires UniqueIds(rs)
    ensures Without(rs, Ids(StaleOf(rs, image))) == CurrentOf(rs, image)
  {
    if rs != [] {
      UniqueTail(rs);
      UniqueStale(rs[1..], image);
      WithoutStaleIsCurrent(rs[1..], image);
      var ids, rest := Ids(StaleOf(rs, image)), Ids(StaleOf(rs[1..], image));
      if Stale(rs[0], image) {
        assert rs[0] in StaleOf(rs, image);
        assert StaleOf(rs, image) == [rs[0]] + StaleOf(rs[1..], image);
        assert ids == rest + {rs[0].id};
        assert Without(rs[1..], ids) == Without(Without(rs[1..], rest), {rs[0].id}) by {
          WithoutTwice(rs[1..], rest, {rs[0].id});
        }
        WithoutMembers(rs[1..], rest);
        WithoutNone(Without(rs[1..], rest), {rs[0].id});
      }
    }
  }

  /** In a list without repeats, removing one id removes exactly its position. */
  lemma {:induction false} WithoutOne(rs: seq<Replica>, k: nat)
    requires UniqueIds(rs) && k < |rs|
    ensures Without(rs, {rs[k].id}) == rs[..k] + rs[k + 1..]
  {
    assert rs == rs[..k] + [rs[k]] + rs[k + 1..];
    assert rs[..k] + [rs[k]] + rs[k + 1..] == rs[..k] + ([rs[k]] + rs[k + 1..]);
    WithoutAppend(rs[..k], [rs[k]] + rs[k + 1..], {rs[k].id});
    WithoutNone(rs[..k], {rs[k].id});
    WithoutNone(rs[k + 1..], {rs[k].id});
    assert ([rs[k]] + rs[k + 1..])[1..] == rs[k + 1..];
  }

  lemma {:induction false} EndpointsUnique(rs: seq<Replica>, port: int)
    requires UniqueIds(rs)
    ensures UniqueReplicas(EndpointsOf(rs, port))
    ensures forall e :: e in EndpointsOf(rs, port) ==> e.replica in Ids(rs) && !e.healthy
  {
    if rs != [] {
      UniqueTail(rs);
      EndpointsUnique(rs[1..], port);
      assert rs[0] in rs;
    }
  }

  // ---- One owner per replica, one claim per owner ----

  ghost predicate Holds(store: Store, s: string, i: int, id: string) {
    s in store && 0 <= i < |store[s].replicas| && store[s].replicas[i].id == id
  }

  ghost predicate Distinct(store: Store) {
    forall s, i, t, j, id :: Holds(store, s, i, id) && Holds(store, t, j, id) ==> s == t && i == j
  }

  ghost predicate ClaimsFor(store: Store, claims: Claims) {
    && (forall s, i, id :: Holds(store, s, i, id) ==>
          id in claims
          && claims[id] == Claim(store[s].replicas[i].node, store[s].spec.cpu, store[s].spec.mem))
    && (forall id :: id in claims ==> exists s, i :: Holds(store, s, i, id))
  }

  /** Claims are determined by the store. */
  lemma ClaimsAreUnique(store: Store, a: Claims, b: Claims)
    requires ClaimsFor(store, a) && ClaimsFor(store, b)
    ensures a == b
  {
    forall id ensures id in a <==> id in b {
      if id in a { var s, i :| Holds(store, s, i, id); }
      if id in b { var s, i :| Holds(store, s, i, id); }
    }
    forall id | id in a ensures a[id] == b[id] {
      var s, i :| Holds(store, s, i, id);
    }
  }

  /** Records are stored under their own name, and requests are not negative. */
  ghost predicate WellFormed(store: Store) {
    forall s :: s in store ==> store[s].spec.name == s && store[s].spec.cpu >= 0 && store[s].spec.mem >= 0
  }

  /** The ledger says exactly what the store says, and no node is over capacity. */
  ghost predicate Consistent(w: World, claims: Claims) {
    WellFormed(w.store) && Distinct(w.store) && ClaimsFor(w.store, claims) && LedgerMatches(w.ledger, claims)
  }

  ghost predicate Accounted(w: World) {
    exists claims :: Consistent(w, claims)
  }

  lemma DistinctInService(store: Store, s: string)
    requires Distinct(store) && s in store
    ensures UniqueIds(store[s].replicas)
  {
    var rs := store[s].replicas;
    forall i, j | 0 <= i < j < |rs| ensures rs[i].id != rs[j].id {
      assert Holds(store, s, i, rs[i].id) && Holds(store, s, j, rs[j].id);
    }
  }

  /** A copy of a replica of service `s`, read at some time: whoever holds its id today is that replica, on the same node
      and in the same container. The recorded address may have changed since, or the record may be gone. */
  ghost predicate OldCopy(store: Store, s: string, r: Replica) {
    forall t, k :: Holds(store, t, k, r.id) ==>
      t == s && store[t].replicas[k].node == r.node && store[t].replicas[k].container == r.container
  }

  predicate Recorded(store: Store, s: string, r: Replica) {
    s in store && r.id in Ids(store[s].replicas)
  }

  lemma CurrentIsCopy(store: Store, s: string, r: Replica)
    requires Distinct(store) && s in store && r in store[s].replicas
    ensures OldCopy(store, s, r) && Recorded(store, s, r)
  {
    var i :| 0 <= i < |store[s].replicas| && store[s].replicas[i] == r;
    assert Holds(store, s, i, r.id);
  }

  /** Dropping the k-th replica of one service drops exactly its claim. */
  lemma DropReplica(store: Store, s: string, k: nat, claims: Claims)
    requires WellFormed(store) && Distinct(store) && ClaimsFor(store, claims)
    requires s in store && k < |store[s].replicas|
    ensures var svc := store[s];
            var id := svc.replicas[k].id;
            var store' := store[s := svc.(replicas := svc.replicas[..k] + svc.replicas[k + 1..])];
            && id in claims && claims[id] == Claim(svc.replicas[k].node, svc.spec.cpu, svc.spec.mem)
            && WellFormed(store') && Distinct(store') && ClaimsFor(store', claims - {id})
  {
    var svc := store[s];
    var id := svc.replicas[k].id;
    var store' := Dropped(store, s, k);
    assert Holds(store, s, k, id);
    forall t, j, x | Holds(store', t, j, x)
      ensures x in claims - {id} && claims[x] == Claim(store'[t].replicas[j].node, store'[t].spec.cpu, store'[t].spec.mem) {
      var i := DroppedFrom(store, s, k, t, j, x);
    }
    forall x | x in claims - {id} ensures exists t, j :: Holds(store', t, j, x) {
      var t, j :| Holds(store, t, j, x);
      StillHolds(store, s, k, t, j, x);
    }
    DropDistinct(store, s, k);
  }

  function Dropped(store: Store, s: string, k: nat): Store
    requires s in store && k < |store[s].replicas|
  {
    store[s := store[s].(replicas := store[s].replicas[..k] + store[s].replicas[k + 1..])]
  }

  /** Where what is held after dropping one replica was held before. */
  lemma DroppedFrom(store: Store, s: string, k: nat, t: string, j: int, x: string) returns (i: int)
    requires s in store && k < |store[s].replicas| && Holds(Dropped(store, s, k), t, j, x)
    ensures i == if t == s && j >= k then j + 1 else j
    ensures Holds(store, t, i, x) && !(t == s && i == k)
    ensures Dropped(store, s, k)[t].replicas[j] == store[t].replicas[i]
    ensures Dropped(store, s, k)[t].spec == store[t].spec
  {
    i := if t == s && j >= k then j + 1 else j;
  }

  /** And the other way round. */
  lemma StillHolds(store: Store, s: string, k: nat, t: string, j: int, x: string)
    requires s in store && k < |store[s].replicas| && Holds(store, t, j, x) && !(t == s && j == k)
    ensures Holds(Dropped(store, s, k), t, if t == s && j > k then j - 1 else j, x)
  {}

  lemma DropDistinct(store: Store, s: string, k: nat)
    requires Distinct(store) && s in store && k < |store[s].replicas|
    ensures Distinct(Dropped(store, s, k))
  {
    var store' := Dropped(store, s, k);
    forall t, i, u, j, x | Holds(store', t, i, x) && Holds(store', u, j, x) ensures t == u && i == j {
      var a := DroppedFrom(store, s, k, t, i, x);
      var b := DroppedFrom(store, s, k, u, j, x);
    }
  }

  /** Adding a replica with an unused id adds exactly its claim. */
  lemma AddReplica(store: Store, s: string, r: Replica, claims: Claims)
    requires WellFormed(store) && Distinct(store) && ClaimsFor(store, claims)
    requires s in store && r.id !in claims
    ensures var svc := store[s];
            var store' := store[s := svc.(replicas := svc.replicas + [r])];
            && WellFormed(store') && Distinct(store')
            && ClaimsFor(store', claims[r.id := Claim(r.node, svc.spec.cpu, svc.spec.mem)])
  {
    var svc := store[s];
    var n := |svc.replicas|;
    var store' := store[s := svc.(replicas := svc.replicas + [r])];
    var claims' := claims[r.id := Claim(r.node, svc.spec.cpu, svc.spec.mem)];
    forall t, j, x | Holds(store', t, j, x) ensures (t == s && j == n && x == r.id) || (Holds(store, t, j, x) && x != r.id) {
      if !(t == s && j == n) {
        assert Holds(store, t, j, x);
      }
    }
    forall x | x in claims' ensures exists t, j :: Holds(store', t, j, x) {
      if x == r.id {
        assert Holds(store', s, n, x);
      } else {
        var t, j :| Holds(store, t, j, x);
        assert Holds(store', t, j, x);
      }
    }
  }

  /** Same ids on the same nodes, same requests: the claims stay as they were. */
  lemma TouchService(store: Store, s: string, svc: Service, claims: Claims)
    requires WellFormed(store) && Distinct(store) && ClaimsFor(store, claims)
    requires s in store && svc.spec.name == s
    requires svc.spec.cpu == store[s].spec.cpu && svc.spec.mem == store[s].spec.mem
    requires |svc.replicas| == |store[s].replicas|
    requires forall i :: 0 <= i < |svc.replicas| ==>
               svc.replicas[i].id == store[s].replicas[i].id && svc.replicas[i].node == store[s].replicas[i].node
    ensures var store' := store[s := svc]; WellFormed(store') && Distinct(store') && ClaimsFor(store', claims)
  {
    var store' := store[s := svc];
    forall t, j, x ensures Holds(store', t, j, x) <==> Holds(store, t, j, x) {
    }
    forall x | x in claims ensures exists t, j :: Holds(store', t, j, x) {
      var t, j :| Holds(store, t, j, x);
      assert Holds(store', t, j, x);
    }
  }
}
