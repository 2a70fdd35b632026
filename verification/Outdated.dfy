/** Acting on a record that was read before someone else wrote: removals by old copies of replicas, and visits of the
    reconcile loop with the record it listed earlier. */
module Outdated {
  import opened Wrappers
  import opened Nodes
  import opened Scheduler
  import opened Routing
  import opened Worlds
  import opened Reconcile
  import opened ReconcileProofs
  import opened Runs

  // ---- A series of equal refunds, node by node ----

  function Refunds(ledger: Ledger, cpu: int, mem: int, rs: seq<Replica>): Ledger
    decreases |rs|
  {
    if rs == [] then ledger
    else Refunds(Deallocated(ledger, rs[0].node, rs[0].id, cpu, mem), cpu, mem, rs[1..])
  }

  function CountOn(rs: seq<Replica>, node: string): nat {
    if rs == [] then 0 else (if rs[0].node == node then 1 else 0) + CountOn(rs[1..], node)
  }

  /** The ids a node still lists after the refunds. */
  function Shed(ids: seq<string>, rs: seq<Replica>, node: string): seq<string>
    decreases |rs|
  {
    if rs == [] then ids
    else Shed(if rs[0].node == node then RemoveFirst(ids, rs[0].id) else ids, rs[1..], node)
  }

  function ShedNode(n: Node, cpu: int, mem: int, rs: seq<Replica>): Node {
    n.(cpuUsed := Max(0, n.cpuUsed - cpu * CountOn(rs, n.id)), memUsed := Max(0, n.memUsed - mem * CountOn(rs, n.id)),
       replicaIds := Shed(n.replicaIds, rs, n.id))
  }

  ghost predicate NonNegativeUse(ledger: Ledger) {
    UniqueNodes(ledger) && forall j :: 0 <= j < |ledger| ==> ledger[j].cpuUsed >= 0 && ledger[j].memUsed >= 0
  }

  lemma ClampTwice(u: int, c: nat, m: nat)
    ensures Max(0, Max(0, u - c) - c * m) == Max(0, u - c * (m + 1))
  {
    assert c * (m + 1) == c * m + c;
    assert c * m >= 0;
  }

  lemma DeallocatedAt(ledger: Ledger, r: Replica, cpu: int, mem: int, j: nat)
    requires UniqueNodes(ledger) && j < |ledger|
    ensures var l := Deallocated(ledger, r.node, r.id, cpu, mem);
            && |l| == |ledger|
            && l[j] == if r.node == ledger[j].id then Refund(ledger[j], r.id, cpu, mem) else ledger[j]
  {
    IndexIsUnique(ledger, j);
  }

  lemma DeallocatedSane(ledger: Ledger, r: Replica, cpu: int, mem: int)
    requires NonNegativeUse(ledger)
    ensures NonNegativeUse(Deallocated(ledger, r.node, r.id, cpu, mem))
  {}

  /** Equal refunds add up: the clamp at zero acts once, at the end. */
  lemma {:induction false} RefundsAt(ledger: Ledger, cpu: nat, mem: nat, rs: seq<Replica>, j: nat)
    requires NonNegativeUse(ledger) && j < |ledger|
    ensures |Refunds(ledger, cpu, mem, rs)| == |ledger|
    ensures Refunds(ledger, cpu, mem, rs)[j] == ShedNode(ledger[j], cpu, mem, rs)
    decreases |rs|
  {
    hide NonNegativeUse, Deallocated;
    if rs == [] {
      NothingShed(ledger, cpu, mem, j);
    } else {
      var r := rs[0];
      var l := Deallocated(ledger, r.node, r.id, cpu, mem);
      UniqueOf(ledger);
      DeallocatedAt(ledger, r, cpu, mem, j);
      DeallocatedSane(ledger, r, cpu, mem);
      RefundsAt(l, cpu, mem, rs[1..], j);
      ClampTwice(ledger[j].cpuUsed, cpu, CountOn(rs[1..], ledger[j].id));
      ClampTwice(ledger[j].memUsed, mem, CountOn(rs[1..], ledger[j].id));
    }
  }

  lemma NothingShed(ledger: Ledger, cpu: nat, mem: nat, j: nat)
    requires NonNegativeUse(ledger) && j < |ledger|
    ensures ShedNode(ledger[j], cpu, mem, []) == ledger[j]
  {}

  lemma UniqueOf(ledger: Ledger)
    requires NonNegativeUse(ledger)
    ensures UniqueNodes(ledger)
  {}

  lemma ExactIsNonNegative(ledger: Ledger, claims: Claims)
    requires LedgerMatches(ledger, claims)
    ensures NonNegativeUse(ledger)
  {
    forall j | 0 <= j < |ledger| ensures ledger[j].cpuUsed >= 0 && ledger[j].memUsed >= 0 {
      assert NodeMatches(ledger[j], claims);
      SumNonNegative(ledger[j].replicaIds, claims);
    }
  }

  /** Every copy is of a replica that has a claim, and the refund is what it claims. */
  ghost predicate Entitled(rs: seq<Replica>, claims: Claims, cpu: int, mem: int) {
    forall r :: r in rs ==> r.id in claims && claims[r.id] == Claim(r.node, cpu, mem)
  }

  lemma EntitledTail(rs: seq<Replica>, claims: Claims, cpu: int, mem: int)
    requires rs != [] && UniqueIds(rs) && Entitled(rs, claims, cpu, mem)
    ensures rs[0].id in claims && claims[rs[0].id] == Claim(rs[0].node, cpu, mem)
    ensures UniqueIds(rs[1..]) && Entitled(rs[1..], claims - {rs[0].id}, cpu, mem)
    ensures claims - {rs[0].id} - Ids(rs[1..]) == claims - Ids(rs)
  {
    UniqueTail(rs);
    assert rs[0] in rs;
    assert forall x :: x in rs[1..] ==> x in rs && x.id in Ids(rs[1..]);
    assert Ids(rs) == {rs[0].id} + Ids(rs[1..]) by { assert rs == [rs[0]] + rs[1..]; }
  }

  /** Refunds of what is held keep the ledger exact. */
  lemma {:induction false} HeldRefunds(ledger: Ledger, claims: Claims, cpu: int, mem: int, rs: seq<Replica>)
    requires LedgerMatches(ledger, claims) && UniqueIds(rs) && Entitled(rs, claims, cpu, mem)
    ensures LedgerMatches(Refunds(ledger, cpu, mem, rs), claims - Ids(rs))
    decreases |rs|
  {
    hide LedgerMatches, Entitled, UniqueIds, Deallocated;
    if rs == [] {
      assert claims - Ids(rs) == claims;
    } else {
      EntitledTail(rs, claims, cpu, mem);
      DeallocateHeld(ledger, claims, rs[0].id);
      HeldRefunds(Deallocated(ledger, rs[0].node, rs[0].id, cpu, mem), claims - {rs[0].id}, cpu, mem, rs[1..]);
    }
  }

  /** And the clamp never fires: a node uses at least what its held replicas give back. */
  lemma {:induction false} HeldFits(ledger: Ledger, claims: Claims, cpu: nat, mem: nat, rs: seq<Replica>, j: nat)
    requires LedgerMatches(ledger, claims) && UniqueIds(rs) && Entitled(rs, claims, cpu, mem) && j < |ledger|
    ensures cpu * CountOn(rs, ledger[j].id) <= ledger[j].cpuUsed
    ensures mem * CountOn(rs, ledger[j].id) <= ledger[j].memUsed
    decreases |rs|
  {
    hide LedgerMatches, Entitled, UniqueIds, Deallocated, UniqueNodes;
    ExactIsNonNegative(ledger, claims);
    UniqueOf(ledger);
    if rs != [] {
      var l := Deallocated(ledger, rs[0].node, rs[0].id, cpu, mem);
      EntitledTail(rs, claims, cpu, mem);
      DeallocateHeld(ledger, claims, rs[0].id);
      DeallocatedAt(ledger, rs[0], cpu, mem, j);
      HeldFits(l, claims - {rs[0].id}, cpu, mem, rs[1..], j);
      IndexIsUnique(ledger, j);
      var m := CountOn(rs[1..], ledger[j].id);
      assert cpu * (m + 1) == cpu * m + cpu && mem * (m + 1) == mem * m + mem;
    }
  }

  // ---- Refunds by old copies ----

  /** The copies whose replica still has a claim. */
  function Held(rs: seq<Replica>, claims: Claims): seq<Replica> {
    if rs == [] then []
    else if rs[0].id in claims then [rs[0]] + Held(rs[1..], claims)
    else Held(rs[1..], claims)
  }

  /** What each copy gives back is its replica's claim, if there still is one. */
  ghost predicate Copies(rs: seq<Replica>, claims: Claims, cpu: int, mem: int) {
    UniqueIds(rs) && forall r :: r in rs && r.id in claims ==> claims[r.id] == Claim(r.node, cpu, mem)
  }

  lemma {:induction false} HeldMeaning(rs: seq<Replica>, claims: Claims, cpu: int, mem: int)
    requires Copies(rs, claims, cpu, mem)
    ensures UniqueIds(Held(rs, claims)) && Entitled(Held(rs, claims), claims, cpu, mem)
    ensures forall r :: r in Held(rs, claims) <==> r in rs && r.id in claims
    ensures claims - Ids(Held(rs, claims)) == claims - Ids(rs)
  {
    if rs != [] {
      UniqueTail(rs);
      assert rs == [rs[0]] + rs[1..];
      assert Ids(rs) == {rs[0].id} + Ids(rs[1..]);
      HeldMeaning(rs[1..], claims, cpu, mem);
      if rs[0].id in claims {
        assert Ids([rs[0]] + Held(rs[1..], claims)) == {rs[0].id} + Ids(Held(rs[1..], claims));
        UniqueCons(rs[0], Held(rs[1..], claims));
      }
    }
  }

  lemma {:induction false} ShedHeld(ids: seq<string>, rs: seq<Replica>, node: string, claims: Claims)
    requires forall id :: id in ids ==> id in claims
    ensures Shed(ids, rs, node) == Shed(ids, Held(rs, claims), node)
    decreases |rs|
  {
    if rs != [] {
      var rest := if rs[0].node == node then RemoveFirst(ids, rs[0].id) else ids;
      StillIn(ids, rs[0].id);
      ShedHeld(rest, rs[1..], node, claims);
      if rs[0].id in claims {
        assert Held(rs, claims)[1..] == Held(rs[1..], claims);
      }
    }
  }

  lemma {:induction false} StillIn(ids: seq<string>, x: string)
    ensures forall id :: id in RemoveFirst(ids, x) ==> id in ids
  {
    if ids != [] {
      assert ids == [ids[0]] + ids[1..];
      StillIn(ids[1..], x);
    }
  }

  lemma {:induction false} CountSplit(rs: seq<Replica>, node: string, claims: Claims)
    ensures CountOn(rs, node) >= CountOn(Held(rs, claims), node)
    ensures CountOn(rs, node) == CountOn(Held(rs, claims), node)
            <==> forall r :: r in rs && r.node == node ==> r.id in claims
  {
    if rs != [] {
      CountSplit(rs[1..], node, claims);
      assert rs == [rs[0]] + rs[1..];
      if rs[0].id in claims {
        assert Held(rs, claims)[1..] == Held(rs[1..], claims);
      }
    }
  }

  /** On no node is anything given back beyond what is held there: where a copy's replica is gone, the request is nothing
      or the node is left with nothing anyway. */
  ghost predicate NothingExtra(ledger: Ledger, claims: Claims, cpu: int, mem: int, rs: seq<Replica>) {
    forall j, r :: 0 <= j < |ledger| && r in rs && r.id !in claims && r.node == ledger[j].id ==>
      && (cpu == 0 || ledger[j].cpuUsed == cpu * CountOn(Held(rs, claims), ledger[j].id))
      && (mem == 0 || ledger[j].memUsed == mem * CountOn(Held(rs, claims), ledger[j].id))
  }

  lemma ExtraClamp(u: int, c: nat, all: nat, held: nat)
    requires held < all && c * held <= u
    ensures Max(0, u - c * all) == u - c * held <==> c == 0 || u == c * held
  {
    var more := all - held;
    assert c * all == c * held + c * more by { Sums(c, held, more); }
    assert c * more >= c by { AtLeastOnce(c, more); }
  }

  lemma Sums(c: nat, a: nat, b: nat)
    ensures c * (a + b) == c * a + c * b
  {}

  lemma AtLeastOnce(c: nat, m: nat)
    requires m >= 1
    ensures c * m >= c
  {}

  /** One node: refunding all copies leaves it as refunding the held ones does, exactly when nothing extra is given back. */
  lemma NodeUnharmedIff(ledger: Ledger, claims: Claims, cpu: nat, mem: nat, rs: seq<Replica>, j: nat)
    requires LedgerMatches(ledger, claims) && Copies(rs, claims, cpu, mem) && j < |ledger|
    ensures |Refunds(ledger, cpu, mem, rs)| == |ledger| == |Refunds(ledger, cpu, mem, Held(rs, claims))|
    ensures var a, i := Refunds(ledger, cpu, mem, rs)[j], Refunds(ledger, cpu, mem, Held(rs, claims))[j];
            && a == i.(cpuUsed := a.cpuUsed, memUsed := a.memUsed)
            && (a == i <==> forall r :: r in rs && r.id !in claims && r.node == ledger[j].id ==>
                  && (cpu == 0 || ledger[j].cpuUsed == cpu * CountOn(Held(rs, claims), ledger[j].id))
                  && (mem == 0 || ledger[j].memUsed == mem * CountOn(Held(rs, claims), ledger[j].id)))
  {
    hide UniqueIds, Held, CountOn, Shed, Refunds;
    var n, held := ledger[j], Held(rs, claims);
    ExactIsNonNegative(ledger, claims);
    HeldMeaning(rs, claims, cpu, mem);
    RefundsAt(ledger, cpu, mem, rs, j);
    RefundsAt(ledger, cpu, mem, held, j);
    HeldFits(ledger, claims, cpu, mem, held, j);
    assert NodeMatches(n, claims);
    ShedHeld(n.replicaIds, rs, n.id, claims);
    CountSplit(rs, n.id, claims);
    if CountOn(held, n.id) < CountOn(rs, n.id) {
      ExtraClamp(n.cpuUsed, cpu, CountOn(rs, n.id), CountOn(held, n.id));
      ExtraClamp(n.memUsed, mem, CountOn(rs, n.id), CountOn(held, n.id));
    }
  }

  /** Refunding by copies keeps the ledger exact exactly when nothing extra is given back. */
  lemma RefundCopiesIff(ledger: Ledger, claims: Claims, cpu: nat, mem: nat, rs: seq<Replica>)
    requires LedgerMatches(ledger, claims) && Copies(rs, claims, cpu, mem)
    ensures LedgerMatches(Refunds(ledger, cpu, mem, rs), claims - Ids(rs)) <==> NothingExtra(ledger, claims, cpu, mem, rs)
  {
    hide UniqueIds, Held, CountOn, Refunds, Entitled;
    var held := Held(rs, claims);
    var a, i := Refunds(ledger, cpu, mem, rs), Refunds(ledger, cpu, mem, held);
    HeldMeaning(rs, claims, cpu, mem);
    HeldRefunds(ledger, claims, cpu, mem, held);
    SameLength(ledger, cpu, mem, rs);
    SameLength(ledger, cpu, mem, held);
    forall j | 0 <= j < |ledger|
      ensures |a| == |i| == |ledger| && a[j] == i[j].(cpuUsed := a[j].cpuUsed, memUsed := a[j].memUsed) {
      NodeUnharmedIff(ledger, claims, cpu, mem, rs, j);
    }
    if NothingExtra(ledger, claims, cpu, mem, rs) {
      forall j | 0 <= j < |ledger| ensures a[j] == i[j] {
        NodeUnharmedIff(ledger, claims, cpu, mem, rs, j);
      }
      assert a == i;
    }
    if LedgerMatches(a, claims - Ids(rs)) {
      forall j | 0 <= j < |ledger| ensures a[j] == i[j] {
        assert NodeMatches(a[j], claims - Ids(rs)) && NodeMatches(i[j], claims - Ids(rs));
      }
      forall j | 0 <= j < |ledger| ensures a[j] == i[j] {
        NodeUnharmedIff(ledger, claims, cpu, mem, rs, j);
      }
      assert NothingExtra(ledger, claims, cpu, mem, rs) by { ExtraFrom(ledger, claims, cpu, mem, rs); }
    }
  }

  lemma ExtraFrom(ledger: Ledger, claims: Claims, cpu: nat, mem: nat, rs: seq<Replica>)
    requires LedgerMatches(ledger, claims) && Copies(rs, claims, cpu, mem)
    requires Refunds(ledger, cpu, mem, rs) == Refunds(ledger, cpu, mem, Held(rs, claims))
    ensures NothingExtra(ledger, claims, cpu, mem, rs)
  {
    hide LedgerMatches, Copies, Refunds, Held, CountOn;
    forall j | 0 <= j < |ledger|
      ensures forall r :: r in rs && r.id !in claims && r.node == ledger[j].id ==>
                  && (cpu == 0 || ledger[j].cpuUsed == cpu * CountOn(Held(rs, claims), ledger[j].id))
                  && (mem == 0 || ledger[j].memUsed == mem * CountOn(Held(rs, claims), ledger[j].id)) {
      NodeUnharmedIff(ledger, claims, cpu, mem, rs, j);
    }
  }

  lemma {:induction false} SameLength(ledger: Ledger, cpu: int, mem: int, rs: seq<Replica>)
    ensures |Refunds(ledger, cpu, mem, rs)| == |ledger|
    decreases |rs|
  {
    if rs != [] {
      SameLength(Deallocated(ledger, rs[0].node, rs[0].id, cpu, mem), cpu, mem, rs[1..]);
    }
  }

  // ---- Removing replicas by old copies ----

  function RecordedOf(store: Store, s: string, rs: seq<Replica>): seq<Replica> {
    if rs == [] then []
    else if Recorded(store, s, rs[0]) then [rs[0]] + RecordedOf(store, s, rs[1..])
    else RecordedOf(store, s, rs[1..])
  }

  /** Where a copy's replica is no longer recorded, there is nothing to give back a second time: the request is nothing, or
      the recorded replicas among the copies are all that the node is used by. */
  ghost predicate Harmless(w: World, s: string, cpu: int, mem: int, rs: seq<Replica>) {
    forall j, r :: 0 <= j < |w.ledger| && r in rs && !Recorded(w.store, s, r) && r.node == w.ledger[j].id ==>
      && (cpu == 0 || w.ledger[j].cpuUsed == cpu * CountOn(RecordedOf(w.store, s, rs), w.ledger[j].id))
      && (mem == 0 || w.ledger[j].memUsed == mem * CountOn(RecordedOf(w.store, s, rs), w.ledger[j].id))
  }

  /** Copies of different replicas of one service, read at some time. */
  ghost predicate OldCopies(store: Store, s: string, rs: seq<Replica>) {
    UniqueIds(rs) && forall r :: r in rs ==> OldCopy(store, s, r)
  }

  lemma ClaimedIsRecorded(store: Store, s: string, r: Replica, claims: Claims)
    requires ClaimsFor(store, claims) && OldCopy(store, s, r)
    ensures r.id in claims <==> Recorded(store, s, r)
    ensures r.id in claims ==> claims[r.id] == Claim(r.node, store[s].spec.cpu, store[s].spec.mem)
  {
    if r.id in claims {
      var t, k :| Holds(store, t, k, r.id);
      assert store[s].replicas[k] in store[s].replicas;
    }
    if Recorded(store, s, r) {
      var x :| x in store[s].replicas && x.id == r.id;
      var k :| 0 <= k < |store[s].replicas| && store[s].replicas[k] == x;
      assert Holds(store, s, k, r.id);
    }
  }

  lemma {:induction false} HeldIsRecorded(store: Store, s: string, rs: seq<Replica>, claims: Claims)
    requires ClaimsFor(store, claims) && forall r :: r in rs ==> OldCopy(store, s, r)
    ensures Held(rs, claims) == RecordedOf(store, s, rs)
  {
    if rs != [] {
      assert rs[0] in rs;
      ClaimedIsRecorded(store, s, rs[0], claims);
      hide ClaimsFor, OldCopy, Recorded;
      HeldIsRecorded(store, s, rs[1..], claims);
    }
  }

  lemma HarmlessMeans(w: World, s: string, cpu: int, mem: int, rs: seq<Replica>, claims: Claims)
    requires ClaimsFor(w.store, claims) && OldCopies(w.store, s, rs)
    requires s in w.store ==> cpu == w.store[s].spec.cpu && mem == w.store[s].spec.mem
    ensures Copies(rs, claims, cpu, mem)
    ensures Harmless(w, s, cpu, mem, rs) <==> NothingExtra(w.ledger, claims, cpu, mem, rs)
  {
    HeldIsRecorded(w.store, s, rs, claims);
    forall r | r in rs
      ensures r.id in claims <==> Recorded(w.store, s, r)
      ensures r.id in claims ==> s in w.store && claims[r.id] == Claim(r.node, cpu, mem) {
      ClaimedIsRecorded(w.store, s, r, claims);
    }
  }

  /** Losing any ids from one record loses exactly their claims. */
  lemma WithoutClaims(store: Store, s: string, ids: set<string>, claims: Claims)
    requires WellFormed(store) && Distinct(store) && ClaimsFor(store, claims) && s in store
    requires forall t, k, id :: Holds(store, t, k, id) && id in ids ==> t == s
    ensures var store' := store[s := store[s].(replicas := Without(store[s].replicas, ids))];
            WellFormed(store') && Distinct(store') && ClaimsFor(store', claims - ids)
  {
    var rs := store[s].replicas;
    var store' := store[s := store[s].(replicas := Without(rs, ids))];
    DistinctInService(store, s);
    UniqueWithout(rs, ids);
    WithoutMembers(rs, ids);
    forall t, j, x | Holds(store', t, j, x)
      ensures x !in ids && exists i :: Holds(store, t, i, x) && store[t].replicas[i] == store'[t].replicas[j] {
      if t == s {
        var i :| 0 <= i < |rs| && rs[i] == store'[s].replicas[j];
        assert Holds(store, s, i, x);
      } else {
        assert Holds(store, t, j, x);
      }
    }
    forall t, i, u, j, x | Holds(store', t, i, x) && Holds(store', u, j, x) ensures t == u && i == j {
      var i0 :| Holds(store, t, i0, x);
      var j0 :| Holds(store, u, j0, x);
      if t != s {
        assert Holds(store, t, i, x) && Holds(store, t, j, x);
      }
    }
    forall x | x in claims - ids ensures exists t, j :: Holds(store', t, j, x) {
      var t, i :| Holds(store, t, i, x);
      if t == s {
        assert rs[i] in Without(rs, ids);
        var j :| 0 <= j < |Without(rs, ids)| && Without(rs, ids)[j] == rs[i];
        assert Holds(store', s, j, x);
      } else {
        assert Holds(store', t, i, x);
      }
    }
  }

  ghost predicate Named(store: Store) {
    forall t :: t in store ==> store[t].spec.name == t
  }

  lemma RemovedOne(w: World, spec: ServiceSpec, r: Replica)
    requires Named(w.store)
    ensures var w' := RemoveReplica(w, spec, r);
            && w'.ledger == Deallocated(w.ledger, r.node, r.id, spec.cpu, spec.mem)
            && w'.docker == w.docker - {r.container}
            && Named(w'.store)
            && w'.store == WithoutIn(w.store, spec.name, {r.id})
            && (spec.name !in w.store ==> w'.routes == w.routes)
  {
    hide Deallocated, EndpointsOf, Merge;
  }

  /** The store with some ids taken out of one record, if it is there. */
  function WithoutIn(store: Store, s: string, ids: set<string>): Store {
    if s in store then store[s := store[s].(replicas := Without(store[s].replicas, ids))] else store
  }

  lemma WithoutInTwice(store: Store, s: string, a: set<string>, b: set<string>)
    ensures WithoutIn(WithoutIn(store, s, a), s, b) == WithoutIn(store, s, a + b)
  {
    if s in store {
      WithoutTwice(store[s].replicas, a, b);
    }
  }

  lemma WithoutInNone(store: Store, s: string)
    ensures WithoutIn(store, s, {}) == store
  {
    if s in store {
      WithoutNone(store[s].replicas, {});
      assert store[s := store[s].(replicas := store[s].replicas)] == store;
    }
  }

  /** Store, containers and ledger after removing by copies; only the ledger depends on what was there before. */
  lemma {:induction false} RemoveEachParts(w: World, spec: ServiceSpec, rs: seq<Replica>)
    requires Named(w.store)
    ensures var w' := RemoveEach(w, spec, rs);
            && w'.ledger == Refunds(w.ledger, spec.cpu, spec.mem, rs)
            && w'.docker == w.docker - Containers(rs)
            && w'.store == WithoutIn(w.store, spec.name, Ids(rs))
            && (spec.name !in w.store ==> w'.routes == w.routes)
    decreases |rs|
  {
    hide RemoveReplica, WithoutIn, Named, Deallocated;
    if rs == [] {
      assert w.docker - Containers([]) == w.docker;
      WithoutInNone(w.store, spec.name);
      assert Ids(rs) == {};
    } else {
      var w1 := RemoveReplica(w, spec, rs[0]);
      RemovedOne(w, spec, rs[0]);
      RemoveEachParts(w1, spec, rs[1..]);
      assert rs == [rs[0]] + rs[1..];
      assert Ids(rs) == {rs[0].id} + Ids(rs[1..]);
      assert Containers(rs) == {rs[0].container} + Containers(rs[1..]);
      assert w.docker - {rs[0].container} - Containers(rs[1..]) == w.docker - Containers(rs);
      WithoutInTwice(w.store, spec.name, {rs[0].id}, Ids(rs[1..]));
      SameKeys(w.store, spec.name, {rs[0].id});
    }
  }

  lemma SameKeys(store: Store, s: string, ids: set<string>)
    ensures WithoutIn(store, s, ids).Keys == store.Keys
  {}

  lemma RemoveKeepsRoutes(w: World, spec: ServiceSpec, r: Replica)
    requires RoutesMatch(w) && Distinct(w.store) && Named(w.store)
    ensures RoutesMatch(RemoveReplica(w, spec, r))
    ensures Distinct(RemoveReplica(w, spec, r).store) && Named(RemoveReplica(w, spec, r).store)
  {
    hide EndpointsOf, Merge, Deallocated, Bare;
    var s := spec.name;
    if s in w.store {
      var w' := RemoveReplica(w, spec, r);
      var store' := w'.store;
      DistinctWithout(w.store, s, {r.id});
      DistinctInService(store', s);
      SyncStep(World(store', w.docker - {r.container}, Deallocated(w.ledger, r.node, r.id, spec.cpu, spec.mem), w.routes), s);
    }
  }

  lemma DistinctWithout(store: Store, s: string, ids: set<string>)
    requires Distinct(store) && s in store
    ensures Distinct(store[s := store[s].(replicas := Without(store[s].replicas, ids))])
  {
    var rs := store[s].replicas;
    var store' := store[s := store[s].(replicas := Without(rs, ids))];
    DistinctInService(store, s);
    UniqueWithout(rs, ids);
    WithoutMembers(rs, ids);
    forall t, i, u, j, x | Holds(store', t, i, x) && Holds(store', u, j, x) ensures t == u && i == j {
      HeldBefore(store, s, ids, t, i, x);
      HeldBefore(store, s, ids, u, j, x);
      var i0 :| Holds(store, t, i0, x);
      var j0 :| Holds(store, u, j0, x);
      if t != s {
        assert Holds(store, t, i, x) && Holds(store, t, j, x);
      }
    }
  }

  lemma HeldBefore(store: Store, s: string, ids: set<string>, t: string, i: int, x: string)
    requires s in store && Holds(store[s := store[s].(replicas := Without(store[s].replicas, ids))], t, i, x)
    ensures exists k :: Holds(store, t, k, x)
  {
    var rs := store[s].replicas;
    WithoutMembers(rs, ids);
    if t == s {
      var y := Without(rs, ids)[i];
      assert y in rs;
      var k :| 0 <= k < |rs| && rs[k] == y;
      assert Holds(store, s, k, x);
    } else {
      assert Holds(store, t, i, x);
    }
  }

  lemma {:induction false} RemoveEachKeepsRoutes(w: World, spec: ServiceSpec, rs: seq<Replica>)
    requires RoutesMatch(w) && Distinct(w.store) && Named(w.store)
    ensures RoutesMatch(RemoveEach(w, spec, rs))
    ensures Distinct(RemoveEach(w, spec, rs).store) && Named(RemoveEach(w, spec, rs).store)
    decreases |rs|
  {
    hide RoutesMatch, Distinct, Named, RemoveReplica;
    if rs != [] {
      RemoveKeepsRoutes(w, spec, rs[0]);
      RemoveEachKeepsRoutes(RemoveReplica(w, spec, rs[0]), spec, rs[1..]);
    }
  }

  lemma ConsistentIsNamed(w: World, claims: Claims)
    requires Consistent(w, claims)
    ensures Named(w.store) && Distinct(w.store)
  {}

  /** The claims of the store, whatever the ledger says. */
  ghost predicate Claimed(store: Store, claims: Claims) {
    WellFormed(store) && Distinct(store) && ClaimsFor(store, claims)
  }

  /** The claims after removing by copies. */
  lemma RemovedClaims(w: World, spec: ServiceSpec, rs: seq<Replica>, claims: Claims)
    requires Claimed(w.store, claims) && OldCopies(w.store, spec.name, rs)
    ensures Claimed(RemoveEach(w, spec, rs).store, claims - Ids(rs))
  {
    hide RemoveEach;
    var s := spec.name;
    RemoveEachParts(w, spec, rs);
    forall t, k, id | Holds(w.store, t, k, id) && id in Ids(rs) ensures t == s {
      var r :| r in rs && r.id == id;
    }
    if s in w.store {
      WithoutClaims(w.store, s, Ids(rs), claims);
    } else {
      forall id | id in Ids(rs) ensures id !in claims {
        var r :| r in rs && r.id == id;
        ClaimedIsRecorded(w.store, s, r, claims);
      }
      assert claims - Ids(rs) == claims;
    }
  }

  lemma AccountedMeans(w: World, claims: Claims)
    requires Claimed(w.store, claims)
    ensures Accounted(w) <==> LedgerMatches(w.ledger, claims)
  {
    if LedgerMatches(w.ledger, claims) {
      assert Consistent(w, claims);
    }
    if Accounted(w) {
      var other :| Consistent(w, other);
      ClaimsAreUnique(w.store, other, claims);
    }
  }

  /** Removing replicas by copies of any age keeps the ledger exact exactly when it gives back nothing twice. */
  lemma RemoveCopiesLedgerIff(w: World, spec: ServiceSpec, rs: seq<Replica>, claims: Claims)
    requires Consistent(w, claims) && OldCopies(w.store, spec.name, rs)
    requires spec.cpu >= 0 && spec.mem >= 0
    requires spec.name in w.store ==> spec.cpu == w.store[spec.name].spec.cpu && spec.mem == w.store[spec.name].spec.mem
    ensures Accounted(RemoveEach(w, spec, rs)) <==> Harmless(w, spec.name, spec.cpu, spec.mem, rs)
  {
    hide Harmless, LedgerMatches, NothingExtra, Copies, OldCopies, WellFormed, Distinct, ClaimsFor, Refunds, RemoveEach,
         Named;
    ConsistentIsNamed(w, claims);
    RemoveEachParts(w, spec, rs);
    RemovedClaims(w, spec, rs, claims);
    AccountedMeans(RemoveEach(w, spec, rs), claims - Ids(rs));
    HarmlessMeans(w, spec.name, spec.cpu, spec.mem, rs, claims);
    RefundCopiesIff(w.ledger, claims, spec.cpu, spec.mem, rs);
  }

  /** It also keeps the routes in agreement, whatever it does to the ledger. */
  lemma RemoveCopiesIff(w: World, spec: ServiceSpec, rs: seq<Replica>, claims: Claims)
    requires Consistent(w, claims) && RoutesMatch(w) && OldCopies(w.store, spec.name, rs)
    requires spec.cpu >= 0 && spec.mem >= 0
    requires spec.name in w.store ==> spec.cpu == w.store[spec.name].spec.cpu && spec.mem == w.store[spec.name].spec.mem
    ensures var w' := RemoveEach(w, spec, rs);
            && RoutesMatch(w')
            && (Accounted(w') <==> Harmless(w, spec.name, spec.cpu, spec.mem, rs))
  {
    hide RoutesMatch, Harmless, Consistent, OldCopies, RemoveEach, Named, Distinct;
    ConsistentIsNamed(w, claims);
    RemoveEachKeepsRoutes(w, spec, rs);
    RemoveCopiesLedgerIff(w, spec, rs, claims);
  }
}
