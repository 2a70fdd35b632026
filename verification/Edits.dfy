/** Replacing the whole specification of a service, as a new manifest and the API do, while its replicas run. */
module Edits {
  import opened Nodes
  import opened Routing
  import opened Worlds
  import opened Reconcile
  import opened Runs

  function Edited(w: World, s: string, spec: ServiceSpec): World
    requires s in w.store
  {
    Put(w, s, w.store[s].(spec := spec))
  }

  predicate SameRequests(a: ServiceSpec, b: ServiceSpec) {
    a.cpu == b.cpu && a.mem == b.mem
  }

  /** What could be checked before the edit: the record stays under its own name, the requests are not negative and change
      only if there is no replica, and the port changes only if there is no endpoint. */
  predicate EditHarmless(w: World, s: string, spec: ServiceSpec)
    requires s in w.store
  {
    var svc := w.store[s];
    && spec.name == s && spec.cpu >= 0 && spec.mem >= 0
    && (svc.replicas == [] || SameRequests(spec, svc.spec))
    && (EndpointsOf(svc.replicas, svc.spec.port) == [] || spec.port == svc.spec.port)
  }

  /** What the replicas in `changed` claim is so much more. */
  ghost predicate Shifted(ids: seq<string>, claims: Claims, claims': Claims, changed: set<string>, cpu: int, mem: int) {
    forall id :: id in ids ==>
      && id in claims && id in claims'
      && claims'[id] == if id in changed then Claim(claims[id].node, claims[id].cpu + cpu, claims[id].mem + mem)
                        else claims[id]
  }

  function CountIn(ids: seq<string>, changed: set<string>): nat {
    if ids == [] then 0 else (if ids[0] in changed then 1 else 0) + CountIn(ids[1..], changed)
  }

  lemma {:induction false} CountInPositive(ids: seq<string>, changed: set<string>, id: string)
    requires id in ids && id in changed
    ensures CountIn(ids, changed) > 0
  {
    assert ids == [ids[0]] + ids[1..];
    if id != ids[0] {
      CountInPositive(ids[1..], changed, id);
    }
  }

  lemma {:induction false} SumShift(
    ids: seq<string>, claims: Claims, claims': Claims, changed: set<string>, cpu: int, mem: int)
    requires Shifted(ids, claims, claims', changed, cpu, mem)
    ensures SumCpu(ids, claims') == SumCpu(ids, claims) + cpu * CountIn(ids, changed)
    ensures SumMem(ids, claims') == SumMem(ids, claims) + mem * CountIn(ids, changed)
  {
    hide Shifted;
    ShiftedAre(ids, claims, claims', changed, cpu, mem);
    if ids != [] {
      SumShift(ids[1..], claims, claims', changed, cpu, mem);
      OneMore(cpu, CountIn(ids[1..], changed));
      OneMore(mem, CountIn(ids[1..], changed));
    }
  }

  lemma OneMore(c: int, k: nat)
    ensures c * (k + 1) == c * k + c
  {}

  lemma {:induction false} ShiftedAre(
    ids: seq<string>, claims: Claims, claims': Claims, changed: set<string>, cpu: int, mem: int)
    requires Shifted(ids, claims, claims', changed, cpu, mem)
    ensures forall id :: id in ids ==> id in claims && id in claims'
    ensures ids != [] ==>
              && Shifted(ids[1..], claims, claims', changed, cpu, mem)
              && claims'[ids[0]].cpu == claims[ids[0]].cpu + (if ids[0] in changed then cpu else 0)
              && claims'[ids[0]].mem == claims[ids[0]].mem + (if ids[0] in changed then mem else 0)
  {
    assert ids != [] ==> ids[0] in ids;
  }

  // ---- The ledger ----

  lemma EditedClaims(w: World, s: string, spec: ServiceSpec, claims: Claims)
    requires Consistent(w, claims) && s in w.store && EditHarmless(w, s, spec)
    ensures var store' := Edited(w, s, spec).store; WellFormed(store') && Distinct(store') && ClaimsFor(store', claims)
  {
    var store' := Edited(w, s, spec).store;
    forall t, i, x ensures Holds(store', t, i, x) <==> Holds(w.store, t, i, x) {
    }
    forall x | x in claims ensures exists t, i :: Holds(store', t, i, x) {
      var t, i :| Holds(w.store, t, i, x);
      assert Holds(store', t, i, x);
    }
  }

  lemma EditedClaim(w: World, s: string, spec: ServiceSpec, claims: Claims, claims': Claims, id: string)
    requires ClaimsFor(w.store, claims) && Distinct(w.store) && s in w.store && id in claims
    requires ClaimsFor(Edited(w, s, spec).store, claims')
    ensures var svc := w.store[s];
            id in claims' && claims'[id] == if id in Ids(svc.replicas)
              then Claim(claims[id].node, claims[id].cpu + (spec.cpu - svc.spec.cpu),
                         claims[id].mem + (spec.mem - svc.spec.mem))
              else claims[id]
  {
    var svc := w.store[s];
    var t, i :| Holds(w.store, t, i, id);
    assert Holds(Edited(w, s, spec).store, t, i, id);
    assert t == s ==> svc.replicas[i] in svc.replicas;
    if id in Ids(svc.replicas) {
      var x :| x in svc.replicas && x.id == id;
      var k :| 0 <= k < |svc.replicas| && svc.replicas[k] == x;
      assert Holds(w.store, s, k, id);
    }
  }

  /** The node's usage is what its claims sum up to. */
  lemma NodeSums(w: World, claims: Claims, j: nat)
    requires Consistent(w, claims) && j < |w.ledger|
    ensures var n := w.ledger[j];
            && (forall x :: x in n.replicaIds ==> x in claims)
            && n.cpuUsed == SumCpu(n.replicaIds, claims) && n.memUsed == SumMem(n.replicaIds, claims)
  {
    assert NodeMatches(w.ledger[j], claims);
  }

  lemma EditedNode(w: World, s: string, spec: ServiceSpec, claims: Claims, claims': Claims)
    requires Consistent(w, claims) && s in w.store && w.store[s].replicas != []
    requires Consistent(Edited(w, s, spec), claims')
    ensures SameRequests(spec, w.store[s].spec)
  {
    hide ClaimsFor, Distinct, LedgerMatches, WellFormed;
    var svc, w' := w.store[s], Edited(w, s, spec);
    var id, changed := svc.replicas[0].id, Ids(svc.replicas);
    var cpu, mem := spec.cpu - svc.spec.cpu, spec.mem - svc.spec.mem;
    var j := HomeOf(w, s, claims);
    var n := w.ledger[j];
    NodeSums(w, claims, j);
    NodeSums(w', claims', j);
    forall x | x in n.replicaIds
      ensures x in claims && x in claims' && claims'[x] == if x in changed
        then Claim(claims[x].node, claims[x].cpu + cpu, claims[x].mem + mem) else claims[x] {
      EditedClaim(w, s, spec, claims, claims', x);
    }
    SumShift(n.replicaIds, claims, claims', changed, cpu, mem);
    CountInPositive(n.replicaIds, changed, id);
    ProductIsZeroIff(cpu, CountIn(n.replicaIds, changed));
    ProductIsZeroIff(mem, CountIn(n.replicaIds, changed));
  }

  /** The node that holds the service's first replica. */
  lemma HomeOf(w: World, s: string, claims: Claims) returns (j: nat)
    requires Consistent(w, claims) && s in w.store && w.store[s].replicas != []
    ensures j < |w.ledger| && w.store[s].replicas[0].id in w.ledger[j].replicaIds
    ensures w.store[s].replicas[0].id in Ids(w.store[s].replicas)
  {
    var r := w.store[s].replicas[0];
    assert Holds(w.store, s, 0, r.id) && r in w.store[s].replicas;
    assert Known(w.ledger, claims[r.id].node);
    j := IndexOf(w.ledger, r.node);
    assert NodeMatches(w.ledger[j], claims);
  }

  lemma ProductIsZeroIff(d: int, k: nat)
    requires k > 0
    ensures d * k == 0 <==> d == 0
  {
    if d > 0 {
      assert d * k >= d;
    } else if d < 0 {
      assert d * k <= d;
    }
  }

  // ---- The routes ----

  lemma {:induction false} OtherPort(rs: seq<Replica>, port: int, port': int)
    ensures EndpointsOf(rs, port) == EndpointsOf(rs, port') <==> EndpointsOf(rs, port) == [] || port == port'
  {
    if rs != [] {
      OtherPort(rs[1..], port, port');
      if rs[0].status == Running && rs[0].ip != "" {
        assert EndpointsOf(rs, port)[0].port == port && EndpointsOf(rs, port')[0].port == port';
      }
    }
  }

  lemma EditRoutesIff(w: World, s: string, spec: ServiceSpec)
    requires RoutesMatch(w) && s in w.store
    ensures RoutesMatch(Edited(w, s, spec))
       <==> EndpointsOf(w.store[s].replicas, w.store[s].spec.port) == [] || spec.port == w.store[s].spec.port
  {
    hide Bare, EndpointsOf;
    OtherPort(w.store[s].replicas, w.store[s].spec.port, spec.port);
    assert Edited(w, s, spec).store[s].spec == spec;
  }

  /** Replacing the specification of a service leaves ledger and routes right if and only if it is harmless. */
  lemma EditExactIff(w: World, s: string, spec: ServiceSpec)
    requires Accounted(w) && RoutesMatch(w) && s in w.store
    ensures Accounted(Edited(w, s, spec)) && RoutesMatch(Edited(w, s, spec)) <==> EditHarmless(w, s, spec)
  {
    hide LedgerMatches, RoutesMatch, EndpointsOf;
    EditRoutesIff(w, s, spec);
    var w' := Edited(w, s, spec);
    var claims :| Consistent(w, claims);
    if EditHarmless(w, s, spec) {
      EditedClaims(w, s, spec, claims);
      assert Consistent(w', claims);
    } else if Accounted(w') {
      var claims' :| Consistent(w', claims');
      assert w'.store[s].spec == spec;
      if w.store[s].replicas != [] {
        EditedNode(w, s, spec, claims, claims');
      }
    }
  }
}
