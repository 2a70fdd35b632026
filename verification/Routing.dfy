/** The routing table: in memory (`RoutingTable`) and in Redis (`RedisRoutingTable`). */
module Routing {
  import opened Wrappers

  datatype Endpoint = Endpoint(replica: string, host: string, port: int, healthy: bool)

  type Table = map<string, seq<Endpoint>>

  function Get(table: Table, service: string): seq<Endpoint> {
    if service in table then table[service] else []
  }

  /** `existing_health.get(id, fallback)`: the dictionary keeps the last endpoint listed under an id. */
  function HealthIn(existing: seq<Endpoint>, replica: string, fallback: bool): bool {
    if existing == [] then fallback
    else
      var last := existing[|existing| - 1];
      if last.replica == replica then last.healthy else HealthIn(existing[..|existing| - 1], replica, fallback)
  }

  /** Keep the health bit of an endpoint whose replica was already listed. */
  function Merge(existing: seq<Endpoint>, endpoints: seq<Endpoint>): seq<Endpoint> {
    seq(|endpoints|, i requires 0 <= i < |endpoints| =>
      endpoints[i].(healthy := HealthIn(existing, endpoints[i].replica, endpoints[i].healthy)))
  }

  function Updated(table: Table, service: string, endpoints: seq<Endpoint>): Table {
    table[service := Merge(Get(table, service), endpoints)]
  }

  predicate Lists(endpoints: seq<Endpoint>, replica: string) {
    exists i :: 0 <= i < |endpoints| && endpoints[i].replica == replica
  }

  ghost predicate UniqueReplicas(endpoints: seq<Endpoint>) {
    forall i, j :: 0 <= i < j < |endpoints| ==> endpoints[i].replica != endpoints[j].replica
  }

  lemma {:induction false} HealthOfListed(existing: seq<Endpoint>, i: nat, fallback: bool)
    requires i < |existing| && UniqueReplicas(existing)
    ensures HealthIn(existing, existing[i].replica, fallback) == existing[i].healthy
  {
    var n := |existing| - 1;
    if i < n {
      HealthOfListed(existing[..n], i, fallback);
    }
  }

  lemma {:induction false} HealthOfUnlisted(existing: seq<Endpoint>, replica: string, fallback: bool)
    requires !Lists(existing, replica)
    ensures HealthIn(existing, replica, fallback) == fallback
  {
    if existing != [] {
      var n := |existing| - 1;
      assert existing[n].replica != replica;
      forall i | 0 <= i < n ensures existing[..n][i].replica != replica {
        assert existing[..n][i] == existing[i];
      }
      HealthOfUnlisted(existing[..n], replica, fallback);
    }
  }

  /** Where an id was last listed. */
  ghost predicate LastListed(existing: seq<Endpoint>, replica: string, j: nat) {
    && j < |existing| && existing[j].replica == replica
    && forall k :: j < k < |existing| ==> existing[k].replica != replica
  }

  /** An update lists what it is given, in order; an endpoint whose id was listed has the health bit of the last one listed
      under it, any other the bit it brings. */
  lemma UpdateMeans(table: Table, service: string, endpoints: seq<Endpoint>)
    ensures var before, after := Get(table, service), Updated(table, service, endpoints);
            && after.Keys == table.Keys + {service}
            && (forall s :: s in table && s != service ==> after[s] == table[s])
            && |after[service]| == |endpoints|
            && forall i :: 0 <= i < |endpoints| ==>
                 var e, f := endpoints[i], after[service][i];
                 && f.replica == e.replica && f.host == e.host && f.port == e.port
                 && (forall j: nat :: LastListed(before, e.replica, j) ==> f.healthy == before[j].healthy)
                 && ((forall j :: 0 <= j < |before| ==> before[j].replica != e.replica) ==> f.healthy == e.healthy)
  {
    var before := Get(table, service);
    forall i | 0 <= i < |endpoints|
      ensures var f := Updated(table, service, endpoints)[service][i];
              (forall j: nat :: LastListed(before, endpoints[i].replica, j) ==> f.healthy == before[j].healthy)
              && ((forall j :: 0 <= j < |before| ==> before[j].replica != endpoints[i].replica)
                  ==> f.healthy == endpoints[i].healthy) {
      var id := endpoints[i].replica;
      forall j: nat | LastListed(before, id, j) ensures HealthIn(before, id, endpoints[i].healthy) == before[j].healthy {
        HealthOfLast(before, id, j, endpoints[i].healthy);
      }
      if !Lists(before, id) {
        HealthOfUnlisted(before, id, endpoints[i].healthy);
      }
    }
  }

  lemma {:induction false} HealthOfLast(existing: seq<Endpoint>, replica: string, j: nat, fallback: bool)
    requires LastListed(existing, replica, j)
    ensures HealthIn(existing, replica, fallback) == existing[j].healthy
    decreases |existing|
  {
    var n := |existing| - 1;
    if j < n {
      assert existing[n].replica != replica;
      HealthOfLast(existing[..n], replica, j, fallback);
    }
  }

  // ---- Flipping one replica's health bit ----

  /** The in-memory table stops at the first endpoint with the id. */
  function FlipFirst(endpoints: seq<Endpoint>, replica: string, healthy: bool): seq<Endpoint> {
    if endpoints == [] then []
    else if endpoints[0].replica == replica then [endpoints[0].(healthy := healthy)] + endpoints[1..]
    else [endpoints[0]] + FlipFirst(endpoints[1..], replica, healthy)
  }

  /** The Redis script rewrites every endpoint with the id. */
  function FlipAll(endpoints: seq<Endpoint>, replica: string, healthy: bool): seq<Endpoint> {
    seq(|endpoints|, i requires 0 <= i < |endpoints| =>
      if endpoints[i].replica == replica then endpoints[i].(healthy := healthy) else endpoints[i])
  }

  /** In memory: services in dictionary order, stopping at the first endpoint with the id. */
  function SetFirst(table: Table, order: seq<string>, replica: string, healthy: bool): Table {
    if order == [] then table
    else if Lists(Get(table, order[0]), replica) then
      table[order[0] := FlipFirst(Get(table, order[0]), replica, healthy)]
    else SetFirst(table, order[1..], replica, healthy)
  }

  /** In Redis: services in whatever order KEYS lists them, stopping after the first service with the id. */
  function SetAll(table: Table, keys: seq<string>, replica: string, healthy: bool): Table {
    if keys == [] then table
    else if Lists(Get(table, keys[0]), replica) then
      table[keys[0] := FlipAll(Get(table, keys[0]), replica, healthy)]
    else SetAll(table, keys[1..], replica, healthy)
  }

  ghost predicate Enumerates(order: seq<string>, table: Table) {
    && NoDup(order)
    && forall s :: s in order <==> s in table
  }

  /** No replica id is listed twice, in one service or in two. */
  ghost predicate UniqueEverywhere(table: Table) {
    forall s, t, i, j ::
      (s in table && t in table && 0 <= i < |table[s]| && 0 <= j < |table[t]|
       && table[s][i].replica == table[t][j].replica) ==> s == t && i == j
  }

  /** The abstract meaning of `set_healthy` when ids are unique. */
  ghost predicate FlippedOnly(table: Table, table': Table, replica: string, healthy: bool) {
    && table'.Keys == table.Keys
    && forall s :: s in table ==> table'[s] == FlipAll(table[s], replica, healthy)
  }

  lemma {:induction false} FlipFirstIsFlipAll(endpoints: seq<Endpoint>, replica: string, healthy: bool)
    requires UniqueReplicas(endpoints)
    ensures FlipFirst(endpoints, replica, healthy) == FlipAll(endpoints, replica, healthy)
  {
    if endpoints != [] {
      var rest := endpoints[1..];
      FlipFirstIsFlipAll(rest, replica, healthy);
      FlipAllCons(endpoints, replica, healthy);
      if endpoints[0].replica == replica {
        forall i | 0 <= i < |rest| ensures rest[i].replica != replica {
          assert rest[i] == endpoints[i + 1];
        }
        FlipAbsent(rest, replica, healthy);
      }
    }
  }

  lemma FlipAllCons(endpoints: seq<Endpoint>, replica: string, healthy: bool)
    requires endpoints != []
    ensures var first := if endpoints[0].replica == replica then endpoints[0].(healthy := healthy) else endpoints[0];
            FlipAll(endpoints, replica, healthy) == [first] + FlipAll(endpoints[1..], replica, healthy)
  {}

  lemma FlipAbsent(endpoints: seq<Endpoint>, replica: string, healthy: bool)
    requires !Lists(endpoints, replica)
    ensures FlipAll(endpoints, replica, healthy) == endpoints
  {
  }

  lemma {:induction false} SetFirstMeaning(table: Table, order: seq<string>, replica: string, healthy: bool)
    requires UniqueEverywhere(table)
    requires forall s :: s in order ==> s in table
    requires forall s :: s in table && s !in order ==> !Lists(table[s], replica)
    ensures FlippedOnly(table, SetFirst(table, order, replica, healthy), replica, healthy)
  {
    if order == [] || Lists(Get(table, order[0]), replica) {
      if order != [] {
        FlipFirstIsFlipAll(table[order[0]], replica, healthy);
      }
      forall s | s in table && (order == [] || s != order[0]) ensures FlipAll(table[s], replica, healthy) == table[s] {
        FlipAbsent(table[s], replica, healthy);
      }
    } else {
      SetFirstMeaning(table, order[1..], replica, healthy);
    }
  }

  lemma {:induction false} SetAllMeaning(table: Table, keys: seq<string>, replica: string, healthy: bool)
    requires UniqueEverywhere(table)
    requires forall s :: s in keys ==> s in table
    requires forall s :: s in table && s !in keys ==> !Lists(table[s], replica)
    ensures FlippedOnly(table, SetAll(table, keys, replica, healthy), replica, healthy)
  {
    if keys == [] || Lists(Get(table, keys[0]), replica) {
      forall s | s in table && (keys == [] || s != keys[0]) ensures FlipAll(table[s], replica, healthy) == table[s] {
        FlipAbsent(table[s], replica, healthy);
      }
    } else {
      SetAllMeaning(table, keys[1..], replica, healthy);
    }
  }

  lemma {:induction false} FlipFirstAt(endpoints: seq<Endpoint>, i: nat, replica: string, healthy: bool)
    requires i < |endpoints| && endpoints[i].replica == replica
    requires forall j :: 0 <= j < i ==> endpoints[j].replica != replica
    ensures FlipFirst(endpoints, replica, healthy) == endpoints[i := endpoints[i].(healthy := healthy)]
  {
    if i > 0 {
      FlipFirstAt(endpoints[1..], i - 1, replica, healthy);
    }
  }

  lemma {:induction false} SetFirstAt(table: Table, order: seq<string>, k: nat, replica: string, healthy: bool)
    requires k < |order| && Lists(Get(table, order[k]), replica)
    requires forall j :: 0 <= j < k ==> !Lists(Get(table, order[j]), replica)
    ensures SetFirst(table, order, replica, healthy)
         == table[order[k] := FlipFirst(Get(table, order[k]), replica, healthy)]
  {
    if k > 0 {
      assert !Lists(Get(table, order[0]), replica);
      SetFirstAt(table, order[1..], k - 1, replica, healthy);
    }
  }

  lemma {:induction false} SetFirstNowhere(table: Table, order: seq<string>, replica: string, healthy: bool)
    requires forall j :: 0 <= j < |order| ==> !Lists(Get(table, order[j]), replica)
    ensures SetFirst(table, order, replica, healthy) == table
  {
    if order != [] {
      SetFirstNowhere(table, order[1..], replica, healthy);
    }
  }

  /** The first service in the order that lists the id. */
  function FirstListing(table: Table, order: seq<string>, replica: string): (r: Option<string>)
    ensures r.Some? ==> r.value in order && Lists(Get(table, r.value), replica)
    ensures r.None? ==> forall s :: s in order ==> !Lists(Get(table, s), replica)
  {
    if order == [] then None
    else if Lists(Get(table, order[0]), replica) then Some(order[0])
    else FirstListing(table, order[1..], replica)
  }

  lemma {:induction false} SetFirstIs(table: Table, order: seq<string>, replica: string, healthy: bool)
    ensures SetFirst(table, order, replica, healthy)
         == match FirstListing(table, order, replica)
            case None => table
            case Some(s) => table[s := FlipFirst(Get(table, s), replica, healthy)]
  {
    if order != [] {
      SetFirstIs(table, order[1..], replica, healthy);
    }
  }

  lemma {:induction false} SetAllIs(table: Table, keys: seq<string>, replica: string, healthy: bool)
    ensures SetAll(table, keys, replica, healthy)
         == match FirstListing(table, keys, replica)
            case None => table
            case Some(s) => table[s := FlipAll(Get(table, s), replica, healthy)]
  {
    if keys != [] {
      SetAllIs(table, keys[1..], replica, healthy);
    }
  }

  // ---- Refinement over whole histories ----

  datatype Operation =
    | UpdateService(service: string, endpoints: seq<Endpoint>)
    | RemoveService(service: string)
    | SetHealthy(replica: string, healthy: bool, keys: seq<string>)  // keys: the order Redis happens to list

  datatype Memory = Memory(table: Table, order: seq<string>)

  function InMemory(m: Memory, op: Operation): Memory {
    match op
    case UpdateService(s, endpoints) =>
      Memory(Updated(m.table, s, endpoints), if s in m.table then m.order else m.order + [s])
    case RemoveService(s) => Memory(m.table - {s}, RemoveFirst(m.order, s))
    case SetHealthy(r, h, _) => Memory(SetFirst(m.table, m.order, r, h), m.order)
  }

  function InRedis(table: Table, op: Operation): Table {
    match op
    case UpdateService(s, endpoints) => Updated(table, s, endpoints)
    case RemoveService(s) => table - {s}
    case SetHealthy(r, h, keys) => SetAll(table, keys, r, h)
  }

  function RunInMemory(m: Memory, ops: seq<Operation>): Memory
    decreases |ops|
  {
    if ops == [] then m else RunInMemory(InMemory(m, ops[0]), ops[1..])
  }

  function RunInRedis(table: Table, ops: seq<Operation>): Table
    decreases |ops|
  {
    if ops == [] then table else RunInRedis(InRedis(table, ops[0]), ops[1..])
  }

  /** Updates never list an id twice anywhere, and KEYS lists exactly the services there are. */
  ghost predicate LegalOperation(table: Table, op: Operation) {
    match op
    case UpdateService(s, endpoints) => UniqueEverywhere(Updated(table, s, endpoints))
    case RemoveService(_) => true
    case SetHealthy(_, _, keys) => Enumerates(keys, table)
  }

  ghost predicate LegalHistory(table: Table, ops: seq<Operation>)
    decreases |ops|
  {
    ops == [] || (LegalOperation(table, ops[0]) && LegalHistory(InRedis(table, ops[0]), ops[1..]))
  }

  lemma UniqueAfterFlip(table: Table, table': Table, replica: string, healthy: bool)
    requires UniqueEverywhere(table) && FlippedOnly(table, table', replica, healthy)
    ensures UniqueEverywhere(table')
  {
    forall s, t, i, j | s in table' && t in table' && 0 <= i < |table'[s]| && 0 <= j < |table'[t]|
        && table'[s][i].replica == table'[t][j].replica
      ensures s == t && i == j
    {
      assert table[s][i].replica == table[t][j].replica;
    }
  }

  lemma EnumerationAfterStep(m: Memory, op: Operation)
    requires Enumerates(m.order, m.table)
    ensures Enumerates(InMemory(m, op).order, InMemory(m, op).table)
  {
    match op
    case UpdateService(s, _) =>
      if s !in m.table { NoDupAppend(m.order, s); }
    case RemoveService(s) => RemoveFirstMembers(m.order, s);
    case SetHealthy(r, h, _) => SetFirstIs(m.table, m.order, r, h);
  }

  lemma StepsAgree(m: Memory, op: Operation)
    requires Enumerates(m.order, m.table) && UniqueEverywhere(m.table) && LegalOperation(m.table, op)
    ensures InMemory(m, op).table == InRedis(m.table, op)
    ensures UniqueEverywhere(InRedis(m.table, op))
  {
    match op
    case UpdateService(s, endpoints) =>
    case RemoveService(s) => UniqueAfterRemoval(m.table, s);
    case SetHealthy(r, h, keys) =>
      hide UniqueEverywhere, SetFirst, SetAll, FlipAll, Lists;
      SetFirstMeaning(m.table, m.order, r, h);
      SetAllMeaning(m.table, keys, r, h);
      SameFlip(m.table, SetFirst(m.table, m.order, r, h), SetAll(m.table, keys, r, h), r, h);
      UniqueAfterFlip(m.table, InRedis(m.table, op), r, h);
  }

  lemma UniqueAfterRemoval(table: Table, s: string)
    requires UniqueEverywhere(table)
    ensures UniqueEverywhere(table - {s})
  {}

  lemma SameFlip(table: Table, a: Table, b: Table, replica: string, healthy: bool)
    requires FlippedOnly(table, a, replica, healthy) && FlippedOnly(table, b, replica, healthy)
    ensures a == b
  {
    hide FlipAll;
  }

  /** Whatever order Redis lists its keys in, both tables hold the same map after every history. */
  lemma {:induction false} RedisRefinesMemory(m: Memory, ops: seq<Operation>)
    requires Enumerates(m.order, m.table) && UniqueEverywhere(m.table) && LegalHistory(m.table, ops)
    ensures RunInMemory(m, ops).table == RunInRedis(m.table, ops)
    ensures Enumerates(RunInMemory(m, ops).order, RunInMemory(m, ops).table)
    decreases |ops|
  {
    if ops != [] {
      StepsAgree(m, ops[0]);
      EnumerationAfterStep(m, ops[0]);
      RedisRefinesMemory(InMemory(m, ops[0]), ops[1..]);
    }
  }

  // ---- When ids repeat ----

  ghost predicate AllHave(endpoints: seq<Endpoint>, replica: string, healthy: bool) {
    forall i :: 0 <= i < |endpoints| && endpoints[i].replica == replica ==> endpoints[i].healthy == healthy
  }

  /** The first copy has the bit. */
  ghost predicate FirstHas(endpoints: seq<Endpoint>, replica: string, healthy: bool) {
    forall i :: 0 <= i < |endpoints| && endpoints[i].replica == replica && !Lists(endpoints[..i], replica) ==>
      endpoints[i].healthy == healthy
  }

  /** Every copy after the first has the bit. */
  ghost predicate LaterHave(endpoints: seq<Endpoint>, replica: string, healthy: bool) {
    forall i :: 0 <= i < |endpoints| && endpoints[i].replica == replica && Lists(endpoints[..i], replica) ==>
      endpoints[i].healthy == healthy
  }

  lemma FirstIndex(endpoints: seq<Endpoint>, replica: string) returns (k: nat)
    requires Lists(endpoints, replica)
    ensures k < |endpoints| && endpoints[k].replica == replica
    ensures forall i :: 0 <= i < k ==> endpoints[i].replica != replica
    ensures forall i :: 0 <= i <= |endpoints| ==> (Lists(endpoints[..i], replica) <==> i > k)
  {
    k := 0;
    while endpoints[k].replica != replica
      invariant k < |endpoints| && forall i :: 0 <= i < k ==> endpoints[i].replica != replica
      decreases |endpoints| - k
    {
      k := k + 1;
    }
    forall i | 0 <= i <= |endpoints| ensures Lists(endpoints[..i], replica) <==> i > k {
      if i > k {
        assert endpoints[..i][k].replica == replica;
      }
    }
  }

  /** What flipping the first copy or all copies leaves as it was, and when the two are the same. */
  lemma FlipsIff(endpoints: seq<Endpoint>, replica: string, healthy: bool)
    requires Lists(endpoints, replica)
    ensures FlipFirst(endpoints, replica, healthy) == endpoints <==> FirstHas(endpoints, replica, healthy)
    ensures FlipAll(endpoints, replica, healthy) == endpoints <==> AllHave(endpoints, replica, healthy)
    ensures FlipFirst(endpoints, replica, healthy) == FlipAll(endpoints, replica, healthy)
       <==> LaterHave(endpoints, replica, healthy)
  {
    hide Lists, FlipFirst;
    var k := FirstIndex(endpoints, replica);
    var first, all := FlipFirst(endpoints, replica, healthy), FlipAll(endpoints, replica, healthy);
    FlipFirstAt(endpoints, k, replica, healthy);
    assert endpoints[k].(healthy := healthy) == endpoints[k] <==> endpoints[k].healthy == healthy;
    assert first == endpoints <==> first[k] == endpoints[k];
    if AllHave(endpoints, replica, healthy) {
      assert all == endpoints;
    }
    if all == endpoints {
      forall i | 0 <= i < |endpoints| && endpoints[i].replica == replica ensures endpoints[i].healthy == healthy {
        assert all[i] == endpoints[i];
      }
    }
    if LaterHave(endpoints, replica, healthy) {
      assert forall i :: 0 <= i < |endpoints| ==> first[i] == all[i];
    }
    if first == all {
      forall i | k < i < |endpoints| && endpoints[i].replica == replica ensures endpoints[i].healthy == healthy {
        assert first[i] == endpoints[i] && all[i].healthy == healthy;
      }
    }
  }

  /** For one report: the first services listing the id are the same and only a first copy differs from the report, or
      they differ and both already say so, or no service lists it. */
  ghost predicate ReportAgrees(m: Memory, replica: string, healthy: bool, keys: seq<string>) {
    match (FirstListing(m.table, m.order, replica), FirstListing(m.table, keys, replica))
    case (Some(a), Some(b)) =>
      if a == b then LaterHave(Get(m.table, a), replica, healthy)
      else FirstHas(Get(m.table, a), replica, healthy) && AllHave(Get(m.table, b), replica, healthy)
    case _ => true
  }

  lemma SameFirst(table: Table, order: seq<string>, keys: seq<string>, replica: string)
    requires Enumerates(order, table) && Enumerates(keys, table)
    ensures FirstListing(table, order, replica).None? <==> FirstListing(table, keys, replica).None?
  {
    var a, b := FirstListing(table, order, replica), FirstListing(table, keys, replica);
    if a.Some? {
      assert a.value in keys;
    }
    if b.Some? {
      assert b.value in order;
    }
  }

  /** Exactly when one health report leaves both tables equal, however often ids repeat. */
  lemma ReportAgreesIff(m: Memory, replica: string, healthy: bool, keys: seq<string>)
    requires Enumerates(m.order, m.table) && Enumerates(keys, m.table)
    ensures SetFirst(m.table, m.order, replica, healthy) == SetAll(m.table, keys, replica, healthy)
       <==> ReportAgrees(m, replica, healthy, keys)
  {
    hide Lists, FlipFirst, FlipAll, FirstHas, AllHave, LaterHave, SetFirst, SetAll, FirstListing, NoDup;
    var table := m.table;
    var a, b := FirstListing(table, m.order, replica), FirstListing(table, keys, replica);
    SetFirstIs(table, m.order, replica, healthy);
    SetAllIs(table, keys, replica, healthy);
    SameFirst(table, m.order, keys, replica);
    if a.Some? {
      assert a.value in table && b.value in table;
      FlipsIff(table[a.value], replica, healthy);
      FlipsIff(table[b.value], replica, healthy);
      var first := table[a.value := FlipFirst(table[a.value], replica, healthy)];
      var all := table[b.value := FlipAll(table[b.value], replica, healthy)];
      if a != b {
        if first == all {
          assert first[a.value] == table[a.value] && all[b.value] == table[b.value];
        }
        if ReportAgrees(m, replica, healthy, keys) {
          assert first == table && all == table;
        }
      } else if first == all {
        assert first[a.value] == all[a.value];
      }
    }
  }

  /** Both tables hold the same map all along the history. */
  ghost predicate Alike(m: Memory, redis: Table, ops: seq<Operation>)
    decreases |ops|
  {
    m.table == redis && (ops == [] || Alike(InMemory(m, ops[0]), InRedis(redis, ops[0]), ops[1..]))
  }

  /** KEYS lists exactly the services there are. */
  ghost predicate KeysListed(table: Table, ops: seq<Operation>)
    decreases |ops|
  {
    ops == [] || ((ops[0].SetHealthy? ==> Enumerates(ops[0].keys, table)) && KeysListed(InRedis(table, ops[0]), ops[1..]))
  }

  ghost predicate ReportsAgree(m: Memory, ops: seq<Operation>)
    decreases |ops|
  {
    ops == []
    || ((ops[0].SetHealthy? ==> ReportAgrees(m, ops[0].replica, ops[0].healthy, ops[0].keys))
        && ReportsAgree(InMemory(m, ops[0]), ops[1..]))
  }

  /** Whether ids repeat or not: the two tables are the same after every operation if and only if every report met the
      condition when it arrived. */
  lemma {:induction false} RefinementIff(m: Memory, ops: seq<Operation>)
    requires Enumerates(m.order, m.table) && KeysListed(m.table, ops)
    ensures Alike(m, m.table, ops) <==> ReportsAgree(m, ops)
    decreases |ops|
  {
    hide Enumerates, ReportAgrees, SetFirst, SetAll;
    if ops != [] {
      var op := ops[0];
      EnumerationAfterStep(m, op);
      if op.SetHealthy? {
        ReportAgreesIff(m, op.replica, op.healthy, op.keys);
      }
      if InMemory(m, op).table == InRedis(m.table, op) {
        RefinementIff(InMemory(m, op), ops[1..]);
      } else {
        Apart(InMemory(m, op), InRedis(m.table, op), ops[1..]);
      }
    }
  }

  lemma Apart(m: Memory, redis: Table, ops: seq<Operation>)
    requires m.table != redis
    ensures !Alike(m, redis, ops)
  {}

  /** An id listed twice in one service is enough to bring the tables apart. */
  lemma RepeatedIdDisagrees(e: Endpoint)
    requires !e.healthy
    ensures var m := Memory(map["s" := [e, e]], ["s"]);
            Enumerates(["s"], m.table) && !ReportAgrees(m, e.replica, true, ["s"])
  {
    var m, es := Memory(map["s" := [e, e]], ["s"]), [e, e];
    assert es[0].replica == e.replica && es[1].replica == e.replica;
    assert es[..1][0].replica == e.replica;
    assert Lists(es, e.replica) && Lists(es[..1], e.replica);
  }

  // ---- The classes ----

  class RoutingTable {
    var table: Table
    var order: seq<string>  // the dictionary's insertion order

    ghost predicate Valid()
      reads this
    {
      Enumerates(order, table)
    }

    ghost function State(): Memory
      reads this
    {
      Memory(table, order)
    }

    constructor ()
      ensures Valid() && State() == Memory(map[], [])
    {
      table, order := map[], [];
    }

    method UpdateService(service: string, endpoints: seq<Endpoint>)
      requires Valid()
      modifies this
      ensures Valid() && State() == InMemory(old(State()), Operation.UpdateService(service, endpoints))
      ensures order == if service in old(table) then old(order) else old(order) + [service]
    {
      var existing := Get(table, service);
      var merged: seq<Endpoint> := [];
      for i := 0 to |endpoints|
        invariant merged == Merge(existing, endpoints)[..i]
      {
        var e := endpoints[i];
        merged := merged + [Endpoint(e.replica, e.host, e.port, HealthIn(existing, e.replica, e.healthy))];
      }
      assert merged == Merge(existing, endpoints);
      if service !in table {
        NoDupAppend(order, service);
        order := order + [service];
      }
      table := table[service := merged];
    }

    method GetEndpoints(service: string) returns (endpoints: seq<Endpoint>)
      ensures endpoints == Get(table, service)
    {
      endpoints := if service in table then table[service] else [];
    }

    method SetHealthy(replica: string, healthy: bool)
      requires Valid()
      modifies this
      ensures Valid() && State() == Memory(SetFirst(old(table), old(order), replica, healthy), old(order))
    {
      for k := 0 to |order|
        invariant State() == old(State()) && Valid()
        invariant forall j :: 0 <= j < k ==> !Lists(table[order[j]], replica)
      {
        var service := order[k];
        var endpoints := table[service];
        for i := 0 to |endpoints|
          invariant State() == old(State())
          invariant forall j :: 0 <= j < i ==> endpoints[j].replica != replica
        {
          if endpoints[i].replica == replica {
            FlipFirstAt(endpoints, i, replica, healthy);
            SetFirstAt(table, order, k, replica, healthy);
            table := table[service := endpoints[i := endpoints[i].(healthy := healthy)]];
            return;
          }
        }
      }
      SetFirstNowhere(table, order, replica, healthy);
    }

    method RemoveService(service: string)
      requires Valid()
      modifies this
      ensures Valid() && State() == InMemory(old(State()), Operation.RemoveService(service))
    {
      RemoveFirstMembers(order, service);
      table := table - {service};
      order := RemoveFirst(order, service);
    }
  }

  class RedisRoutingTable {
    var redis: Table

    constructor ()
      ensures redis == map[]
    {
      redis := map[];
    }

    method UpdateService(service: string, endpoints: seq<Endpoint>)
      modifies this
      ensures redis == InRedis(old(redis), Operation.UpdateService(service, endpoints))
    {
      var existing := Get(redis, service);
      var data: seq<Endpoint> := [];
      for i := 0 to |endpoints|
        invariant data == Merge(existing, endpoints)[..i]
      {
        var e := endpoints[i];
        data := data + [Endpoint(e.replica, e.host, e.port, HealthIn(existing, e.replica, e.healthy))];
      }
      assert data == Merge(existing, endpoints);
      redis := redis[service := data];
    }

    method GetEndpoints(service: string) returns (endpoints: seq<Endpoint>)
      ensures endpoints == Get(redis, service)
    {
      endpoints := if service in redis then redis[service] else [];
    }

    /** The Lua script, run on one key. */
    method SetHealthyScript(service: string, replica: string, healthy: bool) returns (found: bool)
      modifies this
      ensures found == Lists(Get(old(redis), service), replica)
      ensures redis == if found
                       then old(redis)[service := FlipAll(Get(old(redis), service), replica, healthy)]
                       else old(redis)
    {
      found := false;
      if service !in redis {
        return;
      }
      var endpoints := redis[service];
      ghost var target := FlipAll(redis[service], replica, healthy);
      for i := 0 to |endpoints|
        invariant redis == old(redis)
        invariant |endpoints| == |target| == |redis[service]|
        invariant forall j :: 0 <= j < i ==> endpoints[j] == target[j]
        invariant forall j :: i <= j < |endpoints| ==> endpoints[j] == redis[service][j]
        invariant found <==> exists j :: 0 <= j < i && redis[service][j].replica == replica
      {
        if endpoints[i].replica == replica {
          endpoints := endpoints[i := endpoints[i].(healthy := healthy)];
          found := true;
        }
      }
      if found {
        assert endpoints == target;
        redis := redis[service := endpoints];
      }
    }

    method SetHealthy(replica: string, healthy: bool, keys: seq<string>)
      modifies this
      ensures redis == InRedis(old(redis), Operation.SetHealthy(replica, healthy, keys))
    {
      for k := 0 to |keys|
        invariant redis == old(redis)
        invariant SetAll(redis, keys, replica, healthy) == SetAll(redis, keys[k..], replica, healthy)
      {
        assert keys[k..][1..] == keys[k + 1..];
        var found := SetHealthyScript(keys[k], replica, healthy);
        if found {
          return;
        }
      }
    }

    method RemoveService(service: string)
      modifies this
      ensures redis == InRedis(old(redis), Operation.RemoveService(service))
    {
      redis := redis - {service};
    }
  }
}
