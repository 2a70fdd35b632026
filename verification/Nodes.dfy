/** The per-node resource ledger kept by `NodeManager`. */
module Nodes {
  import opened Wrappers

  datatype Node = Node(
    id: string, cpuCapacity: int, memCapacity: int, cpuUsed: int, memUsed: int, replicaIds: seq<string>)
  {
    function AvailableCpu(): int { cpuCapacity - cpuUsed }

    function AvailableMem(): int { memCapacity - memUsed }
  }

  /** The node dictionary, as its entries in insertion order. */
  type Ledger = seq<Node>

  ghost predicate UniqueNodes(ledger: Ledger) {
    forall i, j :: 0 <= i < j < |ledger| ==> ledger[i].id != ledger[j].id
  }

  /** Dictionary lookup by node id; the length of the ledger stands for a missing key. */
  function IndexOf(ledger: Ledger, node: string): (i: nat)
    ensures i <= |ledger|
    ensures i < |ledger| ==> ledger[i].id == node
    ensures forall j :: 0 <= j < i ==> ledger[j].id != node
  {
    if ledger == [] then 0
    else if ledger[0].id == node then 0
    else 1 + IndexOf(ledger[1..], node)
  }

  predicate Known(ledger: Ledger, node: string) {
    IndexOf(ledger, node) < |ledger|
  }

  function Charge(n: Node, replica: string, cpu: int, mem: int): Node {
    if replica in n.replicaIds then n
    else n.(cpuUsed := n.cpuUsed + cpu, memUsed := n.memUsed + mem, replicaIds := n.replicaIds + [replica])
  }

  /** The clamped subtraction happens whether or not the node holds the replica. */
  function Refund(n: Node, replica: string, cpu: int, mem: int): Node {
    n.(cpuUsed := Max(0, n.cpuUsed - cpu), memUsed := Max(0, n.memUsed - mem),
       replicaIds := RemoveFirst(n.replicaIds, replica))
  }

  /** `allocate`; a node the ledger does not know is a KeyError there and leaves the ledger as it was here. */
  function Allocated(ledger: Ledger, node: string, replica: string, cpu: int, mem: int): Ledger {
    var i := IndexOf(ledger, node);
    if i == |ledger| then ledger else ledger[i := Charge(ledger[i], replica, cpu, mem)]
  }

  /** `deallocate`; an unknown node is ignored. */
  function Deallocated(ledger: Ledger, node: string, replica: string, cpu: int, mem: int): Ledger {
    var i := IndexOf(ledger, node);
    if i == |ledger| then ledger else ledger[i := Refund(ledger[i], replica, cpu, mem)]
  }

  // ---- What the ledger should say: one claim per replica ----

  /** What one replica is entitled to: its node and its service's request. */
  datatype Claim = Claim(node: string, cpu: int, mem: int)

  type Claims = map<string, Claim>

  ghost function SumCpu(ids: seq<string>, claims: Claims): int
    requires forall id :: id in ids ==> id in claims
  {
    if ids == [] then 0 else claims[ids[0]].cpu + SumCpu(ids[1..], claims)
  }

  ghost function SumMem(ids: seq<string>, claims: Claims): int
    requires forall id :: id in ids ==> id in claims
  {
    if ids == [] then 0 else claims[ids[0]].mem + SumMem(ids[1..], claims)
  }

  ghost predicate NonNegative(claims: Claims) {
    forall id :: id in claims ==> claims[id].cpu >= 0 && claims[id].mem >= 0
  }

  /** The node holds exactly the replicas claimed for it, its usage is the sum of their requests,
      and that sum is within its capacity. */
  ghost predicate NodeMatches(n: Node, claims: Claims) {
    && NoDup(n.replicaIds)
    && (forall id :: id in n.replicaIds <==> id in claims && claims[id].node == n.id)
    && n.cpuUsed == SumCpu(n.replicaIds, claims)
    && n.memUsed == SumMem(n.replicaIds, claims)
    && n.cpuUsed <= n.cpuCapacity
    && n.memUsed <= n.memCapacity
  }

  ghost predicate LedgerMatches(ledger: Ledger, claims: Claims) {
    && UniqueNodes(ledger)
    && NonNegative(claims)
    && (forall id :: id in claims ==> Known(ledger, claims[id].node))
    && (forall i :: 0 <= i < |ledger| ==> NodeMatches(ledger[i], claims))
  }

  lemma {:induction false} SumFrame(ids: seq<string>, claims: Claims, claims': Claims)
    requires forall id :: id in ids ==> id in claims && id in claims' && claims[id] == claims'[id]
    ensures SumCpu(ids, claims) == SumCpu(ids, claims')
    ensures SumMem(ids, claims) == SumMem(ids, claims')
  {
    if ids != [] {
      SumFrame(ids[1..], claims, claims');
    }
  }

  lemma {:induction false} SumAppend(ids: seq<string>, x: string, claims: Claims)
    requires forall id :: id in ids + [x] ==> id in claims
    ensures SumCpu(ids + [x], claims) == SumCpu(ids, claims) + claims[x].cpu
    ensures SumMem(ids + [x], claims) == SumMem(ids, claims) + claims[x].mem
  {
    if ids == [] {
      assert ids + [x] == [x];
    } else {
      assert (ids + [x])[1..] == ids[1..] + [x];
      SumAppend(ids[1..], x, claims);
    }
  }

  /** Dropping a held replica takes exactly its request off the sum. */
  lemma {:induction false} SumRemove(ids: seq<string>, x: string, claims: Claims)
    requires forall id :: id in ids ==> id in claims
    requires x in ids
    ensures forall id :: id in RemoveFirst(ids, x) ==> id in ids
    ensures SumCpu(RemoveFirst(ids, x), claims) == SumCpu(ids, claims) - claims[x].cpu
    ensures SumMem(RemoveFirst(ids, x), claims) == SumMem(ids, claims) - claims[x].mem
  {
    assert ids == [ids[0]] + ids[1..];
    if ids[0] != x {
      SumRemove(ids[1..], x, claims);
      var rest := RemoveFirst(ids[1..], x);
      assert RemoveFirst(ids, x) == [ids[0]] + rest;
      assert ([ids[0]] + rest)[1..] == rest;
    }
  }

  lemma {:induction false} SumNonNegative(ids: seq<string>, claims: Claims)
    requires forall id :: id in ids ==> id in claims
    requires NonNegative(claims)
    ensures SumCpu(ids, claims) >= 0 && SumMem(ids, claims) >= 0
  {
    if ids != [] {
      SumNonNegative(ids[1..], claims);
    }
  }

  lemma IndexIsUnique(ledger: Ledger, i: nat)
    requires UniqueNodes(ledger) && i < |ledger|
    ensures IndexOf(ledger, ledger[i].id) == i
  {
  }

  /** Re-charging a replica the ledger already holds changes nothing. */
  lemma AllocateHeld(ledger: Ledger, claims: Claims, id: string)
    requires LedgerMatches(ledger, claims) && id in claims
    ensures Allocated(ledger, claims[id].node, id, claims[id].cpu, claims[id].mem) == ledger
  {
    var i := IndexOf(ledger, claims[id].node);
    assert NodeMatches(ledger[i], claims);
  }

  lemma ChargeMatches(n: Node, claims: Claims, id: string, c: Claim)
    requires NodeMatches(n, claims) && id !in claims && c.node == n.id
    requires c.cpu <= n.AvailableCpu() && c.mem <= n.AvailableMem()
    ensures NodeMatches(Charge(n, id, c.cpu, c.mem), claims[id := c])
  {
    var claims' := claims[id := c];
    SumFrame(n.replicaIds, claims, claims');
    SumAppend(n.replicaIds, id, claims');
    NoDupAppend(n.replicaIds, id);
  }

  lemma OtherNodeMatches(n: Node, claims: Claims, claims': Claims, id: string)
    requires NodeMatches(n, claims)
    requires id in claims ==> claims[id].node != n.id
    requires id in claims' ==> claims'[id].node != n.id
    requires claims - {id} == claims' - {id}
    ensures NodeMatches(n, claims')
  {
    forall x | x != id ensures (x in claims <==> x in claims') && (x in claims ==> claims[x] == claims'[x]) {
      assert x in claims <==> x in claims - {id};
      assert x in claims' <==> x in claims' - {id};
      if x in claims { assert (claims - {id})[x] == claims[x] && (claims' - {id})[x] == claims'[x]; }
    }
    SumFrame(n.replicaIds, claims, claims');
  }

  /** Replacing one entry's contents keeps the ledger exact when only one replica's claim changed, on that node. */
  lemma ReplaceNode(ledger: Ledger, k: nat, n: Node, claims: Claims, claims': Claims, id: string)
    requires LedgerMatches(ledger, claims) && k < |ledger| && n.id == ledger[k].id
    requires NodeMatches(n, claims') && NonNegative(claims')
    requires id in claims ==> claims[id].node == n.id
    requires id in claims' ==> claims'[id].node == n.id
    requires claims - {id} == claims' - {id}
    ensures LedgerMatches(ledger[k := n], claims')
  {
    var ledger' := ledger[k := n];
    SameIds(ledger, ledger');
    forall i | 0 <= i < |ledger'| ensures NodeMatches(ledger'[i], claims') {
      if i != k {
        OtherNodeMatches(ledger[i], claims, claims', id);
      }
    }
    forall x | x in claims' ensures Known(ledger', claims'[x].node) {
      IndexIsUnique(ledger, k);
      if x != id {
        assert x in claims' - {id};
        assert (claims - {id})[x] == (claims' - {id})[x];
      }
    }
  }

  /** A new replica on a node with room keeps the ledger exact and within capacity. */
  lemma AllocateFresh(ledger: Ledger, claims: Claims, id: string, c: Claim)
    requires LedgerMatches(ledger, claims) && id !in claims && Known(ledger, c.node)
    requires c.cpu >= 0 && c.mem >= 0
    requires c.cpu <= ledger[IndexOf(ledger, c.node)].AvailableCpu()
    requires c.mem <= ledger[IndexOf(ledger, c.node)].AvailableMem()
    ensures LedgerMatches(Allocated(ledger, c.node, id, c.cpu, c.mem), claims[id := c])
  {
    var k := IndexOf(ledger, c.node);
    assert claims - {id} == claims[id := c] - {id};
    ChargeMatches(ledger[k], claims, id, c);
    ReplaceNode(ledger, k, Charge(ledger[k], id, c.cpu, c.mem), claims, claims[id := c], id);
  }

  lemma RefundMatches(n: Node, claims: Claims, id: string)
    requires NodeMatches(n, claims) && NonNegative(claims) && id in claims && claims[id].node == n.id
    ensures var c := claims[id];
            var n' := Refund(n, id, c.cpu, c.mem);
            && NodeMatches(n', claims - {id})
            && n'.cpuUsed == n.cpuUsed - c.cpu && n'.memUsed == n.memUsed - c.mem
  {
    SumRemove(n.replicaIds, id, claims);
    SumNonNegative(RemoveFirst(n.replicaIds, id), claims);
    RemoveFirstMembers(n.replicaIds, id);
    SumFrame(RemoveFirst(n.replicaIds, id), claims, claims - {id});
  }

  /** With requests of either sign, giving up a held replica keeps its node exact if and only if its request does not
      exceed the usage, so that the clamp stays idle, and what remains is within capacity. */
  lemma HeldRefundIff(n: Node, claims: Claims, id: string)
    requires NodeMatches(n, claims) && id in n.replicaIds
    ensures var c := claims[id];
            NodeMatches(Refund(n, id, c.cpu, c.mem), claims - {id})
            <==> 0 <= n.cpuUsed - c.cpu <= n.cpuCapacity && 0 <= n.memUsed - c.mem <= n.memCapacity
  {
    SumRemove(n.replicaIds, id, claims);
    RemoveFirstMembers(n.replicaIds, id);
    SumFrame(RemoveFirst(n.replicaIds, id), claims, claims - {id});
  }

  /** Giving up a held replica keeps the ledger exact, and the clamp at zero never fires. */
  lemma DeallocateHeld(ledger: Ledger, claims: Claims, id: string)
    requires LedgerMatches(ledger, claims) && id in claims
    ensures var c := claims[id];
            var ledger' := Deallocated(ledger, c.node, id, c.cpu, c.mem);
            var k := IndexOf(ledger, c.node);
            && LedgerMatches(ledger', claims - {id})
            && ledger'[k].cpuUsed == ledger[k].cpuUsed - c.cpu
            && ledger'[k].memUsed == ledger[k].memUsed - c.mem
  {
    var c := claims[id];
    var k := IndexOf(ledger, c.node);
    assert claims - {id} == (claims - {id}) - {id};
    RefundMatches(ledger[k], claims, id);
    ReplaceNode(ledger, k, Refund(ledger[k], id, c.cpu, c.mem), claims, claims - {id}, id);
  }

  lemma {:induction false} SameIds(ledger: Ledger, ledger': Ledger)
    requires |ledger| == |ledger'| && forall i :: 0 <= i < |ledger| ==> ledger[i].id == ledger'[i].id
    ensures forall node :: IndexOf(ledger, node) == IndexOf(ledger', node)
  {
    if ledger != [] {
      SameIds(ledger[1..], ledger'[1..]);
    }
  }

  /** Exactly when giving back a replica keeps an exact node exact: the node holds it, or the
      amounts given back leave both clamped totals where they were. */
  lemma RefundExactIff(n: Node, claims: Claims, id: string, cpu: int, mem: int)
    requires NodeMatches(n, claims) && NonNegative(claims)
    requires id in claims && claims[id].node == n.id ==> claims[id] == Claim(n.id, cpu, mem)
    requires cpu >= 0 && mem >= 0
    ensures NodeMatches(Refund(n, id, cpu, mem), claims - {id})
       <==> (id in n.replicaIds || ((cpu == 0 || n.cpuUsed == 0) && (mem == 0 || n.memUsed == 0)))
  {
    SumNonNegative(n.replicaIds, claims);
    var claims' := claims - {id};
    RemoveFirstMembers(n.replicaIds, id);
    if id in n.replicaIds {
      SumRemove(n.replicaIds, id, claims);
      SumNonNegative(RemoveFirst(n.replicaIds, id), claims);
    }
    SumFrame(RemoveFirst(n.replicaIds, id), claims, claims');
  }

  class NodeManager {
    var nodes: Ledger

    constructor (specs: seq<Node>)
      requires UniqueNodes(specs)
      requires forall n :: n in specs ==> n.cpuUsed == 0 && n.memUsed == 0 && n.replicaIds == []
      requires forall n :: n in specs ==> n.cpuCapacity >= 0 && n.memCapacity >= 0
      ensures nodes == specs && LedgerMatches(nodes, map[])
    {
      nodes := specs;
    }

    /** `ok` is false where the dictionary lookup raises KeyError. */
    method Allocate(node: string, replica: string, cpu: int, mem: int) returns (ok: bool)
      modifies this
      ensures ok == Known(old(nodes), node)
      ensures nodes == Allocated(old(nodes), node, replica, cpu, mem)
    {
      var i := IndexOf(nodes, node);
      ok := i < |nodes|;
      if ok && replica !in nodes[i].replicaIds {
        var n := nodes[i];
        n := n.(cpuUsed := n.cpuUsed + cpu);
        n := n.(memUsed := n.memUsed + mem);
        n := n.(replicaIds := n.replicaIds + [replica]);
        nodes := nodes[i := n];
      }
    }

    method Deallocate(node: string, replica: string, cpu: int, mem: int)
      modifies this
      ensures nodes == Deallocated(old(nodes), node, replica, cpu, mem)
    {
      var i := IndexOf(nodes, node);
      if i < |nodes| {
        var n := nodes[i];
        n := n.(cpuUsed := Max(0, n.cpuUsed - cpu));
        n := n.(memUsed := Max(0, n.memUsed - mem));
        if replica in n.replicaIds {
          n := n.(replicaIds := RemoveFirst(n.replicaIds, replica));
        }
        nodes := nodes[i := n];
      }
    }
  }
}
