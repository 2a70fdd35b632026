/** Placement policies, and how many equal requests the nodes can still take. */
module Scheduler {
  import opened Wrappers
  import opened Nodes

  datatype Policy = BinPack | Spread

  /** The sort key of either policy; bin-pack leaves the third number at zero. */
  datatype Key = Key(first: int, second: int, third: int, id: string)

  function KeyOf(policy: Policy, n: Node): Key {
    match policy
    case BinPack => Key(n.AvailableCpu(), n.AvailableMem(), 0, n.id)
    case Spread => Key(|n.replicaIds|, n.cpuUsed, n.memUsed, n.id)
  }

  predicate StringLess(a: string, b: string) {
    if b == "" then false
    else if a == "" then true
    else a[0] < b[0] || (a[0] == b[0] && StringLess(a[1..], b[1..]))
  }

  predicate KeyLess(a: Key, b: Key) {
    a.first < b.first || (a.first == b.first && (
      a.second < b.second || (a.second == b.second && (
        a.third < b.third || (a.third == b.third && StringLess(a.id, b.id))))))
  }

  lemma {:induction false} StringLessTotal(a: string, b: string)
    ensures StringLess(a, b) || StringLess(b, a) || a == b
  {
    if a != "" && b != "" && a[0] == b[0] {
      StringLessTotal(a[1..], b[1..]);
      if a[1..] == b[1..] {
        assert a == [a[0]] + a[1..] == b;
      }
    }
  }

  lemma {:induction false} StringLessTransitive(a: string, b: string, c: string)
    requires !StringLess(b, a) && !StringLess(c, b)
    ensures !StringLess(c, a)
  {
    if a != "" && b != "" && c != "" && a[0] == b[0] == c[0] {
      StringLessTransitive(a[1..], b[1..], c[1..]);
    }
  }

  lemma {:induction false} StringAsymmetric(a: string, b: string)
    ensures !(StringLess(a, b) && StringLess(b, a))
  {
    if a != "" && b != "" {
      StringAsymmetric(a[1..], b[1..]);
    }
  }

  lemma KeyAsymmetric(a: Key, b: Key)
    ensures !(KeyLess(a, b) && KeyLess(b, a))
  {
    StringAsymmetric(a.id, b.id);
  }

  lemma KeyLessTransitive(a: Key, b: Key, c: Key)
    requires !KeyLess(b, a) && !KeyLess(c, b)
    ensures !KeyLess(c, a)
  {
    if !StringLess(b.id, a.id) && !StringLess(c.id, b.id) {
      StringLessTransitive(a.id, b.id, c.id);
    }
  }

  predicate Fits(n: Node, cpu: int, mem: int) {
    n.AvailableCpu() >= cpu && n.AvailableMem() >= mem
  }

  function Candidates(nodes: seq<Node>, cpu: int, mem: int): (r: seq<Node>)
    ensures forall n :: n in r <==> n in nodes && Fits(n, cpu, mem)
  {
    if nodes == [] then []
    else
      assert nodes == [nodes[0]] + nodes[1..];
      if Fits(nodes[0], cpu, mem) then [nodes[0]] + Candidates(nodes[1..], cpu, mem)
      else Candidates(nodes[1..], cpu, mem)
  }

  /** Python's `min` with a key: the first of the least elements. */
  function Least(policy: Policy, nodes: seq<Node>): (r: Node)
    requires nodes != []
    ensures r in nodes
    ensures forall n :: n in nodes ==> !KeyLess(KeyOf(policy, n), KeyOf(policy, r))
  {
    if |nodes| == 1 then
      KeyAsymmetric(KeyOf(policy, nodes[0]), KeyOf(policy, nodes[0]));
      nodes[0]
    else
      var rest := Least(policy, nodes[1..]);
      assert nodes == [nodes[0]] + nodes[1..];
      var a, b := KeyOf(policy, nodes[0]), KeyOf(policy, rest);
      if KeyLess(b, a) then
        KeyAsymmetric(a, b);
        rest
      else
        assert forall n :: n in nodes[1..] ==> !KeyLess(KeyOf(policy, n), a) by {
          forall n | n in nodes[1..] ensures !KeyLess(KeyOf(policy, n), a) {
            KeyLessTransitive(a, b, KeyOf(policy, n));
          }
        }
        KeyAsymmetric(a, a);
        nodes[0]
  }

  /** `select_node`; None stands for SchedulingError. */
  function SelectNode(policy: Policy, nodes: seq<Node>, cpu: int, mem: int): (r: Option<Node>)
    ensures r.None? <==> forall n :: n in nodes ==> !Fits(n, cpu, mem)
    ensures r.Some? ==> r.value in nodes && Fits(r.value, cpu, mem)
    ensures r.Some? ==> forall n :: n in nodes && Fits(n, cpu, mem) ==>
              !KeyLess(KeyOf(policy, n), KeyOf(policy, r.value))
  {
    var candidates := Candidates(nodes, cpu, mem);
    if candidates == [] then
      None
    else
      assert candidates[0] in candidates;
      Some(Least(policy, candidates))
  }

  // ---- The choice in the nodes' own fields ----

  /** The order of strings: `a` is a proper beginning of `b`, or less where they first differ. */
  ghost predicate Before(a: string, b: string) {
    exists k: nat :: DiffersAt(a, b, k)
  }

  ghost predicate DiffersAt(a: string, b: string, k: nat) {
    k <= |a| && k < |b| && a[..k] == b[..k] && (k == |a| || a[k] < b[k])
  }

  lemma {:induction false} BeforeIff(a: string, b: string)
    ensures StringLess(a, b) <==> Before(a, b)
  {
    if a == "" || b == "" {
      if b != "" {
        assert DiffersAt(a, b, 0);
      }
    } else if a[0] != b[0] {
      forall k: nat ensures DiffersAt(a, b, k) <==> k == 0 && a[0] < b[0] {
        DiffersAtOnce(a, b, k);
      }
      assert Before(a, b) <==> DiffersAt(a, b, 0);
    } else {
      BeforeIff(a[1..], b[1..]);
      forall k: nat ensures DiffersAt(a, b, k + 1) <==> DiffersAt(a[1..], b[1..], k) {
        DiffersLater(a, b, k);
      }
      if Before(a, b) {
        var k: nat :| DiffersAt(a, b, k);
        assert k > 0 && DiffersAt(a, b, k - 1 + 1);
        assert DiffersAt(a[1..], b[1..], k - 1);
      }
      if Before(a[1..], b[1..]) {
        var k: nat :| DiffersAt(a[1..], b[1..], k);
        assert DiffersAt(a, b, k + 1);
      }
    }
  }

  lemma DiffersAtOnce(a: string, b: string, k: nat)
    requires a != "" && b != "" && a[0] != b[0]
    ensures DiffersAt(a, b, k) <==> k == 0 && a[0] < b[0]
  {
    if 0 < k <= |a| && k <= |b| {
      assert a[..k][0] != b[..k][0];
    }
  }

  lemma DiffersLater(a: string, b: string, k: nat)
    requires a != "" && b != "" && a[0] == b[0]
    ensures DiffersAt(a, b, k + 1) <==> DiffersAt(a[1..], b[1..], k)
  {
    if k + 1 <= |a| && k + 1 <= |b| {
      assert a[..k + 1] == [a[0]] + a[1..][..k] && b[..k + 1] == [b[0]] + b[1..][..k];
      assert a[1..][..k] == a[..k + 1][1..] && b[1..][..k] == b[..k + 1][1..];
    }
  }

  predicate HasRoom(n: Node, cpu: int, mem: int) {
    n.cpuCapacity - n.cpuUsed >= cpu && n.memCapacity - n.memUsed >= mem
  }

  /** Under bin-packing no node with room has less free CPU than the chosen one, none with as much free CPU has less free
      memory, and among equals the smaller id is chosen; there is no choice only if no node has room. */
  lemma BinPackPicks(nodes: seq<Node>, cpu: int, mem: int)
    ensures match SelectNode(BinPack, nodes, cpu, mem)
            case None => forall n :: n in nodes ==> !HasRoom(n, cpu, mem)
            case Some(best) =>
              && best in nodes && HasRoom(best, cpu, mem)
              && forall n :: n in nodes && HasRoom(n, cpu, mem) ==>
                   var d, e := (n.cpuCapacity - n.cpuUsed) - (best.cpuCapacity - best.cpuUsed),
                               (n.memCapacity - n.memUsed) - (best.memCapacity - best.memUsed);
                   d >= 0 && (d == 0 ==> e >= 0 && (e == 0 ==> !Before(n.id, best.id)))
  {
    hide SelectNode, StringLess, Before;
    var r := SelectNode(BinPack, nodes, cpu, mem);
    forall n | n in nodes ensures Fits(n, cpu, mem) <==> HasRoom(n, cpu, mem) {
    }
    if r.Some? {
      forall n | n in nodes && HasRoom(n, cpu, mem) ensures !KeyLess(KeyOf(BinPack, n), KeyOf(BinPack, r.value)) {
        assert Fits(n, cpu, mem);
        BeforeIff(n.id, r.value.id);
      }
      forall n ensures StringLess(n, r.value.id) <==> Before(n, r.value.id) {
        BeforeIff(n, r.value.id);
      }
    }
  }

  /** Under spreading no node with room holds fewer replicas than the chosen one, none with as many uses less CPU, none of
      these less memory, and among equals the smaller id is chosen. */
  lemma SpreadPicks(nodes: seq<Node>, cpu: int, mem: int)
    ensures match SelectNode(Spread, nodes, cpu, mem)
            case None => forall n :: n in nodes ==> !HasRoom(n, cpu, mem)
            case Some(best) =>
              && best in nodes && HasRoom(best, cpu, mem)
              && forall n :: n in nodes && HasRoom(n, cpu, mem) ==>
                   var c, d, e := |n.replicaIds| - |best.replicaIds|, n.cpuUsed - best.cpuUsed, n.memUsed - best.memUsed;
                   c >= 0 && (c == 0 ==> d >= 0 && (d == 0 ==> e >= 0 && (e == 0 ==> !Before(n.id, best.id))))
  {
    hide SelectNode, StringLess, Before;
    var r := SelectNode(Spread, nodes, cpu, mem);
    forall n | n in nodes ensures Fits(n, cpu, mem) <==> HasRoom(n, cpu, mem) {
    }
    if r.Some? {
      forall n | n in nodes && HasRoom(n, cpu, mem) ensures !KeyLess(KeyOf(Spread, n), KeyOf(Spread, r.value)) {
        assert Fits(n, cpu, mem);
      }
      forall n ensures StringLess(n, r.value.id) <==> Before(n, r.value.id) {
        BeforeIff(n, r.value.id);
      }
    }
  }

  /** The choice depends on which nodes there are, not on the order the dictionary lists them in. */
  lemma SelectionIgnoresListingOrder(policy: Policy, nodes: seq<Node>, nodes': seq<Node>, cpu: int, mem: int)
    requires UniqueNodes(nodes)
    requires forall n :: n in nodes <==> n in nodes'
    ensures SelectNode(policy, nodes, cpu, mem) == SelectNode(policy, nodes', cpu, mem)
  {
    var a, b := SelectNode(policy, nodes, cpu, mem), SelectNode(policy, nodes', cpu, mem);
    if a.Some? && b.Some? {
      StringLessTotal(a.value.id, b.value.id);
      assert a.value.id == b.value.id;
      var i :| 0 <= i < |nodes| && nodes[i] == a.value;
      var j :| 0 <= j < |nodes| && nodes[j] == b.value;
      assert i == j;
    }
  }

  // ---- Capacity for equal requests ----

  /** How many requests there is room for; requests of nothing have no limit. */
  datatype Room = Only(k: nat) | Boundless

  predicate Within(k: nat, room: Room) {
    room.Boundless? || k <= room.k
  }

  function Lesser(a: Room, b: Room): Room {
    if a.Boundless? then b else if b.Boundless? then a else Only(Min(a.k, b.k))
  }

  function Plus(a: Room, b: Room): Room {
    if a.Boundless? || b.Boundless? then Boundless else Only(a.k + b.k)
  }

  function Less(room: Room, k: nat): Room {
    if room.Boundless? then Boundless else Only(Max(0, room.k - k))
  }

  /** The most of `m` attempts that there is room for. */
  function Fill(m: nat, room: Room): (n: nat)
    ensures n <= m && Within(n, room)
    ensures n < m ==> room == Only(n)
  {
    if room.Boundless? then m else Min(m, room.k)
  }

  /** Room for requests of `c` in what is available. */
  function RoomFor(available: int, c: nat): Room {
    if available < 0 then Only(0) else if c == 0 then Boundless else Only(available / c)
  }

  /** How many requests of this size still fit on the node. */
  function Slots(n: Node, cpu: nat, mem: nat): Room {
    Lesser(RoomFor(n.AvailableCpu(), cpu), RoomFor(n.AvailableMem(), mem))
  }

  function TotalSlots(nodes: seq<Node>, cpu: nat, mem: nat): Room {
    if nodes == [] then Only(0) else Plus(Slots(nodes[0], cpu, mem), TotalSlots(nodes[1..], cpu, mem))
  }

  lemma QuotientAtLeast(a: int, c: int, k: int)
    requires c > 0
    ensures k <= a / c <==> k * c <= a
  {
    var q, r := a / c, a % c;
    assert a == q * c + r && 0 <= r < c;
    if k <= q {
      assert k * c <= q * c;
    } else {
      assert k * c >= (q + 1) * c;
    }
  }

  lemma QuotientAfterTaking(a: int, c: int)
    requires c > 0
    ensures (a - c) / c == a / c - 1
  {
    QuotientAtLeast(a - c, c, a / c - 1);
    QuotientAtLeast(a, c, a / c);
    QuotientAtLeast(a - c, c, a / c);
    QuotientAtLeast(a, c, a / c + 1);
  }

  lemma RoomForMeaning(available: int, c: nat, k: nat)
    requires k > 0
    ensures Within(k, RoomFor(available, c)) <==> k * c <= available
  {
    if c > 0 {
      QuotientAtLeast(available, c, k);
      assert k * c >= c > 0;
    } else {
      assert k * c == 0;
    }
  }

  /** `Slots` is the largest number of requests that fit together. */
  lemma SlotsMeaning(n: Node, cpu: nat, mem: nat, k: nat)
    requires k > 0
    ensures Within(k, Slots(n, cpu, mem)) <==> k * cpu <= n.AvailableCpu() && k * mem <= n.AvailableMem()
  {
    hide RoomFor;
    RoomForMeaning(n.AvailableCpu(), cpu, k);
    RoomForMeaning(n.AvailableMem(), mem, k);
  }

  lemma RoomAfterTaking(available: int, c: nat)
    requires c <= available
    ensures RoomFor(available - c, c) == Less(RoomFor(available, c), 1)
  {
    if c > 0 {
      QuotientAfterTaking(available, c);
    }
  }

  lemma ChargeTakesOneSlot(n: Node, id: string, cpu: nat, mem: nat)
    requires Fits(n, cpu, mem) && id !in n.replicaIds
    ensures Slots(Charge(n, id, cpu, mem), cpu, mem) == Less(Slots(n, cpu, mem), 1)
    ensures Within(1, Slots(n, cpu, mem))
  {
    hide RoomFor;
    SlotsMeaning(n, cpu, mem, 1);
    RoomAfterTaking(n.AvailableCpu(), cpu);
    RoomAfterTaking(n.AvailableMem(), mem);
  }

  lemma {:induction false} TotalAfterTaking(nodes: seq<Node>, i: nat, n: Node, cpu: nat, mem: nat)
    requires i < |nodes| && Within(1, Slots(nodes[i], cpu, mem))
    requires Slots(n, cpu, mem) == Less(Slots(nodes[i], cpu, mem), 1)
    ensures TotalSlots(nodes[i := n], cpu, mem) == Less(TotalSlots(nodes, cpu, mem), 1)
    ensures Within(1, TotalSlots(nodes, cpu, mem))
  {
    hide Slots;
    if i == 0 {
      assert nodes[0 := n][1..] == nodes[1..];
    } else {
      assert nodes[i := n][1..] == nodes[1..][i - 1 := n];
      TotalAfterTaking(nodes[1..], i - 1, n, cpu, mem);
    }
  }

  lemma OneSlotIffFits(n: Node, cpu: nat, mem: nat)
    ensures Within(1, Slots(n, cpu, mem)) <==> Fits(n, cpu, mem)
  {
    hide Slots;
    SlotsMeaning(n, cpu, mem, 1);
  }

  ghost predicate NoneFits(nodes: seq<Node>, cpu: nat, mem: nat) {
    forall n :: n in nodes ==> !Fits(n, cpu, mem)
  }

  lemma {:induction false} NoneFitsCons(nodes: seq<Node>, cpu: nat, mem: nat)
    requires nodes != []
    ensures NoneFits(nodes, cpu, mem) <==> !Fits(nodes[0], cpu, mem) && NoneFits(nodes[1..], cpu, mem)
  {
    hide Fits;
    var first, rest := nodes[0], nodes[1..];
    assert nodes == [first] + rest;
    forall n ensures n in nodes <==> n == first || n in rest {
    }
  }

  lemma {:induction false} NoSlotsIffNoneFits(nodes: seq<Node>, cpu: nat, mem: nat)
    ensures TotalSlots(nodes, cpu, mem) == Only(0) <==> NoneFits(nodes, cpu, mem)
  {
    if nodes == [] {
      assert NoneFits([], cpu, mem);
    } else {
      hide Slots, Fits, NoneFits;
      OneSlotIffFits(nodes[0], cpu, mem);
      NoneFitsCons(nodes, cpu, mem);
      NoSlotsIffNoneFits(nodes[1..], cpu, mem);
    }
  }

  /** Whichever policy chooses, a placement fails exactly when no slot is left and costs exactly one slot. */
  lemma PlacementTakesOneSlot(policy: Policy, ledger: Ledger, id: string, cpu: nat, mem: nat)
    requires UniqueNodes(ledger)
    requires forall n :: n in ledger ==> id !in n.replicaIds
    ensures var target := SelectNode(policy, ledger, cpu, mem);
            && (target.None? <==> TotalSlots(ledger, cpu, mem) == Only(0))
            && (target.Some? ==>
                  TotalSlots(Allocated(ledger, target.value.id, id, cpu, mem), cpu, mem)
                  == Less(TotalSlots(ledger, cpu, mem), 1))
  {
    hide Slots, TotalSlots, SelectNode;
    NoSlotsIffNoneFits(ledger, cpu, mem);
    var target := SelectNode(policy, ledger, cpu, mem);
    if target.Some? {
      var i :| 0 <= i < |ledger| && ledger[i] == target.value;
      IndexIsUnique(ledger, i);
      ChargeTakesOneSlot(ledger[i], id, cpu, mem);
      TotalAfterTaking(ledger, i, Charge(ledger[i], id, cpu, mem), cpu, mem);
    }
  }

  function SumOf(counts: seq<nat>): nat {
    if counts == [] then 0 else counts[0] + SumOf(counts[1..])
  }

  /** `counts[i]` further requests fit on the i-th node, all at once. */
  ghost predicate Placeable(nodes: seq<Node>, counts: seq<nat>, cpu: nat, mem: nat) {
    && |counts| == |nodes|
    && forall i :: 0 <= i < |nodes| && counts[i] > 0 ==>
         counts[i] * cpu <= nodes[i].AvailableCpu() && counts[i] * mem <= nodes[i].AvailableMem()
  }

  /** No placement of equal requests, however clever, beats the number of slots greedy placement fills. */
  lemma {:induction false} NoPlacementBeatsSlots(nodes: seq<Node>, counts: seq<nat>, cpu: nat, mem: nat)
    requires Placeable(nodes, counts, cpu, mem)
    ensures Within(SumOf(counts), TotalSlots(nodes, cpu, mem))
  {
    hide Slots;
    if nodes != [] {
      if counts[0] > 0 {
        SlotsMeaning(nodes[0], cpu, mem, counts[0]);
      }
      assert forall i :: 0 <= i < |nodes[1..]| ==> nodes[1..][i] == nodes[i + 1] && counts[1..][i] == counts[i + 1];
      NoPlacementBeatsSlots(nodes[1..], counts[1..], cpu, mem);
    }
  }
}
