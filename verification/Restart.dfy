/** The ledger after a restart: the nodes start unused, and refreshing the services charges their live replicas again, in
    the order in which they are visited and without a look at capacity. */
module Restart {
  import opened Wrappers
  import opened Nodes
  import opened Scheduler
  import opened Routing
  import opened Worlds
  import opened Reconcile
  import opened Runs
  import opened Outdated
  import opened LateVisits
  import opened Platforms
  import opened Overwrites

  /** One recorded replica as a refresh comes by it, with its service's request. */
  datatype Look = Look(replica: Replica, cpu: int, mem: int)

  function LooksAt(rs: seq<Replica>, cpu: int, mem: int): seq<Look> {
    if rs == [] then [] else [Look(rs[0], cpu, mem)] + LooksAt(rs[1..], cpu, mem)
  }

  function Looks(store: Store, order: seq<string>): seq<Look> {
    if order == [] then []
    else if order[0] !in store then Looks(store, order[1..])
    else
      var svc := store[order[0]];
      LooksAt(svc.replicas, svc.spec.cpu, svc.spec.mem) + Looks(store, order[1..])
  }

  predicate Lives(docker: Docker, r: Replica) {
    r.status == Running && IsRunning(docker, r.container)
  }

  function LookedAt(docker: Docker, ledger: Ledger, l: Look): Ledger {
    if Lives(docker, l.replica) then Allocated(ledger, l.replica.node, l.replica.id, l.cpu, l.mem)
    else if Dead(docker, l.replica) then Deallocated(ledger, l.replica.node, l.replica.id, l.cpu, l.mem)
    else ledger
  }

  function Reaccounted(docker: Docker, ledger: Ledger, looks: seq<Look>): Ledger
    decreases |looks|
  {
    if looks == [] then ledger else Reaccounted(docker, LookedAt(docker, ledger, looks[0]), looks[1..])
  }

  /** Every service is refreshed once. */
  function RefreshAll(w: World, order: seq<string>): World
    decreases |order|
  {
    if order == [] then w
    else if order[0] !in w.store then RefreshAll(w, order[1..])
    else RefreshAll(Refresh(w, w.store[order[0]]).world, order[1..])
  }

  // ---- Refreshing is looking at every recorded replica ----

  lemma {:induction false} LoopLooks(docker: Docker, docker0: Docker, ledger: Ledger, spec: ServiceSpec, todo: seq<Replica>)
    requires SameLiveContainers(docker, docker0)
    ensures RefreshLoop(docker, ledger, spec, todo).ledger
         == Reaccounted(docker0, ledger, LooksAt(todo, spec.cpu, spec.mem))
    decreases |todo|
  {
    hide Allocated, Deallocated;
    if todo != [] {
      var r, looks := todo[0], LooksAt(todo, spec.cpu, spec.mem);
      assert looks[0] == Look(r, spec.cpu, spec.mem) && looks[1..] == LooksAt(todo[1..], spec.cpu, spec.mem);
      if Dead(docker, r) {
        LiveFrame(docker, docker0, r.container);
        LoopLooks(docker - {r.container}, docker0, LookedAt(docker0, ledger, looks[0]), spec, todo[1..]);
      } else {
        LoopLooks(docker, docker0, LookedAt(docker0, ledger, looks[0]), spec, todo[1..]);
      }
    }
  }

  lemma {:induction false} ReaccountedAppend(docker: Docker, ledger: Ledger, a: seq<Look>, b: seq<Look>)
    ensures Reaccounted(docker, ledger, a + b) == Reaccounted(docker, Reaccounted(docker, ledger, a), b)
    decreases |a|
  {
    if a == [] {
      assert a + b == b;
    } else {
      assert (a + b)[1..] == a[1..] + b;
      ReaccountedAppend(docker, LookedAt(docker, ledger, a[0]), a[1..], b);
    }
  }

  function SeenService(docker: Docker, svc: Service): Service {
    svc.(replicas := Observed(docker, svc.replicas))
  }

  lemma RefreshOne(w: World, s: string, docker0: Docker)
    requires s in w.store && w.store[s].spec.name == s && SameLiveContainers(w.docker, docker0)
    ensures var svc := w.store[s];
            var w' := Refresh(w, svc).world;
            && w'.store == w.store[s := SeenService(docker0, svc)]
            && w'.ledger == Reaccounted(docker0, w.ledger, LooksAt(svc.replicas, svc.spec.cpu, svc.spec.mem))
            && SameLiveContainers(w'.docker, docker0)
  {
    hide EndpointsOf, Merge, SameLiveContainers, Observed;
    var svc := w.store[s];
    LoopLooks(w.docker, docker0, w.ledger, svc.spec, svc.replicas);
    LoopObserves(w.docker, docker0, w.ledger, svc.spec, svc.replicas);
    assert w.store[s := svc] == w.store;
  }

  /** The store, and the ledger, once every service has been refreshed. */
  lemma {:induction false} RefreshAllParts(w: World, order: seq<string>, docker0: Docker)
    requires Named(w.store) && NoDup(order) && SameLiveContainers(w.docker, docker0)
    requires forall s :: s in order ==> s in w.store
    ensures var w' := RefreshAll(w, order);
            && w'.ledger == Reaccounted(docker0, w.ledger, Looks(w.store, order))
            && w'.store.Keys == w.store.Keys
            && forall s :: s in w.store ==>
                 w'.store[s] == if s in order then SeenService(docker0, w.store[s]) else w.store[s]
    decreases |order|
  {
    hide Refresh, SeenService, SameLiveContainers, Reaccounted;
    if order == [] {
      assert Reaccounted(docker0, w.ledger, []) == w.ledger by { EmptyLooks(docker0, w.ledger); }
    } else {
      var s, rest := order[0], order[1..];
      var w1 := Refresh(w, w.store[s]).world;
      NoDupTail(order);
      assert order == [s] + rest;
      RefreshOne(w, s, docker0);
      SeenName(docker0, w.store[s]);
      LooksElsewhere(w.store, w1.store, rest);
      RefreshAllParts(w1, rest, docker0);
      ReaccountedAppend(docker0, w.ledger, LooksAt(w.store[s].replicas, w.store[s].spec.cpu, w.store[s].spec.mem),
                        Looks(w.store, rest));
    }
  }

  lemma EmptyLooks(docker: Docker, ledger: Ledger)
    ensures Reaccounted(docker, ledger, []) == ledger
  {}

  lemma SeenName(docker: Docker, svc: Service)
    ensures SeenService(docker, svc).spec == svc.spec
  {}

  lemma {:induction false} LooksElsewhere(store: Store, store': Store, order: seq<string>)
    requires forall s :: s in order ==> s in store && s in store' && store[s] == store'[s]
    ensures Looks(store, order) == Looks(store', order)
  {
    if order != [] {
      assert order[0] in order && forall s :: s in order[1..] ==> s in order;
      LooksElsewhere(store, store', order[1..]);
    }
  }

  // ---- What one node ends up with ----

  datatype Change = Gain(n: nat) | Loss(n: nat)

  /** The used amount after the changes, with `deallocate`'s clamp. */
  function Level(u: nat, cs: seq<Change>): nat
    decreases |cs|
  {
    if cs == [] then u
    else Level(if cs[0].Gain? then u + cs[0].n else Max(0, u - cs[0].n), cs[1..])
  }

  function Gains(cs: seq<Change>): nat {
    if cs == [] then 0 else (if cs[0].Gain? then cs[0].n else 0) + Gains(cs[1..])
  }

  /** Nothing is taken off once something was put on. */
  ghost predicate LossesFirst(cs: seq<Change>) {
    forall i, j :: 0 <= i < j < |cs| && cs[i].Gain? && cs[j].Loss? ==> cs[i].n == 0 || cs[j].n == 0
  }

  ghost predicate NoLoss(cs: seq<Change>) {
    forall j :: 0 <= j < |cs| && cs[j].Loss? ==> cs[j].n == 0
  }

  lemma {:induction false} LevelOn(u: nat, cs: seq<Change>)
    requires u > 0
    ensures Level(u, cs) <= u + Gains(cs)
    ensures Level(u, cs) == u + Gains(cs) <==> NoLoss(cs)
    decreases |cs|
  {
    if cs != [] {
      var u1 := if cs[0].Gain? then u + cs[0].n else Max(0, u - cs[0].n);
      assert NoLoss(cs) <==> (cs[0].Loss? ==> cs[0].n == 0) && NoLoss(cs[1..]) by { NoLossTail(cs); }
      if u1 > 0 {
        LevelOn(u1, cs[1..]);
      } else {
        LevelIff(cs[1..]);
      }
    }
  }

  lemma NoLossTail(cs: seq<Change>)
    requires cs != []
    ensures NoLoss(cs) <==> (cs[0].Loss? ==> cs[0].n == 0) && NoLoss(cs[1..])
  {
    assert forall j :: 1 <= j < |cs| ==> cs[j] == cs[1..][j - 1];
    if NoLoss(cs) {
      assert forall j :: 0 <= j < |cs[1..]| ==> cs[1..][j] == cs[j + 1];
    }
  }

  lemma LossesFirstTail(cs: seq<Change>)
    requires cs != []
    ensures LossesFirst(cs) <==> LossesFirst(cs[1..]) && (cs[0].Gain? && cs[0].n > 0 ==> NoLoss(cs[1..]))
  {
    assert forall j :: 1 <= j < |cs| ==> cs[j] == cs[1..][j - 1];
    if LossesFirst(cs) {
      assert forall j :: 0 <= j < |cs[1..]| ==> cs[1..][j] == cs[j + 1];
    }
  }

  lemma NoLossIsFirst(cs: seq<Change>)
    requires NoLoss(cs)
    ensures LossesFirst(cs)
  {}

  /** From nothing, the level is what was put on exactly when the losses came first. */
  lemma {:induction false} LevelIff(cs: seq<Change>)
    ensures Level(0, cs) <= Gains(cs)
    ensures Level(0, cs) == Gains(cs) <==> LossesFirst(cs)
    decreases |cs|
  {
    if cs != [] {
      LossesFirstTail(cs);
      if cs[0].Gain? && cs[0].n > 0 {
        LevelOn(cs[0].n, cs[1..]);
        if NoLoss(cs[1..]) {
          NoLossIsFirst(cs[1..]);
        }
      } else {
        LevelIff(cs[1..]);
      }
    }
  }

  datatype Resource = Cpu | Mem

  function Asked(l: Look, what: Resource): int {
    if what.Cpu? then l.cpu else l.mem
  }

  function Used(n: Node, what: Resource): int {
    if what.Cpu? then n.cpuUsed else n.memUsed
  }

  function Capacity(n: Node, what: Resource): int {
    if what.Cpu? then n.cpuCapacity else n.memCapacity
  }

  ghost predicate Asking(looks: seq<Look>) {
    forall l :: l in looks ==> l.cpu >= 0 && l.mem >= 0
  }

  /** What the looks do to one node, one resource. */
  function Changes(docker: Docker, looks: seq<Look>, node: string, what: Resource): seq<Change>
    requires Asking(looks)
  {
    if looks == [] then []
    else
      var l := looks[0];
      assert l in looks;
      (if l.replica.node != node then []
       else if Lives(docker, l.replica) then [Gain(Asked(l, what))]
       else if Dead(docker, l.replica) then [Loss(Asked(l, what))]
       else [])
      + Changes(docker, looks[1..], node, what)
  }

  /** The ids of the live replicas recorded for a node, in visiting order. */
  function LiveIds(docker: Docker, looks: seq<Look>, node: string): seq<string> {
    if looks == [] then []
    else
      (if looks[0].replica.node == node && Lives(docker, looks[0].replica) then [looks[0].replica.id] else [])
      + LiveIds(docker, looks[1..], node)
  }

  ghost predicate DistinctLooks(looks: seq<Look>) {
    forall i, j :: 0 <= i < j < |looks| ==> looks[i].replica.id != looks[j].replica.id
  }

  ghost predicate Unlisted(n: Node, looks: seq<Look>) {
    forall l :: l in looks ==> l.replica.id !in n.replicaIds
  }

  function NodeAfter(docker: Docker, n: Node, looks: seq<Look>): Node
    requires Asking(looks) && n.cpuUsed >= 0 && n.memUsed >= 0
  {
    n.(cpuUsed := Level(n.cpuUsed, Changes(docker, looks, n.id, Cpu)),
       memUsed := Level(n.memUsed, Changes(docker, looks, n.id, Mem)),
       replicaIds := n.replicaIds + LiveIds(docker, looks, n.id))
  }

  lemma LookedAtNode(docker: Docker, ledger: Ledger, l: Look, j: nat)
    requires UniqueNodes(ledger) && j < |ledger|
    ensures var ledger' := LookedAt(docker, ledger, l);
            && |ledger'| == |ledger| && UniqueNodes(ledger')
            && ledger'[j] == NodeLooked(docker, ledger[j], l)
  {
    IndexIsUnique(ledger, j);
  }

  function NodeLooked(docker: Docker, n: Node, l: Look): Node {
    if l.replica.node != n.id then n
    else if Lives(docker, l.replica) then Charge(n, l.replica.id, l.cpu, l.mem)
    else if Dead(docker, l.replica) then Refund(n, l.replica.id, l.cpu, l.mem)
    else n
  }

  lemma LevelCons(u: nat, c: Change, cs: seq<Change>)
    ensures Level(u, [c] + cs) == Level(if c.Gain? then u + c.n else Max(0, u - c.n), cs)
    ensures [] + cs == cs
  {
    assert ([c] + cs)[1..] == cs;
  }

  lemma StillUnlisted(docker: Docker, n: Node, looks: seq<Look>)
    requires Asking(looks) && DistinctLooks(looks) && looks != [] && Unlisted(n, looks)
    requires n.cpuUsed >= 0 && n.memUsed >= 0
    ensures var n', rest := NodeLooked(docker, n, looks[0]), looks[1..];
            && looks[0] in looks && Asking(rest) && DistinctLooks(rest) && Unlisted(n', rest)
            && n'.cpuUsed >= 0 && n'.memUsed >= 0 && n'.id == n.id
  {
    var l, rest := looks[0], looks[1..];
    forall x | x in rest ensures x in looks && x.replica.id != l.replica.id {
      var k :| 0 <= k < |rest| && rest[k] == x;
      assert looks[k + 1] == x;
    }
  }

  lemma LevelStep(docker: Docker, n: Node, looks: seq<Look>, what: Resource)
    requires Asking(looks) && looks != [] && Asking(looks[1..]) && looks[0] in looks
    requires n.cpuUsed >= 0 && n.memUsed >= 0 && looks[0].replica.id !in n.replicaIds
    ensures Used(NodeLooked(docker, n, looks[0]), what) >= 0
    ensures Level(Used(n, what), Changes(docker, looks, n.id, what))
         == Level(Used(NodeLooked(docker, n, looks[0]), what), Changes(docker, looks[1..], n.id, what))
  {
    var l := looks[0];
    assert l.cpu >= 0 && l.mem >= 0;
    hide Level, Asking, IsRunning, RemoveFirst;
    LevelCons(Used(n, what), if Lives(docker, l.replica) then Gain(Asked(l, what)) else Loss(Asked(l, what)),
              Changes(docker, looks[1..], n.id, what));
  }

  lemma IdsStep(docker: Docker, n: Node, looks: seq<Look>)
    requires looks != [] && looks[0].replica.id !in n.replicaIds
    ensures var n' := NodeLooked(docker, n, looks[0]);
            && n'.replicaIds + LiveIds(docker, looks[1..], n.id) == n.replicaIds + LiveIds(docker, looks, n.id)
            && n' == n.(cpuUsed := n'.cpuUsed, memUsed := n'.memUsed, replicaIds := n'.replicaIds)
  {
    hide IsRunning;
  }

  lemma NodeAfterStep(docker: Docker, n: Node, looks: seq<Look>)
    requires Asking(looks) && DistinctLooks(looks) && looks != [] && Unlisted(n, looks)
    requires n.cpuUsed >= 0 && n.memUsed >= 0
    ensures var n', rest := NodeLooked(docker, n, looks[0]), looks[1..];
            && Asking(rest) && DistinctLooks(rest) && Unlisted(n', rest) && n'.cpuUsed >= 0 && n'.memUsed >= 0
            && n'.id == n.id
            && NodeAfter(docker, n', rest) == NodeAfter(docker, n, looks)
  {
    StillUnlisted(docker, n, looks);
    assert looks[0].replica.id !in n.replicaIds;
    hide DistinctLooks, Level, Changes, LiveIds, NodeLooked, Asking, Unlisted;
    LevelStep(docker, n, looks, Cpu);
    LevelStep(docker, n, looks, Mem);
    IdsStep(docker, n, looks);
  }

  /** Each node ends with the live replicas recorded for it, and with the level that the changes leave. */
  lemma {:induction false} ReaccountedNode(docker: Docker, ledger: Ledger, looks: seq<Look>, j: nat)
    requires UniqueNodes(ledger) && j < |ledger| && Asking(looks) && DistinctLooks(looks) && Unlisted(ledger[j], looks)
    requires ledger[j].cpuUsed >= 0 && ledger[j].memUsed >= 0
    ensures |Reaccounted(docker, ledger, looks)| == |ledger|
    ensures Reaccounted(docker, ledger, looks)[j] == NodeAfter(docker, ledger[j], looks)
    decreases |looks|
  {
    hide LookedAt, UniqueNodes, Unlisted, DistinctLooks, Asking, Changes, LiveIds, NodeLooked;
    if looks == [] {
      NothingLooked(docker, ledger[j]);
    } else {
      LookedAtNode(docker, ledger, looks[0], j);
      NodeAfterStep(docker, ledger[j], looks);
      ReaccountedNode(docker, LookedAt(docker, ledger, looks[0]), looks[1..], j);
    }
  }

  lemma NothingLooked(docker: Docker, n: Node)
    requires n.cpuUsed >= 0 && n.memUsed >= 0
    ensures Asking([]) && NodeAfter(docker, n, []) == n
  {
    assert n.replicaIds + [] == n.replicaIds;
  }

  // ---- The changes, read off the looks ----

  /** What the live replicas recorded for a node ask for, together. */
  function LiveRequests(docker: Docker, looks: seq<Look>, node: string, what: Resource): int {
    if looks == [] then 0
    else
      (if looks[0].replica.node == node && Lives(docker, looks[0].replica) then Asked(looks[0], what) else 0)
      + LiveRequests(docker, looks[1..], node, what)
  }

  /** No dead replica of the node is found after a live one, as far as both ask for something. */
  ghost predicate DeadFirst(docker: Docker, looks: seq<Look>, node: string, what: Resource) {
    forall i, j :: 0 <= i < j < |looks| && looks[i].replica.node == node && looks[j].replica.node == node
                   && Lives(docker, looks[i].replica) && Dead(docker, looks[j].replica) ==>
      Asked(looks[i], what) == 0 || Asked(looks[j], what) == 0
  }

  ghost predicate NoDead(docker: Docker, looks: seq<Look>, node: string, what: Resource) {
    forall j :: 0 <= j < |looks| && looks[j].replica.node == node && Dead(docker, looks[j].replica) ==>
      Asked(looks[j], what) == 0
  }

  lemma AskingTail(looks: seq<Look>)
    requires Asking(looks) && looks != []
    ensures Asking(looks[1..]) && looks[0] in looks
  {}

  lemma {:induction false} GainsAreRequests(docker: Docker, looks: seq<Look>, node: string, what: Resource)
    requires Asking(looks)
    ensures Gains(Changes(docker, looks, node, what)) == LiveRequests(docker, looks, node, what)
  {
    if looks != [] {
      AskingTail(looks);
      GainsAreRequests(docker, looks[1..], node, what);
      var cs := Changes(docker, looks, node, what);
      if cs != Changes(docker, looks[1..], node, what) {
        assert cs[1..] == Changes(docker, looks[1..], node, what);
      }
    }
  }

  lemma {:induction false} NoLossIff(docker: Docker, looks: seq<Look>, node: string, what: Resource)
    requires Asking(looks)
    ensures NoLoss(Changes(docker, looks, node, what)) <==> NoDead(docker, looks, node, what)
  {
    if looks != [] {
      AskingTail(looks);
      NoLossIff(docker, looks[1..], node, what);
      NoDeadTail(docker, looks, node, what);
      hide NoDead, NoLoss;
      var cs, rest := Changes(docker, looks, node, what), Changes(docker, looks[1..], node, what);
      if looks[0].replica.node == node && looks[0].replica.status == Running {
        assert cs[1..] == rest;
        NoLossTail(cs);
      } else {
        assert cs == rest;
      }
    }
  }

  lemma NoDeadTail(docker: Docker, looks: seq<Look>, node: string, what: Resource)
    requires looks != []
    ensures NoDead(docker, looks, node, what)
       <==> NoDead(docker, looks[1..], node, what)
            && (looks[0].replica.node == node && Dead(docker, looks[0].replica) ==> Asked(looks[0], what) == 0)
  {
    hide Dead;
    assert forall j :: 1 <= j < |looks| ==> looks[j] == looks[1..][j - 1];
    if NoDead(docker, looks, node, what) {
      assert forall j :: 0 <= j < |looks[1..]| ==> looks[1..][j] == looks[j + 1];
    }
  }

  lemma DeadFirstTail(docker: Docker, looks: seq<Look>, node: string, what: Resource)
    requires looks != []
    ensures DeadFirst(docker, looks, node, what)
       <==> DeadFirst(docker, looks[1..], node, what)
            && (looks[0].replica.node == node && Lives(docker, looks[0].replica) && Asked(looks[0], what) != 0 ==>
                  NoDead(docker, looks[1..], node, what))
  {
    hide Dead, Lives, Asked;
    assert forall j :: 1 <= j < |looks| ==> looks[j] == looks[1..][j - 1];
    if DeadFirst(docker, looks, node, what) {
      assert forall j :: 0 <= j < |looks[1..]| ==> looks[1..][j] == looks[j + 1];
    }
  }

  lemma {:induction false} LossesFirstIff(docker: Docker, looks: seq<Look>, node: string, what: Resource)
    requires Asking(looks)
    ensures LossesFirst(Changes(docker, looks, node, what)) <==> DeadFirst(docker, looks, node, what)
  {
    if looks != [] {
      AskingTail(looks);
      LossesFirstIff(docker, looks[1..], node, what);
      NoLossIff(docker, looks[1..], node, what);
      DeadFirstTail(docker, looks, node, what);
      hide NoDead, NoLoss, DeadFirst, LossesFirst;
      var cs, rest := Changes(docker, looks, node, what), Changes(docker, looks[1..], node, what);
      if looks[0].replica.node == node && looks[0].replica.status == Running {
        assert cs[1..] == rest;
        LossesFirstTail(cs);
      } else {
        assert cs == rest;
      }
    }
  }

  // ---- The looks of a whole store ----

  /** Nodes as `initialize` builds them. */
  ghost predicate Unused(ledger: Ledger) {
    UniqueNodes(ledger) && forall n :: n in ledger ==> n.cpuUsed == 0 && n.memUsed == 0 && n.replicaIds == []
  }

  /** After a restart every node holds the live replicas recorded for it, in visiting order. It is charged at most what they
      ask for, and exactly that unless a dead replica was found after a live one. */
  lemma RestartCharges(docker: Docker, ledger: Ledger, looks: seq<Look>, j: nat, what: Resource)
    requires Unused(ledger) && j < |ledger| && Asking(looks) && DistinctLooks(looks)
    ensures |Reaccounted(docker, ledger, looks)| == |ledger|
    ensures var n, n' := ledger[j], Reaccounted(docker, ledger, looks)[j];
            && n' == n.(cpuUsed := n'.cpuUsed, memUsed := n'.memUsed, replicaIds := LiveIds(docker, looks, n.id))
            && 0 <= Used(n', what) <= LiveRequests(docker, looks, n.id, what)
            && (Used(n', what) == LiveRequests(docker, looks, n.id, what) <==> DeadFirst(docker, looks, n.id, what))
  {
    hide Reaccounted, Changes, LiveIds, LiveRequests, DeadFirst, LossesFirst;
    var n := ledger[j];
    assert n in ledger;
    ReaccountedNode(docker, ledger, looks, j);
    assert n.replicaIds + LiveIds(docker, looks, n.id) == LiveIds(docker, looks, n.id);
    LevelIff(Changes(docker, looks, n.id, what));
    GainsAreRequests(docker, looks, n.id, what);
    LossesFirstIff(docker, looks, n.id, what);
  }

  lemma {:induction false} LooksAtEach(rs: seq<Replica>, cpu: int, mem: int)
    ensures |LooksAt(rs, cpu, mem)| == |rs|
    ensures forall k :: 0 <= k < |rs| ==> LooksAt(rs, cpu, mem)[k] == Look(rs[k], cpu, mem)
  {
    if rs != [] {
      LooksAtEach(rs[1..], cpu, mem);
    }
  }

  ghost predicate LookFrom(store: Store, order: seq<string>, l: Look) {
    exists s :: s in order && s in store && l.replica in store[s].replicas
                && l.cpu == store[s].spec.cpu && l.mem == store[s].spec.mem
  }

  lemma {:induction false} LooksMembers(store: Store, order: seq<string>)
    requires forall s :: s in order ==> s in store
    ensures forall l :: l in Looks(store, order) <==> LookFrom(store, order, l)
  {
    if order != [] {
      var s, rest := order[0], order[1..];
      assert s in order && forall t :: t in order <==> t == s || t in rest;
      LooksMembers(store, rest);
      var svc := store[s];
      LooksAtEach(svc.replicas, svc.spec.cpu, svc.spec.mem);
      var here := LooksAt(svc.replicas, svc.spec.cpu, svc.spec.mem);
      forall l ensures l in here <==> l.replica in svc.replicas && l.cpu == svc.spec.cpu && l.mem == svc.spec.mem {
        if l.replica in svc.replicas && l.cpu == svc.spec.cpu && l.mem == svc.spec.mem {
          var k :| 0 <= k < |svc.replicas| && svc.replicas[k] == l.replica;
          assert here[k] == l;
        }
      }
      forall l ensures LookFrom(store, order, l)
                  <==> LookFrom(store, rest, l)
                       || (l.replica in svc.replicas && l.cpu == svc.spec.cpu && l.mem == svc.spec.mem) {
      }
    }
  }

  lemma {:induction false} LooksAreDistinct(store: Store, order: seq<string>)
    requires Distinct(store) && NoDup(order) && forall s :: s in order ==> s in store
    ensures DistinctLooks(Looks(store, order))
  {
    if order != [] {
      var s, rest := order[0], order[1..];
      assert s in order && forall t :: t in rest ==> t in order;
      NoDupTail(order);
      LooksAreDistinct(store, rest);
      LooksMembers(store, rest);
      var svc := store[s];
      DistinctInService(store, s);
      LooksAtEach(svc.replicas, svc.spec.cpu, svc.spec.mem);
      var here, there := LooksAt(svc.replicas, svc.spec.cpu, svc.spec.mem), Looks(store, rest);
      forall i, j | 0 <= i < |here| && 0 <= j < |there| ensures here[i].replica.id != there[j].replica.id {
        assert there[j] in there && LookFrom(store, rest, there[j]);
        var t :| t in rest && t in store && there[j].replica in store[t].replicas;
        var k :| 0 <= k < |store[t].replicas| && store[t].replicas[k] == there[j].replica;
        assert Holds(store, t, k, there[j].replica.id) && Holds(store, s, i, here[i].replica.id);
      }
    }
  }

  lemma LooksAsk(store: Store, order: seq<string>)
    requires WellFormed(store) && forall s :: s in order ==> s in store
    ensures Asking(Looks(store, order))
  {
    LooksMembers(store, order);
  }

  // ---- Claims after a restart ----

  lemma {:induction false} SeenMember(docker: Docker, rs: seq<Replica>, r: Replica)
    requires r in rs && !Dead(docker, r)
    ensures SeenAs(docker, r) in Observed(docker, rs)
  {
    hide Dead, Observe;
    assert rs == [rs[0]] + rs[1..];
    if r != rs[0] {
      SeenMember(docker, rs[1..], r);
    }
  }

  lemma {:induction false} SeenSource(docker: Docker, rs: seq<Replica>, x: Replica)
    requires x in Observed(docker, rs)
    ensures exists r :: r in rs && !Dead(docker, r) && x == SeenAs(docker, r)
  {
    hide Dead, Observe;
    assert rs == [rs[0]] + rs[1..];
    if !Dead(docker, rs[0]) && x == SeenAs(docker, rs[0]) {
      assert rs[0] in rs;
    } else {
      SeenSource(docker, rs[1..], x);
      var r :| r in rs[1..] && !Dead(docker, r) && x == SeenAs(docker, r);
      assert r in rs;
    }
  }

  /** Every record has been refreshed. */
  ghost predicate SeenStore(docker: Docker, store: Store, store': Store) {
    store'.Keys == store.Keys && forall s :: s in store ==> store'[s] == SeenService(docker, store[s])
  }

  lemma SeenHeld(docker: Docker, store: Store, store': Store, s: string, i: int, id: string)
    requires SeenStore(docker, store, store') && Holds(store', s, i, id)
    ensures exists k :: Holds(store, s, k, id) && !Dead(docker, store[s].replicas[k])
                        && store'[s].replicas[i] == SeenAs(docker, store[s].replicas[k])
  {
    var rs := store[s].replicas;
    SeenSource(docker, rs, store'[s].replicas[i]);
    var r :| r in rs && !Dead(docker, r) && store'[s].replicas[i] == SeenAs(docker, r);
    var k :| 0 <= k < |rs| && rs[k] == r;
    assert Holds(store, s, k, id);
  }

  lemma SeenStaysHeld(docker: Docker, store: Store, store': Store, s: string, r: Replica)
    requires SeenStore(docker, store, store') && s in store && r in store[s].replicas && !Dead(docker, r)
    ensures exists i :: Holds(store', s, i, r.id) && store'[s].replicas[i] == SeenAs(docker, r)
  {
    SeenMember(docker, store[s].replicas, r);
    var rs' := store'[s].replicas;
    var i :| 0 <= i < |rs'| && rs'[i] == SeenAs(docker, r);
    assert Holds(store', s, i, r.id);
  }

  lemma SeenDistinct(docker: Docker, store: Store, store': Store)
    requires WellFormed(store) && Distinct(store) && SeenStore(docker, store, store')
    ensures WellFormed(store') && Distinct(store')
  {
    forall s, i, t, j, id | Holds(store', s, i, id) && Holds(store', t, j, id) ensures s == t && i == j {
      SeenHeld(docker, store, store', s, i, id);
      SeenHeld(docker, store, store', t, j, id);
      DistinctInService(store, s);
      SeenIds(docker, store[s].replicas);
    }
  }

  /** The claims of the live replicas among the looks. */
  function ClaimsOf(docker: Docker, looks: seq<Look>): Claims {
    if looks == [] then map[]
    else
      var rest, l := ClaimsOf(docker, looks[1..]), looks[0];
      if Lives(docker, l.replica) then rest[l.replica.id := Claim(l.replica.node, l.cpu, l.mem)] else rest
  }

  lemma {:induction false} ClaimsOfMeaning(docker: Docker, looks: seq<Look>)
    requires DistinctLooks(looks)
    ensures forall l :: l in looks && Lives(docker, l.replica) ==>
              l.replica.id in ClaimsOf(docker, looks)
              && ClaimsOf(docker, looks)[l.replica.id] == Claim(l.replica.node, l.cpu, l.mem)
    ensures forall id :: id in ClaimsOf(docker, looks) ==>
              exists l :: l in looks && Lives(docker, l.replica) && l.replica.id == id
  {
    hide Lives;
    if looks != [] {
      var first, rest := looks[0], looks[1..];
      assert looks == [first] + rest;
      forall l ensures l in looks <==> l == first || l in rest {
      }
      OthersDiffer(looks);
      ClaimsOfMeaning(docker, rest);
    }
  }

  lemma {:induction false} OthersDiffer(looks: seq<Look>)
    requires DistinctLooks(looks) && looks != []
    ensures DistinctLooks(looks[1..]) && forall l :: l in looks[1..] ==> l.replica.id != looks[0].replica.id
  {
    forall l | l in looks[1..] ensures l.replica.id != looks[0].replica.id {
      var k :| 0 <= k < |looks[1..]| && looks[1..][k] == l;
      assert looks[k + 1] == l;
    }
  }

  /** These are the refreshed store's claims if nothing but running replicas is recorded. */
  lemma ClaimsAfterRestart(docker: Docker, store: Store, store': Store, order: seq<string>)
    requires WellFormed(store) && Distinct(store) && SeenStore(docker, store, store') && AllRunning(store)
    requires NoDup(order) && forall s :: s in order <==> s in store
    ensures ClaimsFor(store', ClaimsOf(docker, Looks(store, order)))
  {
    hide Observe, IsRunning;
    var looks := Looks(store, order);
    var claims := ClaimsOf(docker, looks);
    LooksMembers(store, order);
    LooksAreDistinct(store, order);
    ClaimsOfMeaning(docker, looks);
    forall s, i, id | Holds(store', s, i, id)
      ensures id in claims
      ensures claims[id] == Claim(store'[s].replicas[i].node, store'[s].spec.cpu, store'[s].spec.mem) {
      SeenHeld(docker, store, store', s, i, id);
      var k :| Holds(store, s, k, id) && !Dead(docker, store[s].replicas[k])
               && store'[s].replicas[i] == SeenAs(docker, store[s].replicas[k]);
      var r := store[s].replicas[k];
      ObserveId(docker, r);
      assert r in store[s].replicas && LookFrom(store, order, Look(r, store[s].spec.cpu, store[s].spec.mem));
    }
    forall id | id in claims ensures exists s, i :: Holds(store', s, i, id) {
      var l: Look :| l in looks && Lives(docker, l.replica) && l.replica.id == id;
      assert LookFrom(store, order, l);
      var s :| s in store && l.replica in store[s].replicas;
      SeenStaysHeld(docker, store, store', s, l.replica);
    }
  }

  // ---- Sums over the live replicas ----

  ghost predicate LiveOn(docker: Docker, looks: seq<Look>, node: string, id: string) {
    exists l :: l in looks && Lives(docker, l.replica) && l.replica.node == node && l.replica.id == id
  }

  lemma {:induction false} LiveIdsMembers(docker: Docker, looks: seq<Look>, node: string)
    requires DistinctLooks(looks)
    ensures NoDup(LiveIds(docker, looks, node))
    ensures forall id :: id in LiveIds(docker, looks, node) <==> LiveOn(docker, looks, node, id)
  {
    hide Lives;
    if looks != [] {
      var first, rest := looks[0], looks[1..];
      assert looks == [first] + rest;
      OthersDiffer(looks);
      LiveIdsMembers(docker, rest, node);
      forall id ensures LiveOn(docker, looks, node, id)
                   <==> LiveOn(docker, rest, node, id)
                        || (Lives(docker, first.replica) && first.replica.node == node && first.replica.id == id) {
        if Lives(docker, first.replica) && first.replica.node == node && first.replica.id == id {
          assert first in looks;
        }
      }
      assert first.replica.id !in LiveIds(docker, rest, node);
      NoDupCons(first.replica.id, LiveIds(docker, rest, node));
      assert forall id :: id in [first.replica.id] + LiveIds(docker, rest, node)
                     <==> id == first.replica.id || id in LiveIds(docker, rest, node);
    }
  }

  lemma {:induction false} LiveSums(docker: Docker, looks: seq<Look>, node: string, claims: Claims)
    requires forall l :: l in looks && Lives(docker, l.replica) ==>
               l.replica.id in claims && claims[l.replica.id] == Claim(l.replica.node, l.cpu, l.mem)
    ensures forall id :: id in LiveIds(docker, looks, node) ==> id in claims
    ensures SumCpu(LiveIds(docker, looks, node), claims) == LiveRequests(docker, looks, node, Cpu)
    ensures SumMem(LiveIds(docker, looks, node), claims) == LiveRequests(docker, looks, node, Mem)
  {
    hide Lives;
    if looks != [] {
      assert looks == [looks[0]] + looks[1..] && looks[0] in looks;
      LiveSums(docker, looks[1..], node, claims);
      var rest, ids := LiveIds(docker, looks[1..], node), LiveIds(docker, looks, node);
      if ids != rest {
        assert ids[1..] == rest;
      }
    }
  }

  // ---- When the ledger is right after a restart ----

  /** What could be checked before the restart: on every node the live replicas fit together, and no refund follows a
      charge. */
  ghost predicate Restartable(docker: Docker, ledger: Ledger, looks: seq<Look>) {
    forall j, what :: 0 <= j < |ledger| ==>
      && LiveRequests(docker, looks, ledger[j].id, what) <= Capacity(ledger[j], what)
      && DeadFirst(docker, looks, ledger[j].id, what)
  }

  ghost predicate LiveAreKnown(docker: Docker, ledger: Ledger, looks: seq<Look>) {
    forall l :: l in looks && Lives(docker, l.replica) ==> Known(ledger, l.replica.node)
  }

  /** For the claims of the live replicas, the ledger is right exactly under that condition. */
  lemma RestartLedgerIff(docker: Docker, ledger: Ledger, looks: seq<Look>, claims: Claims)
    requires Unused(ledger) && Asking(looks) && DistinctLooks(looks) && LiveAreKnown(docker, ledger, looks)
    requires forall l :: l in looks && Lives(docker, l.replica) ==>
               l.replica.id in claims && claims[l.replica.id] == Claim(l.replica.node, l.cpu, l.mem)
    requires forall id :: id in claims ==> exists l :: l in looks && Lives(docker, l.replica) && l.replica.id == id
    ensures LedgerMatches(Reaccounted(docker, ledger, looks), claims) <==> Restartable(docker, ledger, looks)
  {
    hide Reaccounted, Lives, LiveIds, LiveRequests, DeadFirst, DistinctLooks, NodeMatches;
    var ledger' := Reaccounted(docker, ledger, looks);
    SameAfterRestart(docker, ledger, looks);
    forall j | 0 <= j < |ledger|
      ensures NodeMatches(ledger'[j], claims) <==> forall what: Resource ::
        LiveRequests(docker, looks, ledger[j].id, what) <= Capacity(ledger[j], what)
        && DeadFirst(docker, looks, ledger[j].id, what) {
      RestartNodeIff(docker, ledger, looks, claims, j);
    }
    SameIds(ledger, ledger');
    assert LedgerMatches(ledger', claims) <==> forall j :: 0 <= j < |ledger'| ==> NodeMatches(ledger'[j], claims);
  }

  lemma SameAfterRestart(docker: Docker, ledger: Ledger, looks: seq<Look>)
    requires Unused(ledger) && Asking(looks) && DistinctLooks(looks)
    ensures var ledger' := Reaccounted(docker, ledger, looks);
            |ledger'| == |ledger| && forall j :: 0 <= j < |ledger| ==> ledger'[j].id == ledger[j].id
  {
    hide Reaccounted, Unused, Asking, DistinctLooks;
    if ledger != [] {
      RestartCharges(docker, ledger, looks, 0, Cpu);
    } else {
      NoNodes(docker, looks);
    }
    forall j | 0 <= j < |ledger| ensures Reaccounted(docker, ledger, looks)[j].id == ledger[j].id {
      RestartCharges(docker, ledger, looks, j, Cpu);
    }
  }

  lemma {:induction false} NoNodes(docker: Docker, looks: seq<Look>)
    ensures Reaccounted(docker, [], looks) == []
    decreases |looks|
  {
    if looks != [] {
      NoNodes(docker, looks[1..]);
    }
  }

  lemma RestartNodeIff(docker: Docker, ledger: Ledger, looks: seq<Look>, claims: Claims, j: nat)
    requires Unused(ledger) && Asking(looks) && DistinctLooks(looks) && j < |ledger|
    requires |Reaccounted(docker, ledger, looks)| == |ledger|
    requires forall l :: l in looks && Lives(docker, l.replica) ==>
               l.replica.id in claims && claims[l.replica.id] == Claim(l.replica.node, l.cpu, l.mem)
    requires forall id :: id in claims ==> exists l :: l in looks && Lives(docker, l.replica) && l.replica.id == id
    ensures NodeMatches(Reaccounted(docker, ledger, looks)[j], claims)
       <==> forall what: Resource ::
              LiveRequests(docker, looks, ledger[j].id, what) <= Capacity(ledger[j], what)
              && DeadFirst(docker, looks, ledger[j].id, what)
  {
    hide Reaccounted, Lives, LiveIds, LiveRequests, DeadFirst, DistinctLooks, Unused, SumCpu, SumMem;
    RestartCharges(docker, ledger, looks, j, Cpu);
    RestartCharges(docker, ledger, looks, j, Mem);
    LiveIdsMembers(docker, looks, ledger[j].id);
    LiveSums(docker, looks, ledger[j].id, claims);
  }

  /** Refreshing every service after a restart leaves an exact ledger if and only if nothing but running replicas is
      recorded, on every node the live ones fit together, and on no node a dead one is found after a live one. */
  lemma RestartIsExactIff(w: World, order: seq<string>)
    requires WellFormed(w.store) && Distinct(w.store) && Unused(w.ledger)
    requires NoDup(order) && forall s :: s in order <==> s in w.store
    requires LiveAreKnown(w.docker, w.ledger, Looks(w.store, order))
    ensures Accounted(RefreshAll(w, order))
       <==> AllRunning(w.store) && Restartable(w.docker, w.ledger, Looks(w.store, order))
  {
    hide RefreshAll, LedgerMatches, Restartable, Unused, Looks, Reaccounted, ClaimsOf, Lives, Asking, DistinctLooks;
    var looks, w' := Looks(w.store, order), RefreshAll(w, order);
    RefreshAllParts(w, order, w.docker);
    assert SeenStore(w.docker, w.store, w'.store);
    SeenDistinct(w.docker, w.store, w'.store);
    LooksAsk(w.store, order);
    LooksAreDistinct(w.store, order);
    if AllRunning(w.store) {
      var claims := ClaimsOf(w.docker, looks);
      ClaimsAfterRestart(w.docker, w.store, w'.store, order);
      ClaimsOfMeaning(w.docker, looks);
      RestartLedgerIff(w.docker, w.ledger, looks, claims);
      AccountedMeans(w', claims);
    } else {
      NotRecharged(w, w', order);
    }
  }

  /** A record that is not running is not charged again. */
  lemma NotRecharged(w: World, w': World, order: seq<string>)
    requires WellFormed(w.store) && Distinct(w.store) && Unused(w.ledger)
    requires NoDup(order) && forall s :: s in order <==> s in w.store
    requires SeenStore(w.docker, w.store, w'.store) && w'.ledger == Reaccounted(w.docker, w.ledger, Looks(w.store, order))
    requires !AllRunning(w.store)
    ensures !Accounted(w')
  {
    hide Reaccounted, Looks, LiveIds, Unused, Asking, DistinctLooks, Observe;
    var looks := Looks(w.store, order);
    var s, r: Replica :| s in w.store && r in w.store[s].replicas && r.status != Running;
    LooksAsk(w.store, order);
    LooksAreDistinct(w.store, order);
    LooksMembers(w.store, order);
    SeenStaysHeld(w.docker, w.store, w'.store, s, r);
    var i :| Holds(w'.store, s, i, r.id) && w'.store[s].replicas[i] == r;
    assert LookFrom(w.store, order, Look(r, w.store[s].spec.cpu, w.store[s].spec.mem));
    if Accounted(w') {
      var claims: Claims :| Consistent(w', claims);
      var j := IndexOf(w'.ledger, r.node);
      assert Known(w'.ledger, claims[r.id].node) && NodeMatches(w'.ledger[j], claims);
      SameAfterRestart(w.docker, w.ledger, looks);
      RestartCharges(w.docker, w.ledger, looks, j, Cpu);
      LiveIdsMembers(w.docker, looks, w.ledger[j].id);
      var l: Look :| l in looks && Lives(w.docker, l.replica) && l.replica.id == r.id;
      SameLook(looks, l, Look(r, w.store[s].spec.cpu, w.store[s].spec.mem));
    }
  }

  lemma SameLook(looks: seq<Look>, a: Look, b: Look)
    requires DistinctLooks(looks) && a in looks && b in looks && a.replica.id == b.replica.id
    ensures a == b
  {}

  // ---- The first turn ----

  /** A pass finds nothing to remove, nothing to start and the status right. */
  ghost predicate Settled(docker: Docker, svc: Service) {
    var running := RunningOf(Observed(docker, svc.replicas));
    && StaleOf(running, svc.spec.image) == [] && |running| == svc.spec.replicas
    && svc.status == if running != [] then Running else Degraded
  }

  lemma SettledVisit(w: World, s: string, docker0: Docker, policy: Policy, supply: nat -> Launch)
    requires s in w.store && w.store[s].spec.name == s && SameLiveContainers(w.docker, docker0)
    requires Settled(docker0, w.store[s])
    ensures VisitService(w, w.store[s], policy, supply) == Refresh(w, w.store[s]).world
  {
    hide Observed, SameLiveContainers, EndpointsOf, Merge, RefreshLoop;
    var svc := w.store[s];
    LoopObserves(w.docker, docker0, w.ledger, svc.spec, svc.replicas);
    assert Refresh(w, svc).service == SeenService(docker0, svc);
    assert Refresh(w, svc).world.store[s] == SeenService(docker0, svc);
  }

  lemma {:induction false} SameRecords(store: Store, store': Store, order: seq<string>)
    requires forall s :: s in order ==> s in store && s in store' && store[s] == store'[s]
    ensures RecordsOf(store, order) == RecordsOf(store', order)
  {
    if order != [] {
      assert order[0] in order && forall s :: s in order[1..] ==> s in order;
      SameRecords(store, store', order[1..]);
    }
  }

  /** The first turn after a restart, when every service is settled, refreshes them all and does nothing else. */
  lemma {:induction false} FirstTurnRefreshes(
    w: World, order: seq<string>, docker0: Docker, policy: Policy, supplies: seq<nat -> Launch>)
    requires Named(w.store) && NoDup(order) && SameLiveContainers(w.docker, docker0) && |supplies| == |order|
    requires forall s :: s in order ==> s in w.store && Settled(docker0, w.store[s])
    ensures |RecordsOf(w.store, order)| == |supplies|
    ensures Turn(w, RecordsOf(w.store, order), policy, supplies) == RefreshAll(w, order)
    decreases |order|
  {
    hide Refresh, SeenService, SameLiveContainers, Settled, VisitService;
    RecordsAre(w.store, order);
    if order != [] {
      var s, rest := order[0], order[1..];
      var w1 := Refresh(w, w.store[s]).world;
      NoDupTail(order);
      assert order == [s] + rest;
      RefreshOne(w, s, docker0);
      SeenName(docker0, w.store[s]);
      SettledVisit(w, s, docker0, policy, supplies[0]);
      SameRecords(w.store, w1.store, rest);
      assert RecordsOf(w.store, order)[1..] == RecordsOf(w.store, rest);
      FirstTurnRefreshes(w1, rest, docker0, policy, supplies[1..]);
    }
  }
}
