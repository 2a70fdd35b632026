/** Where the guarantees stop: legal runs from a sound platform on which ledger, record or count go wrong. */
module Traps {
  import opened Wrappers
  import opened Nodes
  import opened Scheduler
  import opened Routing
  import opened Worlds
  import opened Reconcile
  import opened Convergence
  import opened Runs
  import opened Outdated
  import opened LateVisits
  import opened Platforms
  import opened Overwrites
  import opened Rollouts

  /** A rollout may remove a replica that a reconcile pass already removed. That second removal keeps the ledger exact
      exactly when it gives back nothing: no request, or a node already at zero. */
  lemma SecondRemovalExactIff(w: World, s: string, r: Replica, claims: Claims)
    requires Consistent(w, claims) && s in w.store && r.id !in claims && Known(w.ledger, r.node)
    ensures var spec := w.store[s].spec;
            var n := w.ledger[IndexOf(w.ledger, r.node)];
            Accounted(RemoveReplica(w, spec, r))
            <==> (spec.cpu == 0 || n.cpuUsed == 0) && (spec.mem == 0 || n.memUsed == 0)
  {
    hide Harmless, LedgerMatches, NonNegativeUse, Distinct, ClaimsFor, RemoveReplica, Recorded, OldCopies;
    var spec := w.store[s].spec;
    ExactIsNonNegative(w.ledger, claims);
    UniqueOf(w.ledger);
    assert [r][1..] == [] && RemoveEach(w, spec, [r]) == RemoveReplica(w, spec, r);
    UnclaimedIsCopy(w.store, s, r, claims);
    RemoveCopiesLedgerIff(w, spec, [r], claims);
    GoneHarmlessIff(w, s, r);
  }

  lemma UnclaimedIsCopy(store: Store, s: string, r: Replica, claims: Claims)
    requires ClaimsFor(store, claims) && r.id !in claims
    ensures OldCopies(store, s, [r]) && !Recorded(store, s, r)
  {
    hide Recorded;
    assert OldCopy(store, s, r);
    ClaimedIsRecorded(store, s, r, claims);
  }

  /** For one replica that nobody records, harmless means that its node has nothing to lose. */
  lemma {:induction false} GoneHarmlessIff(w: World, s: string, r: Replica)
    requires UniqueNodes(w.ledger) && Known(w.ledger, r.node) && s in w.store && !Recorded(w.store, s, r)
    ensures var spec := w.store[s].spec;
            var n := w.ledger[IndexOf(w.ledger, r.node)];
            Harmless(w, s, spec.cpu, spec.mem, [r])
            <==> (spec.cpu == 0 || n.cpuUsed == 0) && (spec.mem == 0 || n.memUsed == 0)
  {
    hide Recorded;
    var i := IndexOf(w.ledger, r.node);
    assert [r][1..] == [] && RecordedOf(w.store, s, [r]) == [];
    assert r in [r] && w.ledger[i].id == r.node;
    forall j | 0 <= j < |w.ledger| && w.ledger[j].id == r.node ensures j == i {
    }
  }

  // ---- A platform to start from ----

  function Unit(id: string): Replica {
    Replica(id, id, "node-00", Running, "10.0.0.1", "v1")
  }

  function Bit(id: string): Endpoint {
    Endpoint(id, "10.0.0.1", 80, false)
  }

  function Web(image: string, count: int, status: Status): Service {
    Service(ServiceSpec("web", image, count, 4, 1, 80), status, [Unit("a")])
  }

  function Api(): Service {
    Service(ServiceSpec("api", "v1", 1, 5, 1, 80), Running, [Unit("c")])
  }

  /** Two services of one replica each, which fill the only node. */
  function Pair(): World {
    World(map["web" := Web("v1", 1, Running), "api" := Api()],
          map["a" := Container(true, ""), "c" := Container(true, "")],
          [Node("node-00", 9, 9, 9, 2, ["a", "c"])], map["web" := [Bit("a")], "api" := [Bit("c")]])
  }

  /** A turn of the reconcile loop has just listed both. */
  function PairListed(): Platform {
    Platform(Pair(), [Web("v1", 1, Running), Api()])
  }

  lemma PairIsSound()
    ensures Sound(Platform(Pair(), []))
  {
    hide RoutesMatch, LedgerMatches, WellFormed, Distinct, ClaimsFor, AllRunning;
    var w, claims := Pair(), map["a" := Claim("node-00", 4, 1), "c" := Claim("node-00", 5, 1)];
    PairClaims(claims);
    PairLedger(claims);
    assert Consistent(w, claims);
    PairRoutes();
  }

  lemma {:induction false} PairClaims(claims: Claims)
    requires claims == map["a" := Claim("node-00", 4, 1), "c" := Claim("node-00", 5, 1)]
    ensures var store := Pair().store;
            WellFormed(store) && Distinct(store) && ClaimsFor(store, claims) && AllRunning(store)
  {
    var store := Pair().store;
    forall s, i, id ensures Holds(store, s, i, id) <==> i == 0 && ((s == "web" && id == "a") || (s == "api" && id == "c")) {
    }
    TwoHeld(store, claims);
  }

  lemma {:induction false} TwoHeld(store: Store, claims: Claims)
    requires store.Keys == {"web", "api"} && store["web"] == Web("v1", 1, Running) && store["api"] == Api()
    requires claims == map["a" := Claim("node-00", 4, 1), "c" := Claim("node-00", 5, 1)]
    requires forall s, i, id ::
               Holds(store, s, i, id) <==> i == 0 && ((s == "web" && id == "a") || (s == "api" && id == "c"))
    ensures WellFormed(store) && Distinct(store) && ClaimsFor(store, claims) && AllRunning(store)
  {
    hide Holds;
    assert Holds(store, "web", 0, "a") && Holds(store, "api", 0, "c");
  }

  lemma {:induction false} PairLedger(claims: Claims)
    requires claims == map["a" := Claim("node-00", 4, 1), "c" := Claim("node-00", 5, 1)]
    ensures LedgerMatches(Pair().ledger, claims)
  {
    PairSums(["a", "c"], claims);
    PairNode(Pair().ledger[0], claims);
  }

  lemma {:induction false} PairSums(ids: seq<string>, claims: Claims)
    requires ids == ["a", "c"]
    requires claims == map["a" := Claim("node-00", 4, 1), "c" := Claim("node-00", 5, 1)]
    ensures SumCpu(ids, claims) == 9 && SumMem(ids, claims) == 2
  {
    assert ids[1..] == ["c"] && ids[0] == "a";
    LastSum(ids[1..], claims);
  }

  lemma {:induction false} LastSum(ids: seq<string>, claims: Claims)
    requires ids == ["c"] && "c" in claims && claims["c"] == Claim("node-00", 5, 1)
    ensures SumCpu(ids, claims) == 5 && SumMem(ids, claims) == 1
  {
    assert ids[1..] == [] && ids[0] == "c";
    assert SumCpu([], claims) == 0 && SumMem([], claims) == 0;
  }

  lemma {:induction false} PairNode(n: Node, claims: Claims)
    requires claims == map["a" := Claim("node-00", 4, 1), "c" := Claim("node-00", 5, 1)]
    requires n == Node("node-00", 9, 9, 9, 2, ["a", "c"])
    requires SumCpu(["a", "c"], claims) == 9 && SumMem(["a", "c"], claims) == 2
    ensures LedgerMatches([n], claims)
  {
    hide SumCpu, SumMem;
    assert NodeMatches(n, claims);
  }

  lemma {:induction false} PairRoutes()
    ensures RoutesMatch(Pair())
  {
    hide EndpointsOf, Bare;
    forall id ensures EndpointsOf([Unit(id)], 80) == [Bit(id)] && Bare([Bit(id)]) == [Bit(id)] {
      OneRoute(id);
    }
  }

  lemma {:induction false} OneRoute(id: string)
    ensures EndpointsOf([Unit(id)], 80) == [Bit(id)] && Bare([Bit(id)]) == [Bit(id)]
  {
    assert [Unit(id)][1..] == [];
  }

  lemma PairIsListed()
    ensures LegalMove(Platform(Pair(), []), List(["web", "api"]))
    ensures Moved(Platform(Pair(), []), List(["web", "api"])) == PairListed()
    ensures Sound(PairListed())
  {
    hide Sound;
    ListsBoth(Pair(), []);
    PairIsSound();
    ListIsSound(Platform(Pair(), []), ["web", "api"]);
  }

  lemma ListsBoth(w: World, listed: seq<Service>)
    requires w.store.Keys == {"web", "api"}
    ensures LegalMove(Platform(w, listed), List(["web", "api"]))
    ensures Moved(Platform(w, listed), List(["web", "api"])) == Platform(w, [w.store["web"], w.store["api"]])
  {
    hide RecordsOf;
    RecordsOfBoth(w.store);
  }

  lemma {:induction false} RecordsOfBoth(store: Store)
    requires store.Keys == {"web", "api"}
    ensures RecordsOf(store, ["web", "api"]) == [store["web"], store["api"]]
  {
    var both, api := ["web", "api"], ["api"];
    assert api[1..] == [];
    assert RecordsOf(store, api) == [store["api"]];
    assert both[1..] == api;
  }

  /** Every launch has an id and a container of its own, none of them taken. */
  ghost predicate NewLaunches(supply: nat -> Launch, taken: set<string>) {
    && (forall i :: supply(i).Launched? ==> supply(i).id !in taken && supply(i).container !in taken)
    && (forall i, j :: 0 <= i < j && supply(i).Launched? && supply(j).Launched? ==>
          supply(i).id != supply(j).id && supply(i).container != supply(j).container)
  }

  /** As long as only the two first replicas are about, new launches make a legal visit. */
  lemma NewIsLegal(p: Platform, policy: Policy, supply: nat -> Launch)
    requires NewLaunches(supply, {"a", "c"}) && p.world.docker.Keys <= {"a", "c"}
    requires forall s, r :: s in p.world.store && r in p.world.store[s].replicas ==> r.id in {"a", "c"}
    requires forall k, r :: 0 <= k < |p.listed| && r in p.listed[k].replicas ==> r.id in {"a", "c"} && r.container == r.id
    ensures LegalMove(p, VisitNext(policy, supply)) && LaunchesOthers(VisitNext(policy, supply), Ids([Unit("a")]))
  {}

  // ---- A deletion during a turn ----

  function DeletionMoves(policy: Policy, supply: nat -> Launch): seq<Move> {
    [List(["web", "api"]), Other(DeleteNow("web")), VisitNext(policy, supply)]
  }

  /** The listing was read before the deletion. */
  function Deleted(): Platform {
    PairListed().(world := DeleteService(Pair(), "web"))
  }

  lemma DeletedShape()
    ensures var w := Deleted().world;
            && w.store == map["api" := Api()] && w.docker == map["c" := Container(true, "")]
            && |w.ledger| == 1 && w.ledger[0].id == "node-00" && w.ledger[0].cpuUsed == 5
    ensures Moved(PairListed(), Other(DeleteNow("web"))) == Deleted() && LegalMove(PairListed(), Other(DeleteNow("web")))
  {
    var w, svc := Pair(), Web("v1", 1, Running);
    assert svc.replicas[1..] == [];
    var l := Deallocated(w.ledger, "node-00", "a", 4, 1);
    assert IndexOf(w.ledger, "node-00") == 0;
    assert l == [Refund(w.ledger[0], "a", 4, 1)];
    assert ReleaseEach(w, svc.spec, svc.replicas) == w.(docker := w.docker - {"a"}, ledger := l);
    assert w.docker - {"a"} == map["c" := Container(true, "")];
    assert w.store - {"web"} == map["api" := Api()];
  }

  lemma {:induction false} OneDead(docker: Docker)
    requires !IsRunning(docker, "a")
    ensures DeadOf(docker, [Unit("a")]) == [Unit("a")] && Observed(docker, [Unit("a")]) == []
  {
    assert [Unit("a")][1..] == [];
  }

  lemma {:induction false} DeletedVisitHarms(policy: Policy, supply: nat -> Launch)
    ensures !HarmlessMove(Deleted(), VisitNext(policy, supply))
    ensures SeesDifference(Deleted().world.docker, Web("v1", 1, Running))
  {
    hide DeleteService, RemoveFirst, VisitService;
    DeletedShape();
    var w, svc := Deleted().world, Web("v1", 1, Running);
    OneDead(w.docker);
    var gone := Leavers(w.docker, svc);
    assert gone[0] == Unit("a") && Unit("a") in gone;
    NoneRecorded(w.store, "web", gone);
    assert CountOn(RecordedOf(w.store, "web", gone), w.ledger[0].id) == 0;
  }

  /** A service deleted after the turn read its record is visited all the same. From a sound platform, by legal moves: it
      is back in the store, and its replica's request has been given back twice. */
  lemma DeletedComesBack(policy: Policy, supply: nat -> Launch)
    requires NewLaunches(supply, {"a", "c"})
    ensures var start, moves := Platform(Pair(), []), DeletionMoves(policy, supply);
            var end := RunMoves(start, moves).world;
            && Sound(start) && LegalMoves(start, moves)
            && !Exact(end) && "web" in end.store
  {
    hide Moved, LegalMove, HarmlessMove, Sound, Exact, Pair, SeesDifference, VisitService, RunMoves, LegalMoves;
    PairIsSound();
    PairIsListed();
    DeletedShape();
    OtherIsSound(PairListed(), DeleteNow("web"));
    DeletedIsLegal(policy, supply);
    DeletedVisitHarms(policy, supply);
    VisitIff(Deleted(), policy, supply);
    PassWrites(Deleted().world, Web("v1", 1, Running), policy, supply);
    DeletedIsVisited(policy, supply);
    var moves := DeletionMoves(policy, supply);
    assert moves == [moves[0]] + ([moves[1]] + ([moves[2]] + []));
    LegalThen(Deleted(), moves[2], []);
    LegalThen(PairListed(), moves[1], [moves[2]] + []);
    LegalThen(Platform(Pair(), []), moves[0], [moves[1]] + ([moves[2]] + []));
  }

  lemma DeletedIsVisited(policy: Policy, supply: nat -> Launch)
    ensures Moved(Deleted(), VisitNext(policy, supply)).world
         == ReconcileService(Deleted().world, Web("v1", 1, Running), policy, supply)
  {
    hide ReconcileService, DeleteService;
  }

  lemma DeletedIsLegal(policy: Policy, supply: nat -> Launch)
    requires NewLaunches(supply, {"a", "c"})
    ensures LegalMove(Deleted(), VisitNext(policy, supply))
  {
    hide DeleteService, LegalMove;
    DeletedShape();
    NewIsLegal(Deleted(), policy, supply);
  }

  lemma {:induction false} LegalThen(p: Platform, m: Move, rest: seq<Move>)
    requires LegalMove(p, m) && (rest == [] || LegalMoves(Moved(p, m), rest))
    ensures LegalMoves(p, [m] + rest) && RunMoves(p, [m] + rest) == RunMoves(Moved(p, m), rest)
    ensures rest == [] ==> RunMoves(p, [m] + rest) == Moved(p, m)
  {
    hide Moved, LegalMove, HarmlessMove;
    assert ([m] + rest)[1..] == rest;
  }

  // ---- A rollout beside the reconciler ----

  /** The rollout of "web" to a new image, while the others do something in its first sleep and nothing afterwards. */
  function RolloutBeside(others: seq<Move>, polls: nat, lowered: int): seq<Move> {
    RolloutMoves("web", "v2", (k: nat) => if k == 0 then others else [],
                 [Stage([Unit("a")], 2, polls, lowered, (1, 1))])
  }

  /** Image, status and raised count are written. */
  function Begun(): Platform {
    PairListed().(world := Pair().(store := map["web" := Web("v2", 2, Updating), "api" := Api()]))
  }

  function FirstWrites(): seq<Move> {
    [Other(SetImage("web", "v2")), Other(SetStatus("web", Updating)), Other(SetCount("web", 2))]
  }

  function LastWrites(lowered: int): seq<Move> {
    [Other(SetCount("web", lowered)), RemoveOld("web", [Unit("a")]), Other(SetStatus("web", Running))]
  }

  /** Where the rollout stands after its sleeps, and where it ends. */
  function Slumbered(others: seq<Move>): Platform {
    RunMoves(Begun(), others)
  }

  function Lowered(others: seq<Move>, lowered: int): Platform {
    Moved(Slumbered(others), Other(SetCount("web", lowered)))
  }

  function Ended(others: seq<Move>, lowered: int): Platform {
    Moved(Moved(Lowered(others, lowered), RemoveOld("web", [Unit("a")])), Other(SetStatus("web", Running)))
  }

  lemma {:induction false} SleptOnce(others: seq<Move>, n: nat)
    requires n >= 1
    ensures SleepMoves((k: nat) => if k == 0 then others else [], 0, n) == others
  {
    if n > 1 {
      SleptOnce(others, n - 1);
    }
  }

  lemma BesideUnfolds(others: seq<Move>, polls: nat, lowered: int)
    requires polls >= 1
    ensures RolloutBeside(others, polls, lowered) == FirstWrites() + others + LastWrites(lowered)
  {
    hide SleepMoves;
    var plan := (k: nat) => if k == 0 then others else [];
    var stage := Stage([Unit("a")], 2, polls, lowered, (1, 1));
    SleptOnce(others, polls);
    StagesMovesAppended("web", plan, [], stage);
    assert [] + [stage] == [stage] && Clock([]) == 0 && StagesMoves("web", plan, []) == [];
  }

  lemma BeginsWriting()
    ensures RunMoves(PairListed(), FirstWrites()) == Begun()
  {
    var p, m := PairListed(), FirstWrites();
    var p1 := Moved(p, m[0]);
    var p2 := Moved(p1, m[1]);
    assert Moved(p2, m[2]) == Begun();
    hide Moved;
    RunTwo(p, m[0], m[1]);
    RunOne(p2, m[2]);
    RunMovesAppend(p, [m[0], m[1]], [m[2]]);
    assert [m[0], m[1]] + [m[2]] == m;
  }

  /** The rollout's own writes are always legal and harmless. */
  lemma {:induction false} WritesAreFree(p: Platform, moves: seq<Move>)
    requires forall m :: m in moves ==> m.Other? && (m.step.SetCount? || m.step.SetImage? || m.step.SetStatus?)
    ensures LegalMoves(p, moves) && HarmlessMoves(p, moves)
    ensures forall m, ids :: m in moves ==> LaunchesOthers(m, ids)
    decreases |moves|
  {
    hide Moved;
    if moves != [] {
      assert moves[0] in moves && forall m :: m in moves[1..] ==> m in moves;
      WritesAreFree(Moved(p, moves[0]), moves[1..]);
    }
  }

  lemma BegunIsGood()
    ensures var olds := [Unit("a")];
            && Sound(PairListed()) && Good(Begun(), "web", olds)
            && Orderly(PairListed(), FirstWrites(), Begun(), "web", olds)
  {
    hide RunMoves, Good, Sound, Orderly, LegalMoves, HarmlessMoves, LaunchesOthers, Begun, Ids, UniqueIds;
    var p, olds := PairListed(), [Unit("a")];
    PairIsListed();
    StartsGood(p, "web");
    WritesAreFree(p, FirstWrites());
    BeginsWriting();
    OrderlyOthers(p, FirstWrites(), "web", olds);
    OrderlyMeans(p, FirstWrites(), Begun(), olds);
  }

  lemma OrderlyMeans(p: Platform, moves: seq<Move>, now: Platform, olds: seq<Replica>)
    requires Orderly(p, moves, now, "web", olds)
    ensures now == RunMoves(p, moves) && LegalMoves(p, moves)
    ensures HarmlessMoves(p, moves) ==> Good(now, "web", olds)
  {
    hide RunMoves, Good, LegalMoves, HarmlessMoves;
  }

  /** Whatever is legal in the sleep makes a legal rollout, and what is harmless leaves it good up to its removal. */
  lemma RolloutIsLegal(others: seq<Move>, polls: nat, lowered: int)
    requires polls >= 1 && LegalMoves(Begun(), others)
    requires forall m :: m in others ==> LaunchesOthers(m, Ids([Unit("a")]))
    ensures var moves := RolloutBeside(others, polls, lowered);
            && Sound(PairListed()) && LegalMoves(PairListed(), moves)
            && RunMoves(PairListed(), moves) == Ended(others, lowered)
    ensures HarmlessMoves(Begun(), others) ==> Good(Lowered(others, lowered), "web", [Unit("a")])
  {
    hide Moved, RunMoves, Good, Sound, Orderly, LegalMoves, HarmlessMoves, LaunchesOthers, Begun, Ids, UniqueIds, PairListed;
    var p, olds, first, last := PairListed(), [Unit("a")], FirstWrites(), LastWrites(lowered);
    var slept, low := Slumbered(others), Lowered(others, lowered);
    var removed := Moved(low, last[1]);
    BegunIsGood();
    OrderlyOthers(Begun(), others, "web", olds);
    OrderlyMeans(Begun(), others, slept, olds);
    if Good(slept, "web", olds) {
      OrderlyWrite(slept, SetCount("web", lowered), "web", olds);
      WritesAreFree(slept, [last[0]]);
      OrderlyMeans(slept, [last[0]], low, olds);
    }
    if Good(low, "web", olds) {
      OneUnit();
      OrderlyRemoval(low, olds, "web", olds);
    }
    if Good(removed, "web", olds) {
      OrderlyWrite(removed, SetStatus("web", Running), "web", olds);
    }
    RunOne(slept, last[0]);
    RunOne(low, last[1]);
    RunOne(removed, last[2]);
    OrderlyThen(p, first, Begun(), others, slept, "web", olds);
    OrderlyThen(p, first + others, slept, [last[0]], low, "web", olds);
    OrderlyThen(p, first + others + [last[0]], low, [last[1]], removed, "web", olds);
    OrderlyThen(p, first + others + [last[0]] + [last[1]], removed, [last[2]], Ended(others, lowered), "web", olds);
    BesideUnfolds(others, polls, lowered);
    assert first + others + [last[0]] + [last[1]] + [last[2]] == first + others + last;
    OrderlyMeans(p, first + others + last, Ended(others, lowered), olds);
  }

  lemma LastParts(others: seq<Move>, lowered: int)
    ensures var slept, low, end := Slumbered(others).world, Lowered(others, lowered).world, Ended(others, lowered).world;
            && low == After(slept, SetCount("web", lowered))
            && ("web" in low.store ==>
                  end == After(RemoveEach(low, low.store["web"].spec, [Unit("a")]), SetStatus("web", Running)))
  {
    hide RemoveEach, Slumbered, After;
  }

  lemma OneUnit()
    ensures UniqueIds([Unit("a")])
  {}

  // ---- A rollout undone ----

  /** The container of the old replica stops; then the turn comes to the record that it listed before the rollout. */
  function StopAndVisit(policy: Policy, supply: nat -> Launch): seq<Move> {
    [Other(ContainerStops("a")), VisitNext(policy, supply)]
  }

  function Stopped(): Platform {
    Begun().(world := Begun().world.(docker := map["a" := Container(false, ""), "c" := Container(true, "")]))
  }

  lemma {:induction false} StoppedShape()
    ensures Moved(Begun(), Other(ContainerStops("a"))) == Stopped() && LegalMove(Begun(), Other(ContainerStops("a")))
    ensures SeesDifference(Stopped().world.docker, Web("v1", 1, Running))
  {
    var docker := Stopped().world.docker;
    assert Begun().world.docker["a" := Container(false, "")] == docker;
    OneDead(docker);
  }

  lemma StopAndVisitIsLegal(policy: Policy, supply: nat -> Launch)
    requires NewLaunches(supply, {"a", "c"})
    ensures var others := StopAndVisit(policy, supply);
            && LegalMoves(Begun(), others) && (forall m :: m in others ==> LaunchesOthers(m, Ids([Unit("a")])))
            && Slumbered(others).world == ReconcileService(Stopped().world, Web("v1", 1, Running), policy, supply)
  {
    hide LegalMove, ReconcileService, RunMoves, LegalMoves;
    var others := StopAndVisit(policy, supply);
    StoppedShape();
    NewIsLegal(Stopped(), policy, supply);
    assert others == [others[0]] + ([others[1]] + []);
    LegalThen(Stopped(), others[1], []);
    LegalThen(Begun(), others[0], [others[1]] + []);
  }

  lemma WrittenBack(policy: Policy, supply: nat -> Launch)
    requires NewLaunches(supply, {"a", "c"})
    ensures var store := Slumbered(StopAndVisit(policy, supply)).world.store;
            "web" in store && store["web"].spec.image == "v1" && CountOf(store, "web") == 1
    ensures PairListed().world.store["web"].spec.replicas == 1
  {
    hide ReconcileService, SeesDifference, StopAndVisit, Slumbered, NewLaunches;
    StopAndVisitIsLegal(policy, supply);
    StoppedShape();
    PassWrites(Stopped().world, Web("v1", 1, Running), policy, supply);
  }

  /** The rest of the rollout leaves the image alone and the count as it was written last. */
  lemma EndsWithCount(others: seq<Move>, lowered: int)
    requires "web" in Slumbered(others).world.store
    ensures var store, end := Slumbered(others).world.store, Ended(others, lowered).world.store;
            && "web" in end && end["web"].spec.replicas == lowered
            && end["web"].spec.image == store["web"].spec.image
  {
    hide RemoveEach, Slumbered;
    var low := Lowered(others, lowered).world;
    RemoveEachSpecs(low, low.store["web"].spec, [Unit("a")]);
  }

  /** From a sound platform, by legal moves, a rollout runs to its end, however often it polls: but the visit has written
      the old image and the old count back, from which the rollout then subtracts its batch. */
  lemma RolloutUndone(policy: Policy, supply: nat -> Launch, polls: nat)
    requires NewLaunches(supply, {"a", "c"}) && polls >= 1
    ensures var start, moves := PairListed(), RolloutBeside(StopAndVisit(policy, supply), polls, 0);
            var end := RunMoves(start, moves).world;
            && Sound(start) && LegalMoves(start, moves) && start.world.store["web"].spec.replicas == 1
            && CountOf(Slumbered(StopAndVisit(policy, supply)).world.store, "web") - 1 == 0
            && "web" in end.store && end.store["web"].spec.image == "v1" && end.store["web"].spec.replicas == 0
  {
    hide *;
    var others := StopAndVisit(policy, supply);
    StopAndVisitIsLegal(policy, supply);
    RolloutIsLegal(others, polls, 0);
    WrittenBack(policy, supply);
    EndsWithCount(others, 0);
  }

  // ---- A replica removed twice ----

  /** The next turn lists the service as the rollout has written it, and visits it. */
  function ListAndVisit(policy: Policy, supply: nat -> Launch): seq<Move> {
    [List(["web", "api"]), VisitNext(policy, supply)]
  }

  function Relisted(): Platform {
    Begun().(listed := [Web("v2", 2, Updating), Api()])
  }

  lemma ListAndVisitIsLegal(policy: Policy, supply: nat -> Launch)
    requires NewLaunches(supply, {"a", "c"})
    ensures var others := ListAndVisit(policy, supply);
            && LegalMoves(Begun(), others) && (forall m :: m in others ==> LaunchesOthers(m, Ids([Unit("a")])))
            && Slumbered(others).world == ReconcileService(Relisted().world, Web("v2", 2, Updating), policy, supply)
  {
    hide LegalMove, ReconcileService, RunMoves, LegalMoves;
    var others := ListAndVisit(policy, supply);
    ListsBoth(Begun().world, Begun().listed);
    NewIsLegal(Relisted(), policy, supply);
    assert others == [others[0]] + ([others[1]] + []);
    LegalThen(Relisted(), others[1], []);
    LegalThen(Begun(), others[0], [others[1]] + []);
  }

  /** A visit with a record of which nothing has been removed since gives nothing back twice. */
  lemma CurrentIsHarmless(w: World, svc: Service)
    requires svc.spec.name in w.store && UniqueIds(svc.replicas)
    requires Ids(svc.replicas) <= Ids(w.store[svc.spec.name].replicas)
    ensures VisitHarmless(w, svc)
  {
    if svc.status != Deleting {
      var docker, kept := w.docker, Kept(w.docker, svc);
      LeaverParts(docker, svc);
      DeadMembers(docker, svc.replicas);
      forall r | r in Leavers(docker, svc) ensures Recorded(w.store, svc.spec.name, r) {
        if r !in DeadOf(docker, svc.replicas) {
          assert r in Observed(docker, svc.replicas);
          SeenFrom(docker, svc.replicas, r);
        }
      }
    }
  }

  /** One replica of "api", at most one of "web", all on the node, whose use is what they ask for but for `lost` requests
      of "web". */
  ghost predicate Shape(w: World, lost: nat) {
    && w.store.Keys == {"web", "api"} && w.store["api"] == Api()
    && w.store["web"].spec.name == "web" && w.store["web"].spec.cpu == 4 && w.store["web"].spec.mem == 1
    && |w.ledger| == 1 && w.ledger[0].id == "node-00"
    && w.ledger[0].cpuCapacity == 9 && w.ledger[0].memCapacity == 9
    && w.ledger[0].cpuUsed == 5 + 4 * (|w.store["web"].replicas| - lost)
    && w.ledger[0].memUsed == 1 + |w.store["web"].replicas| - lost
    && |w.store["web"].replicas| <= 1
    && (forall r :: r in w.store["web"].replicas ==> r.node == "node-00")
  }

  /** No replica is known to the service or, while it has none, to its node but the first two. */
  ghost predicate NoOther(w: World)
    requires Shape(w, 0)
  {
    w.store["web"].replicas == [] ==> forall id :: id in w.ledger[0].replicaIds ==> id in {"a", "c"}
  }

  ghost predicate WithoutOld(w: World)
    requires "web" in w.store
  {
    forall r :: r in w.store["web"].replicas ==> r.id != "a"
  }

  /** One attempt to start a replica of "web": it succeeds if Docker allows and there is none yet. */
  lemma {:induction false} AttemptShape(w: World, policy: Policy, launch: Launch)
    requires Shape(w, 0) && NoOther(w) && WithoutOld(w)
    requires launch.Launched? ==> launch.id !in {"a", "c"}
    ensures var w' := CreateReplica(w, w.store["web"].spec, policy, launch);
            Shape(w', 0) && NoOther(w') && WithoutOld(w') && w'.store["web"].spec == w.store["web"].spec
  {
    hide EndpointsOf, Merge, KeyLess, KeyOf, Candidates, Least, SelectNode;
    var n, spec, rs := w.ledger[0], w.store["web"].spec, w.store["web"].replicas;
    assert w.ledger == [n];
    var target := SelectNode(policy, w.ledger, 4, 1);
    assert Fits(n, 4, 1) <==> rs == [];
    assert target.Some? <==> rs == [];
    var r := Started(w.ledger, spec, policy, launch);
    if r.Some? {
      assert target.value == n && IndexOf(w.ledger, "node-00") == 0;
      assert rs + [r.value] == [r.value];
      assert CreateReplica(w, spec, policy, launch).store["web"].replicas == [r.value];
    }
  }

  lemma {:induction false} AttemptsShape(
    w: World, spec: ServiceSpec, policy: Policy, supply: nat -> Launch, k: nat, n: nat)
    requires k <= n && Shape(w, 0) && NoOther(w) && WithoutOld(w) && spec == w.store["web"].spec
    requires NewLaunches(supply, {"a", "c"})
    ensures var w' := CreateFrom(w, spec, policy, supply, k, n);
            Shape(w', 0) && WithoutOld(w') && w'.store["web"].spec == spec
    decreases n - k
  {
    hide CreateReplica, Shape, NoOther, WithoutOld;
    ShapeHasWeb(w, 0);
    if k < n {
      var w1 := CreateReplica(w, spec, policy, supply(k));
      AttemptShape(w, policy, supply(k));
      ShapeHasWeb(w1, 0);
      AttemptsShape(w1, spec, policy, supply, k + 1, n);
    }
  }

  lemma ShapeHasWeb(w: World, lost: nat)
    requires Shape(w, lost)
    ensures "web" in w.store
  {}

  /** Removing the old replica, if it is recorded; if it is not, one request too much is given back. */
  lemma {:induction false} RemovalShape(w: World)
    requires Shape(w, 0) && (WithoutOld(w) || w.store["web"].replicas == [Unit("a")])
    ensures var w' := RemoveReplica(w, w.store["web"].spec, Unit("a"));
            && Shape(w', if WithoutOld(w) then 1 else 0) && WithoutOld(w')
            && w'.store["web"].spec == w.store["web"].spec
            && (!WithoutOld(w) ==> w'.store["web"].replicas == [])
            && (forall id :: id in w'.ledger[0].replicaIds ==> id in w.ledger[0].replicaIds)
  {
    hide EndpointsOf, Merge, RemoveFirst;
    var rs := w.store["web"].replicas;
    assert IndexOf(w.ledger, "node-00") == 0;
    SubFirst(w.ledger[0].replicaIds, "a");
    if WithoutOld(w) {
      WithoutNone(rs, {"a"});
    } else {
      WithoutAll(rs, {"a"});
    }
  }

  lemma {:induction false} SubFirst(ids: seq<string>, id: string)
    ensures forall x :: x in RemoveFirst(ids, id) ==> x in ids
  {
    if ids != [] {
      SubFirst(ids[1..], id);
    }
  }

  /** The visit finds the old replica stale, removes it, and starts at most one new one. */
  lemma RelistedRefresh()
    ensures var w, svc := Relisted().world, Web("v2", 2, Updating);
            && Refresh(w, svc).service == svc
            && Refresh(w, svc).world.store == w.store && Refresh(w, svc).world.ledger == w.ledger
            && RunningOf(svc.replicas) == svc.replicas && StaleOf(svc.replicas, "v2") == svc.replicas
  {
    hide EndpointsOf, Merge;
    var w, a := Relisted().world, Unit("a");
    assert [a][1..] == [] && Observe(w.docker, a) == a;
    assert IndexOf(w.ledger, "node-00") == 0;
    assert w.ledger[0 := w.ledger[0]] == w.ledger;
  }

  lemma RelistedShape()
    ensures Shape(Relisted().world, 0) && Relisted().world.store["web"] == Web("v2", 2, Updating)
    ensures Relisted().world.ledger[0].replicaIds == ["a", "c"]
  {}

  lemma VisitShape(policy: Policy, supply: nat -> Launch)
    requires NewLaunches(supply, {"a", "c"})
    ensures var end := ReconcileService(Relisted().world, Web("v2", 2, Updating), policy, supply);
            Shape(end, 0) && WithoutOld(end) && CountOf(end.store, "web") == 2
  {
    hide Refresh, RemoveReplica, CreateFrom, SettleStatus, Relisted, RunningOf, StaleOf, NewLaunches;
    var w, svc := Relisted().world, Web("v2", 2, Updating);
    RelistedRefresh();
    RelistedShape();
    var w1 := Refresh(w, svc).world;
    var w2 := RemoveReplica(w1, svc.spec, Unit("a"));
    RemovalShape(w1);
    assert [Unit("a")][1..] == [] && RemoveEach(w1, svc.spec, [Unit("a")]) == w2;
    assert RunningOf([]) == [] by { NoneRun(); }
    AttemptsShape(w2, svc.spec, policy, supply, 0, 2);
    SettledShape(CreateFrom(w2, svc.spec, policy, supply, 0, 2));
  }

  lemma NoneRun()
    ensures RunningOf([]) == []
  {}

  lemma SettledShape(w: World)
    requires Shape(w, 0) && WithoutOld(w)
    ensures var w' := SettleStatus(w, "web");
            Shape(w', 0) && WithoutOld(w') && w'.store["web"].spec == w.store["web"].spec
  {
    hide RunningOf;
  }

  /** The recorded replicas together ask for more than their only node has. */
  ghost predicate Overcommitted(w: World) {
    && w.store.Keys == {"web", "api"} && |w.ledger| == 1
    && (forall s, r :: s in w.store && r in w.store[s].replicas ==> r.node == w.ledger[0].id)
    && w.store["web"].spec.cpu * |w.store["web"].replicas| + w.store["api"].spec.cpu * |w.store["api"].replicas|
       > w.ledger[0].cpuCapacity
  }

  /** With one request lost, a further launch for one of the services goes through. */
  lemma OneTooMany(w: World, policy: Policy, launch: Launch)
    requires Shape(w, 1) && launch.Launched?
    ensures exists s :: s in w.store && Overcommitted(CreateReplica(w, w.store[s].spec, policy, launch))
  {
    hide EndpointsOf, Merge, KeyLess, KeyOf, Candidates, Least, SelectNode;
    var s := if w.store["web"].replicas == [] then "api" else "web";
    var n, spec := w.ledger[0], w.store[s].spec;
    assert w.ledger == [n] && n in w.ledger && Fits(n, spec.cpu, spec.mem);
    var target := SelectNode(policy, w.ledger, spec.cpu, spec.mem);
    assert target.Some? && target.value == n && IndexOf(w.ledger, n.id) == 0;
    var r := Started(w.ledger, spec, policy, launch);
    assert r.Some?;
    var w' := CreateReplica(w, spec, policy, launch);
    assert w'.store[s].replicas == w.store[s].replicas + [r.value];
    assert Overcommitted(w');
  }

  lemma LoweredShape(w: World)
    requires Shape(w, 0) && WithoutOld(w)
    ensures var w' := After(w, SetCount("web", 1));
            Shape(w', 0) && WithoutOld(w') && "web" in w'.store
  {}

  lemma GoodIsAccounted(p: Platform, olds: seq<Replica>)
    requires Good(p, "web", olds)
    ensures Accounted(p.world)
  {}

  lemma ListAndVisitIsHarmless(policy: Policy, supply: nat -> Launch)
    ensures HarmlessMoves(Begun(), ListAndVisit(policy, supply))
  {
    hide VisitHarmless, VisitService;
    var moves := ListAndVisit(policy, supply);
    ListsBoth(Begun().world, Begun().listed);
    OneUnit();
    CurrentIsHarmless(Relisted().world, Web("v2", 2, Updating));
    assert HarmlessMove(Begun(), moves[0]) && Moved(Begun(), moves[0]) == Relisted();
    assert HarmlessMove(Relisted(), moves[1]);
    hide Moved, HarmlessMove, Relisted, Begun;
    assert moves[1..] == [moves[1]] && [moves[1]][1..] == [];
    assert HarmlessMoves(Relisted(), [moves[1]]);
  }

  lemma OldIsUnclaimed(w: World, claims: Claims)
    requires Shape(w, 0) && WithoutOld(w) && Consistent(w, claims)
    ensures "a" !in claims
  {
    hide LedgerMatches;
    assert forall s, i :: !Holds(w.store, s, i, "a");
  }

  /** The second removal, and the last write. */
  lemma SecondRemoval(w: World)
    requires Shape(w, 0) && WithoutOld(w) && Accounted(w)
    ensures var removed := RemoveEach(w, w.store["web"].spec, [Unit("a")]);
            var end := After(removed, SetStatus("web", Running));
            Shape(end, 1) && !Exact(end)
  {
    hide Consistent, RemoveReplica, Accounted;
    var spec := w.store["web"].spec;
    var removed := RemoveReplica(w, spec, Unit("a"));
    assert [Unit("a")][1..] == [] && RemoveEach(w, spec, [Unit("a")]) == removed;
    RemovalShape(w);
    IsConsistent(w);
    var claims :| Consistent(w, claims);
    OldIsUnclaimed(w, claims);
    SecondRemovalExactIff(w, "web", Unit("a"), claims);
    StatusShape(removed);
    hide Shape, WithoutOld;
    if Exact(After(removed, SetStatus("web", Running))) {
      StatusBack(removed, Running);
    }
  }

  lemma StatusShape(w: World)
    requires Shape(w, 1)
    ensures "web" in w.store && Shape(After(w, SetStatus("web", Running)), 1)
  {}

  lemma IsConsistent(w: World)
    requires Accounted(w)
    ensures exists claims :: Consistent(w, claims)
  {}

  lemma StatusBack(w: World, status: Status)
    requires "web" in w.store && Exact(After(w, SetStatus("web", status)))
    ensures Accounted(w)
  {
    hide Consistent;
    ExactIsAccounted(After(w, SetStatus("web", status)));
    var w1 := After(w, SetStatus("web", status));
    var claims :| Consistent(w1, claims);
    var claims' := StepKeepsLedger(w1, SetStatus("web", w.store["web"].status), claims);
    assert After(w1, SetStatus("web", w.store["web"].status)) == w;
  }

  /** In the ordinary course the reconcile loop removes the old replica during the rollout, which then removes it again.
      From a sound platform, by legal moves, the ledger ends wrong, and one more launch overcommits the node. */
  lemma RolloutRemovesTwice(policy: Policy, supply: nat -> Launch, polls: nat, launch: Launch)
    requires NewLaunches(supply, {"a", "c"}) && polls >= 1 && launch.Launched?
    ensures var start, moves := PairListed(), RolloutBeside(ListAndVisit(policy, supply), polls, 1);
            var end := RunMoves(start, moves).world;
            && Sound(start) && LegalMoves(start, moves)
            && CountOf(Slumbered(ListAndVisit(policy, supply)).world.store, "web") - 1 == 1
            && !Exact(end)
            && exists s :: s in end.store && Overcommitted(CreateReplica(end, end.store[s].spec, policy, launch))
  {
    hide *;
    var others := ListAndVisit(policy, supply);
    ListAndVisitIsLegal(policy, supply);
    ListAndVisitIsHarmless(policy, supply);
    RolloutIsLegal(others, polls, 1);
    VisitShape(policy, supply);
    LastParts(others, 1);
    LoweredShape(Slumbered(others).world);
    GoodIsAccounted(Lowered(others, 1), [Unit("a")]);
    SecondRemoval(Lowered(others, 1).world);
    OneTooMany(Ended(others, 1).world, policy, launch);
  }
}
