/** What one pass keeps, and how far it converges. */
module Convergence {
  import opened Wrappers
  import opened Nodes
  import opened Scheduler
  import opened Worlds
  import opened Reconcile
  import opened ReconcileProofs
  import opened Selections

  /** The replicas a pass keeps before scaling: live, and on the wanted image or on no recorded image. */
  function Kept(docker: Docker, svc: Service): seq<Replica> {
    CurrentOf(RunningOf(Observed(docker, svc.replicas)), svc.spec.image)
  }

  function StaleIn(docker: Docker, svc: Service): seq<Replica> {
    StaleOf(RunningOf(Observed(docker, svc.replicas)), svc.spec.image)
  }

  /** The state once dead and stale replicas are gone, before scaling. */
  function AfterStale(w: World, svc: Service): World {
    RemoveEach(Refresh(w, svc).world, svc.spec, StaleIn(w.docker, svc))
  }

  // ---- What a look at Docker keeps and drops, in the records' own fields ----

  predicate IsUp(docker: Docker, r: Replica) {
    r.container in docker && docker[r.container].running
  }

  /** The replica under the address that Docker reports, if it reports one. */
  function Readdressed(docker: Docker, r: Replica): Replica {
    if r.container in docker && docker[r.container].ip != ""
    then Replica(r.id, r.container, r.node, r.status, docker[r.container].ip, r.image)
    else r
  }

  /** Forgotten are the replicas recorded as running whose container does not run. */
  lemma {:induction false} DeadSelects(docker: Docker, rs: seq<Replica>)
    ensures Selects(rs, (r: Replica) => r.status == Running && !IsUp(docker, r), (r: Replica) => r, DeadOf(docker, rs))
  {
    if rs == [] {
      SelectsNothing((r: Replica) => r.status == Running && !IsUp(docker, r), (r: Replica) => r);
    } else {
      DeadSelects(docker, rs[1..]);
      SelectsCons(rs, (r: Replica) => r.status == Running && !IsUp(docker, r), (r: Replica) => r, DeadOf(docker, rs[1..]));
    }
  }

  /** The rest is seen, running replicas under Docker's address. */
  lemma {:induction false} ObservedSelects(docker: Docker, rs: seq<Replica>)
    ensures Selects(rs, (r: Replica) => r.status == Running ==> IsUp(docker, r),
                    (r: Replica) => if r.status == Running then Readdressed(docker, r) else r, Observed(docker, rs))
  {
    if rs == [] {
      SelectsNothing((r: Replica) => r.status == Running ==> IsUp(docker, r),
                     (r: Replica) => if r.status == Running then Readdressed(docker, r) else r);
    } else {
      ObservedSelects(docker, rs[1..]);
      SelectsCons(rs, (r: Replica) => r.status == Running ==> IsUp(docker, r),
                  (r: Replica) => if r.status == Running then Readdressed(docker, r) else r, Observed(docker, rs[1..]));
    }
  }

  lemma PassUnfoldsOne(docker: Docker, svc: Service)
    requires svc.replicas != []
    ensures var r, rest := svc.replicas[0], svc.(replicas := svc.replicas[1..]);
            var live, stale := r.status == Running && IsUp(docker, r), r.image != "" && r.image != svc.spec.image;
            && Kept(docker, svc) == (if live && !stale then [Readdressed(docker, r)] else []) + Kept(docker, rest)
            && StaleIn(docker, svc) == (if live && stale then [Readdressed(docker, r)] else []) + StaleIn(docker, rest)
  {
    var r, rest := svc.replicas[0], svc.replicas[1..];
    var seen, image := Observed(docker, rest), svc.spec.image;
    if !Dead(docker, r) {
      var x := if r.status == Running then Observe(docker, r) else r;
      assert Observed(docker, svc.replicas) == [x] + seen;
      assert ([x] + seen)[1..] == seen;
      if r.status == Running {
        assert ([x] + RunningOf(seen))[1..] == RunningOf(seen);
      }
    }
  }

  /** Kept are the running replicas whose container runs, on the wanted image or on no recorded one. */
  lemma {:induction false} KeptSelects(docker: Docker, svc: Service)
    ensures Selects(svc.replicas,
                    (r: Replica) => r.status == Running && IsUp(docker, r) && (r.image == "" || r.image == svc.spec.image),
                    (r: Replica) => Readdressed(docker, r), Kept(docker, svc))
    decreases |svc.replicas|
  {
    var rs, image := svc.replicas, svc.spec.image;
    if rs == [] {
      SelectsNothing((r: Replica) => r.status == Running && IsUp(docker, r) && (r.image == "" || r.image == image),
                     (r: Replica) => Readdressed(docker, r));
    } else {
      hide Kept, IsUp, Readdressed;
      var rest := svc.(replicas := rs[1..]);
      KeptSelects(docker, rest);
      PassUnfoldsOne(docker, svc);
      SelectsCons(rs, (r: Replica) => r.status == Running && IsUp(docker, r) && (r.image == "" || r.image == image),
                  (r: Replica) => Readdressed(docker, r), Kept(docker, rest));
    }
  }

  /** Stale are the running replicas whose container runs, on another image. */
  lemma {:induction false} StaleSelects(docker: Docker, svc: Service)
    ensures Selects(svc.replicas,
                    (r: Replica) => r.status == Running && IsUp(docker, r) && r.image != "" && r.image != svc.spec.image,
                    (r: Replica) => Readdressed(docker, r), StaleIn(docker, svc))
    decreases |svc.replicas|
  {
    var rs, image := svc.replicas, svc.spec.image;
    if rs == [] {
      SelectsNothing((r: Replica) => r.status == Running && IsUp(docker, r) && r.image != "" && r.image != image,
                     (r: Replica) => Readdressed(docker, r));
    } else {
      hide StaleIn, IsUp, Readdressed;
      var rest := svc.(replicas := rs[1..]);
      StaleSelects(docker, rest);
      PassUnfoldsOne(docker, svc);
      SelectsCons(rs, (r: Replica) => r.status == Running && IsUp(docker, r) && r.image != "" && r.image != image,
                  (r: Replica) => Readdressed(docker, r), StaleIn(docker, rest));
    }
  }

  lemma {:induction false} NoStaleAllCurrent(rs: seq<Replica>, image: string)
    requires StaleOf(rs, image) == []
    ensures CurrentOf(rs, image) == rs
  {
    if rs != [] {
      NoStaleAllCurrent(rs[1..], image);
    }
  }

  lemma {:induction false} ObservedKeepsIds(docker: Docker, rs: seq<Replica>)
    requires UniqueIds(rs)
    ensures UniqueIds(Observed(docker, rs)) && Ids(Observed(docker, rs)) <= Ids(rs)
  {
    if rs != [] {
      UniqueTail(rs);
      ObservedKeepsIds(docker, rs[1..]);
      var rest := Observed(docker, rs[1..]);
      assert rs == [rs[0]] + rs[1..];
      assert rs[0].id in Ids(rs);
      if !Dead(docker, rs[0]) {
        var seen := if rs[0].status == Running then Observe(docker, rs[0]) else rs[0];
        UniqueCons(seen, rest);
        forall id | id in Ids([seen] + rest) ensures id in Ids(rs) {
          var x :| x in [seen] + rest && x.id == id;
          if x in rest { assert id in Ids(rest); }
        }
      }
    }
  }

  /** The facts about the state before scaling that the rest of the pass relies on. */
  ghost predicate ReadyToScale(w: World, w2: World, s: string, claims2: Claims)
    requires s in w.store
  {
    var svc := w.store[s];
    && s in w2.store && w2.store == w.store[s := svc.(replicas := w2.store[s].replicas)]
    && RunningOf(w2.store[s].replicas) == Kept(w.docker, svc)
    && UniqueIds(w2.store[s].replicas)
    && Consistent(w2, claims2)
    && SyncedStep(w, w2, s)
    && w2.docker == w.docker - Containers(DeadOf(w.docker, svc.replicas)) - Containers(StaleIn(w.docker, svc))
  }

  lemma PreparedKeeps(w: World, s: string, claims: Claims) returns (claims2: Claims)
    requires Consistent(w, claims) && TidyRoutes(w.routes) && s in w.store
    ensures ReadyToScale(w, AfterStale(w, w.store[s]), s, claims2)
    ensures claims2.Keys <= claims.Keys
  {
    hide Consistent, Refresh, RemoveEach, RunningOf, StaleOf, CurrentOf, Without, Observed, DeadOf, UniqueIds, TidyRoutes,
         RoutesAgree;
    var svc := w.store[s];
    var dead := DeadOf(w.docker, svc.replicas);
    var stale := StaleIn(w.docker, svc);
    var seen := Observed(w.docker, svc.replicas);
    RefreshKeeps(w, s, claims);
    var w1 := Refresh(w, svc).world;
    var claims1 := claims - Ids(dead);
    ConsistentIsUnique(w1, s, claims1);
    UniqueRunning(seen);
    UniqueStale(RunningOf(seen), svc.spec.image);
    RunningMembers(seen);
    StaleMembers(RunningOf(seen), svc.spec.image);
    CurrentCopies(w1, s, stale, claims1);
    RemoveEachKeeps(w1, s, stale, claims1);
    claims2 := claims1 - Ids(stale);
    var w2 := AfterStale(w, svc);
    if stale != [] {
      SyncedThen(w, w1, w2, s);
    }
    WithoutCommutesRunning(seen, Ids(stale));
    WithoutStaleIsCurrent(RunningOf(seen), svc.spec.image);
    UniqueWithout(seen, Ids(stale));
    RemoveEachNone(w1, svc.spec);
  }

  lemma ConsistentIsUnique(w: World, s: string, claims: Claims)
    requires Consistent(w, claims) && s in w.store
    ensures UniqueIds(w.store[s].replicas) && w.store[s].spec.name == s
    ensures w.store[s].spec.cpu >= 0 && w.store[s].spec.mem >= 0
  {
    DistinctInService(w.store, s);
  }

  lemma CurrentCopies(w: World, s: string, rs: seq<Replica>, claims: Claims)
    requires Consistent(w, claims) && s in w.store && forall r :: r in rs ==> r in w.store[s].replicas
    ensures RecordedCopies(w.store, s, rs)
  {
    CurrentAreCopies(w.store, s, rs);
  }

  lemma RemoveEachNone(w: World, spec: ServiceSpec)
    ensures RemoveEach(w, spec, []) == w
  {
  }

  lemma PassUnfolds(w: World, s: string, policy: Policy, supply: nat -> Launch, claims: Claims)
    requires Consistent(w, claims) && TidyRoutes(w.routes) && s in w.store
    ensures var svc := w.store[s];
            ReconcileService(w, svc, policy, supply)
            == SettleStatus(Scale(AfterStale(w, svc), svc.spec, svc.spec.replicas, Kept(w.docker, svc), policy, supply), s)
  {
    hide Consistent, SettleStatus, Scale;
    var svc := w.store[s];
    ConsistentIsUnique(w, s, claims);
    RefreshKeeps(w, s, claims);
    var claims2 := PreparedKeeps(w, s, claims);
    var running := RunningOf(Observed(w.docker, svc.replicas));
    if StaleOf(running, svc.spec.image) == [] {
      NoStaleAllCurrent(running, svc.spec.image);
    }
  }

  // ---- Scaling ----

  /** After scaling from `running` towards `desired`: what the service lists as running. */
  function ScaledRunning(
    w2: World, spec: ServiceSpec, desired: int, running: seq<Replica>, policy: Policy, supply: nat -> Launch)
    : seq<Replica>
  {
    running[..SliceStart(|running|, desired)]
    + if |running| < desired then StartedFrom(w2.ledger, spec, policy, supply, 0, desired - |running|) else []
  }

  lemma CutTail(rs: seq<Replica>, k: nat)
    requires UniqueIds(rs) && k <= |rs|
    ensures Without(rs, Ids(rs[k..])) == rs[..k]
    ensures UniqueIds(rs[k..])
  {
    var head, tail := rs[..k], rs[k..];
    assert rs == head + tail;
    WithoutAppend(head, tail, Ids(tail));
    forall r | r in head ensures r.id !in Ids(tail) {
      var i :| 0 <= i < k && rs[i] == r;
      forall j | 0 <= j < |tail| ensures tail[j].id != r.id {
        assert tail[j] == rs[k + j];
      }
    }
    WithoutNone(head, Ids(tail));
    WithoutAll(tail, Ids(tail));
  }

  /** Cutting the tail of the running replicas out of the list leaves its head running. */
  lemma HeadRemains(rs: seq<Replica>, k: nat)
    requires UniqueIds(rs) && k <= |RunningOf(rs)|
    ensures RunningOf(Without(rs, Ids(RunningOf(rs)[k..]))) == RunningOf(rs)[..k]
    ensures UniqueIds(RunningOf(rs)[k..]) && forall r :: r in RunningOf(rs)[k..] ==> r in rs
  {
    UniqueRunning(rs);
    RunningMembers(rs);
    hide UniqueIds, RunningOf, Without;
    WithoutCommutesRunning(rs, Ids(RunningOf(rs)[k..]));
    CutTail(RunningOf(rs), k);
  }

  ghost predicate Scaled(w2: World, w3: World, s: string, running': seq<Replica>, claims3: Claims)
    requires s in w2.store
  {
    && s in w3.store && w3.store == w2.store[s := w2.store[s].(replicas := w3.store[s].replicas)]
    && RunningOf(w3.store[s].replicas) == running'
    && Consistent(w3, claims3)
    && (w3 == w2 || SyncedStep(w2, w3, s))
  }

  lemma ScaleUpKeeps(w2: World, s: string, n: nat, policy: Policy, supply: nat -> Launch, claims2: Claims)
    requires Consistent(w2, claims2) && TidyRoutes(w2.routes) && s in w2.store
    requires FreshSupply(supply, 0, claims2, w2.docker)
    ensures var svc := w2.store[s];
            var rs := StartedFrom(w2.ledger, svc.spec, policy, supply, 0, n);
            Scaled(w2, CreateFrom(w2, svc.spec, policy, supply, 0, n), s, RunningOf(svc.replicas) + rs,
                   WithClaims(claims2, svc.spec, rs))
  {
    hide Consistent, TidyRoutes, CreateFrom, StartedFrom, FreshSupply, SyncedStep;
    var svc := w2.store[s];
    CreateFromKeeps(w2, s, policy, supply, 0, n, claims2);
    var rs := StartedFrom(w2.ledger, svc.spec, policy, supply, 0, n);
    StartedAreRunning(w2.ledger, svc.spec, policy, supply, 0, n);
    RunningAppend(svc.replicas, rs);
  }

  lemma ScaleDownKeeps(w2: World, s: string, k: nat, claims2: Claims)
    requires Consistent(w2, claims2) && TidyRoutes(w2.routes) && s in w2.store
    requires k <= |RunningOf(w2.store[s].replicas)|
    ensures var svc := w2.store[s];
            var tail := RunningOf(svc.replicas)[k..];
            Scaled(w2, RemoveEach(w2, svc.spec, tail), s, RunningOf(svc.replicas)[..k], claims2 - Ids(tail))
  {
    hide Consistent, TidyRoutes, RemoveEach, SyncedStep, Without, RunningOf;
    var svc := w2.store[s];
    ConsistentIsUnique(w2, s, claims2);
    HeadRemains(svc.replicas, k);
    var tail := RunningOf(svc.replicas)[k..];
    CurrentCopies(w2, s, tail, claims2);
    RemoveEachKeeps(w2, s, tail, claims2);
    RemoveEachNone(w2, svc.spec);
  }

  /** Scaling keeps the ledger exact and ends with `ScaledRunning` running, whatever the sign of `desired`. */
  lemma ScaleKeeps(
    w2: World, s: string, desired: int, policy: Policy, supply: nat -> Launch, claims2: Claims) returns (claims3: Claims)
    requires Consistent(w2, claims2) && TidyRoutes(w2.routes) && s in w2.store
    requires desired > 0 ==> FreshSupply(supply, 0, claims2, w2.docker)
    ensures var svc := w2.store[s];
            var running := RunningOf(svc.replicas);
            Scaled(w2, Scale(w2, svc.spec, desired, running, policy, supply), s,
                   ScaledRunning(w2, svc.spec, desired, running, policy, supply), claims3)
  {
    hide Consistent, TidyRoutes, RemoveEach, SyncedStep, RunningOf, CreateFrom, StartedFrom, FreshSupply;
    var svc := w2.store[s];
    var running := RunningOf(svc.replicas);
    if |running| < desired {
      ScaleUpKeeps(w2, s, desired - |running|, policy, supply, claims2);
      claims3 := WithClaims(claims2, svc.spec, StartedFrom(w2.ledger, svc.spec, policy, supply, 0, desired - |running|));
      assert running[..SliceStart(|running|, desired)] == running;
    } else if |running| > desired {
      ScaleDownKeeps(w2, s, SliceStart(|running|, desired), claims2);
      claims3 := claims2 - Ids(running[SliceStart(|running|, desired)..]);
      assert running[..SliceStart(|running|, desired)] + [] == running[..SliceStart(|running|, desired)];
    } else {
      claims3 := claims2;
      assert running[..SliceStart(|running|, desired)] + [] == running;
      assert w2.store[s := svc.(replicas := svc.replicas)] == w2.store;
    }
  }

  /** Recording the service's status changes neither replicas, ledger nor routes. */
  lemma SettleKeeps(w: World, s: string, claims: Claims)
    requires Consistent(w, claims) && s in w.store
    ensures var w' := SettleStatus(w, s);
            && Consistent(w', claims)
            && w' == w.(store := w.store[s := w.store[s].(status := w'.store[s].status)])
            && w'.store[s].status == if RunningOf(w.store[s].replicas) != [] then Running else Degraded
  {
    var svc' := w.store[s].(status := if RunningOf(w.store[s].replicas) != [] then Running else Degraded);
    TouchService(w.store, s, svc', claims);
    assert w.store[s].status == svc'.status ==> w.store[s := svc'] == w.store;
  }

  // ---- One pass ----

  lemma FreshSupplyShrinks(supply: nat -> Launch, claims: Claims, docker: Docker, claims': Claims, docker': Docker)
    requires FreshSupply(supply, 0, claims, docker)
    requires claims'.Keys <= claims.Keys && docker'.Keys <= docker.Keys
    ensures FreshSupply(supply, 0, claims', docker')
  {
  }

  /** What a pass over service `s` leaves behind. */
  ghost predicate Passed(w: World, w': World, s: string, running: seq<Replica>, claims': Claims)
    requires s in w.store
  {
    && Consistent(w', claims')
    && TidyRoutes(w'.routes) && RoutesAgree(w', s)
    && w'.store == w.store[s := w'.store[s]] && w'.routes == w.routes[s := w'.routes[s]]
    && w'.store[s].spec == w.store[s].spec
    && RunningOf(w'.store[s].replicas) == running
    && w'.store[s].status == if running != [] then Running else Degraded
  }

  lemma PassedSummary(w: World, w2: World, w3: World, s: string, running: seq<Replica>, claims2: Claims, claims3: Claims)
    requires s in w.store && ReadyToScale(w, w2, s, claims2) && Scaled(w2, w3, s, running, claims3)
    ensures Passed(w, SettleStatus(w3, s), s, running, claims3)
  {
    hide Consistent, TidyRoutes, RunningOf, Kept, DeadOf, StaleIn, EndpointsOf, UniqueIds;
    SettleKeeps(w3, s, claims3);
    if w3 != w2 {
      SyncedThen(w, w2, w3, s);
    }
  }

  /** A pass keeps the ledger exact and within capacity, whatever Docker answers and whatever count is wanted,
      leaves the routes in agreement with the store, and touches no other service. */
  lemma PassKeeps(w: World, s: string, policy: Policy, supply: nat -> Launch, claims: Claims) returns (claims': Claims)
    requires Consistent(w, claims) && TidyRoutes(w.routes) && s in w.store
    requires w.store[s].spec.replicas > 0 ==> FreshSupply(supply, 0, claims, w.docker)
    ensures var svc := w.store[s];
            Passed(w, ReconcileService(w, svc, policy, supply), s,
                   ScaledRunning(AfterStale(w, svc), svc.spec, svc.spec.replicas, Kept(w.docker, svc), policy, supply),
                   claims')
  {
    hide Consistent, TidyRoutes, SettleStatus, Scale, ScaledRunning, AfterStale, FreshSupply, Kept, RoutesAgree, Passed,
         ReconcileService, RunningOf, Scaled, UniqueIds;
    var svc := w.store[s];
    var w2 := AfterStale(w, svc);
    var claims2 := PreparedKeeps(w, s, claims);
    if svc.spec.replicas > 0 {
      FreshSupplyShrinks(supply, claims, w.docker, claims2, w2.docker);
    }
    claims' := ScaleKeeps(w2, s, svc.spec.replicas, policy, supply, claims2);
    PassUnfolds(w, s, policy, supply, claims);
    var w3 := Scale(w2, svc.spec, svc.spec.replicas, Kept(w.docker, svc), policy, supply);
    PassedSummary(w, w2, w3, s,
                  ScaledRunning(w2, svc.spec, svc.spec.replicas, Kept(w.docker, svc), policy, supply), claims2, claims');
  }

  /** The replicas started are those supplied first, on the image. */
  ghost predicate Supplied(rs: seq<Replica>, supply: nat -> Launch, image: string) {
    forall i :: 0 <= i < |rs| ==> supply(i).Launched? && rs[i].id == supply(i).id && rs[i].image == image
  }

  /** From `kept` and with `slots` free, what `running` is: the kept replicas, cut to the wanted count in Python's slicing,
      and as many new ones as are wanted or as fit. The wanted count is reached exactly when the slots suffice, or, for a
      negative one, when the slice leaves nothing. */
  ghost predicate Converged(
    kept: seq<Replica>, slots: Room, d: int, running: seq<Replica>, supply: nat -> Launch, image: string)
  {
    var k, n := SliceStart(|kept|, d), Fill(Max(0, d - |kept|), slots);
    && |running| == k + n && running[..k] == kept[..k]
    && Supplied(running[k..], supply, image)
    && (|running| == Max(0, d) <==> if d >= 0 then Within(Max(0, d - |kept|), slots) else |kept| + d <= 0)
  }

  /** When Docker refuses nothing: the pass keeps the current live replicas, cut to the wanted count in Python's
      slicing, and starts as many more as are wanted or as fit, under either policy. */
  lemma OnePassConverges(w: World, s: string, policy: Policy, supply: nat -> Launch, claims: Claims)
    requires Consistent(w, claims) && TidyRoutes(w.routes) && s in w.store
    requires FreshSupply(supply, 0, claims, w.docker) && forall i :: supply(i).Launched?
    ensures var svc := w.store[s];
            var w' := ReconcileService(w, svc, policy, supply);
            && s in w'.store
            && Converged(Kept(w.docker, svc), TotalSlots(AfterStale(w, svc).ledger, svc.spec.cpu, svc.spec.mem),
                         svc.spec.replicas, RunningOf(w'.store[s].replicas), supply, svc.spec.image)
  {
    hide Consistent, TidyRoutes, SettleStatus, Scale, AfterStale, FreshSupply, Kept, RoutesAgree,
         ReconcileService, RunningOf, TotalSlots, StartedFrom, UniqueIds, Unheld, ScaledRunning, Converged;
    var svc := w.store[s];
    var d, kept := svc.spec.replicas, Kept(w.docker, svc);
    var w2 := AfterStale(w, svc);
    var claims2 := PreparedKeeps(w, s, claims);
    FreshSupplyShrinks(supply, claims, w.docker, claims2, w2.docker);
    var _ := PassKeeps(w, s, policy, supply, claims);
    LedgerOf(w2, claims2);
    FreshIsUnheld(w2.ledger, w2.docker, supply, 0, claims2);
    SupplyIsDistinct(supply, claims, w.docker);
    ConsistentIsUnique(w, s, claims);
    ScaledConverged(w2, svc.spec, d, kept, policy, supply);
  }

  lemma ScaledConverged(
    w2: World, spec: ServiceSpec, d: int, kept: seq<Replica>, policy: Policy, supply: nat -> Launch)
    requires Unheld(w2.ledger, supply, 0) && spec.cpu >= 0 && spec.mem >= 0 && forall i :: supply(i).Launched?
    requires forall i, j :: 0 <= i < j && supply(i).Launched? && supply(j).Launched? ==> supply(i).id != supply(j).id
    ensures Converged(kept, TotalSlots(w2.ledger, spec.cpu, spec.mem), d,
                      ScaledRunning(w2, spec, d, kept, policy, supply), supply, spec.image)
  {
    hide TotalSlots, StartedFrom, Unheld, RunningOf, Converged, Supplied;
    var slots := TotalSlots(w2.ledger, spec.cpu, spec.mem);
    if |kept| < d {
      var rs := StartedFrom(w2.ledger, spec, policy, supply, 0, d - |kept|);
      StartedCount(w2.ledger, spec, policy, supply, 0, d - |kept|);
      StartedSupplied(w2.ledger, spec, policy, supply, d - |kept|);
      assert kept[..|kept|] == kept;
      ConvergedUp(kept, slots, d, rs, supply, spec.image);
    } else {
      assert kept[..SliceStart(|kept|, d)] + [] == kept[..SliceStart(|kept|, d)];
      ConvergedDown(kept, slots, d, supply, spec.image);
    }
  }

  lemma StartedSupplied(ledger: Ledger, spec: ServiceSpec, policy: Policy, supply: nat -> Launch, n: nat)
    requires Unheld(ledger, supply, 0) && spec.cpu >= 0 && spec.mem >= 0 && forall i :: supply(i).Launched?
    requires forall i, j :: 0 <= i < j && supply(i).Launched? && supply(j).Launched? ==> supply(i).id != supply(j).id
    ensures Supplied(StartedFrom(ledger, spec, policy, supply, 0, n), supply, spec.image)
  {
    hide TotalSlots, StartedFrom, Unheld, RunningOf;
    var rs := StartedFrom(ledger, spec, policy, supply, 0, n);
    StartedCount(ledger, spec, policy, supply, 0, n);
    StartedAreRunning(ledger, spec, policy, supply, 0, n);
    forall i | 0 <= i < |rs| ensures rs[i].id == supply(i).id && rs[i].image == spec.image {
      assert rs[i] in rs && 0 + i == i;
    }
  }

  lemma ConvergedUp(
    kept: seq<Replica>, slots: Room, d: nat, rs: seq<Replica>, supply: nat -> Launch, image: string)
    requires |kept| < d && |rs| == Fill(d - |kept|, slots) && forall i :: supply(i).Launched?
    requires Supplied(rs, supply, image)
    ensures Converged(kept, slots, d, kept + rs, supply, image)
  {
    hide Supplied;
    assert (kept + rs)[..|kept|] == kept == kept[..|kept|] && (kept + rs)[|kept|..] == rs;
  }

  lemma ConvergedDown(kept: seq<Replica>, slots: Room, d: int, supply: nat -> Launch, image: string)
    requires |kept| >= d && forall i :: supply(i).Launched?
    ensures Converged(kept, slots, d, kept[..SliceStart(|kept|, d)], supply, image)
  {
    var k := SliceStart(|kept|, d);
    assert kept[..k][..k] == kept[..k];
  }

  lemma LedgerOf(w: World, claims: Claims)
    requires Consistent(w, claims)
    ensures LedgerMatches(w.ledger, claims)
  {
  }

  lemma SupplyIsDistinct(supply: nat -> Launch, claims: Claims, docker: Docker)
    requires FreshSupply(supply, 0, claims, docker)
    ensures forall i, j :: 0 <= i < j && supply(i).Launched? && supply(j).Launched? ==> supply(i).id != supply(j).id
  {
  }
}
