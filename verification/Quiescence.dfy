/** A second pass with nothing changed outside does nothing, exactly when the wanted count is one a pass can reach. */
module Quiescence {
  import opened Wrappers
  import opened Nodes
  import opened Scheduler
  import opened Routing
  import opened Worlds
  import opened Reconcile
  import opened ReconcileProofs
  import opened Convergence

  /** Nothing about service `s` is left for a pass to do. */
  ghost predicate Settled(w: World, s: string)
    requires s in w.store
  {
    var svc := w.store[s];
    var running := RunningOf(svc.replicas);
    && (forall r :: r in svc.replicas && r.status == Running ==> Up(w.docker, r) && !Stale(r, svc.spec.image))
    && (|running| == svc.spec.replicas
        || (|running| < svc.spec.replicas && SelectNode(BinPack, w.ledger, svc.spec.cpu, svc.spec.mem).None?)
        || (running == [] && svc.spec.replicas < 0))
    && svc.status == (if running != [] then Running else Degraded)
    && RoutesAgree(w, s) && UniqueReplicas(w.routes[s])
  }

  lemma {:induction false} RefreshLoopIdle(docker: Docker, ledger: Ledger, spec: ServiceSpec, todo: seq<Replica>)
    requires forall r :: r in todo && r.status == Running ==>
               Up(docker, r) && Allocated(ledger, r.node, r.id, spec.cpu, spec.mem) == ledger
    ensures RefreshLoop(docker, ledger, spec, todo) == Observation(docker, ledger, todo, false)
  {
    if todo != [] {
      assert todo[0] in todo;
      RefreshLoopIdle(docker, ledger, spec, todo[1..]);
      assert todo == [todo[0]] + todo[1..];
    }
  }

  lemma {:induction false} NothingToCreate(
    w: World, spec: ServiceSpec, policy: Policy, supply: nat -> Launch, k: nat, n: nat)
    requires k <= n && SelectNode(policy, w.ledger, spec.cpu, spec.mem).None?
    ensures CreateFrom(w, spec, policy, supply, k, n) == w
    decreases n - k
  {
    if k < n {
      NothingToCreate(w, spec, policy, supply, k + 1, n);
    }
  }

  lemma {:induction false} NoneStale(rs: seq<Replica>, image: string)
    requires forall r :: r in rs ==> !Stale(r, image)
    ensures StaleOf(rs, image) == []
  {
    if rs != [] {
      assert rs[0] in rs;
      NoneStale(rs[1..], image);
    }
  }

  lemma HeldIsIdle(w: World, s: string, claims: Claims)
    requires Consistent(w, claims) && s in w.store
    ensures forall r :: r in w.store[s].replicas ==>
              Allocated(w.ledger, r.node, r.id, w.store[s].spec.cpu, w.store[s].spec.mem) == w.ledger
  {
    forall r | r in w.store[s].replicas
      ensures Allocated(w.ledger, r.node, r.id, w.store[s].spec.cpu, w.store[s].spec.mem) == w.ledger
    {
      var k :| 0 <= k < |w.store[s].replicas| && w.store[s].replicas[k] == r;
      assert Holds(w.store, s, k, r.id);
      AllocateHeld(w.ledger, claims, r.id);
    }
  }

  /** A pass over a settled service changes nothing at all: store, ledger, containers, routes. */
  lemma SettledPassIsIdle(w: World, s: string, policy: Policy, supply: nat -> Launch, claims: Claims)
    requires Consistent(w, claims) && s in w.store && Settled(w, s)
    ensures ReconcileService(w, w.store[s], policy, supply) == w
  {
    var svc := w.store[s];
    HeldIsIdle(w, s, claims);
    assert svc.spec.name == s;
    hide Consistent;
    RefreshLoopIdle(w.docker, w.ledger, svc.spec, svc.replicas);
    SyncIdle(w, s);
    assert Refresh(w, svc) == Refreshed(w, svc);
    var running := RunningOf(svc.replicas);
    RunningMembers(svc.replicas);
    NoneStale(running, svc.spec.image);
    if |running| < svc.spec.replicas {
      assert SelectNode(policy, w.ledger, svc.spec.cpu, svc.spec.mem).None?;
      NothingToCreate(w, svc.spec, policy, supply, 0, svc.spec.replicas - |running|);
    }
  }

  // ---- The first pass settles the service ----

  /** No two replicas of the list share a container. */
  ghost predicate OwnContainers(rs: seq<Replica>) {
    forall i, j :: 0 <= i < j < |rs| ==> rs[i].container != rs[j].container
  }

  /** Refreshing leaves only running replicas whose containers are up, under the address now recorded. */
  lemma {:induction false} ObservedUp(docker: Docker, rs: seq<Replica>)
    requires OwnContainers(rs)
    ensures var seen := Observed(docker, rs);
            && (forall r :: r in seen && r.status == Running ==> Up(docker, r))
            && OwnContainers(seen) && Containers(seen) <= Containers(rs)
            && Containers(seen) !! Containers(DeadOf(docker, rs))
            && Containers(DeadOf(docker, rs)) <= Containers(rs)
  {
    if rs != [] {
      ObservedUp(docker, rs[1..]);
      OwnTail(rs);
      var rest, dead := Observed(docker, rs[1..]), DeadOf(docker, rs[1..]);
      assert rs == [rs[0]] + rs[1..];
      assert Containers(rs) == {rs[0].container} + Containers(rs[1..]);
      if Dead(docker, rs[0]) {
        assert Containers([rs[0]] + dead) == {rs[0].container} + Containers(dead);
      } else {
        var seen := if rs[0].status == Running then Observe(docker, rs[0]) else rs[0];
        assert Containers([seen] + rest) == {rs[0].container} + Containers(rest);
        OwnCons(seen, rest);
      }
    }
  }

  lemma OwnTail(rs: seq<Replica>)
    requires OwnContainers(rs) && rs != []
    ensures OwnContainers(rs[1..]) && rs[0].container !in Containers(rs[1..])
  {
  }

  lemma OwnCons(r: Replica, rs: seq<Replica>)
    requires OwnContainers(rs) && r.container !in Containers(rs)
    ensures OwnContainers([r] + rs)
  {
    forall i | 0 <= i < |rs| ensures rs[i].container != r.container {
      assert rs[i] in rs;
    }
  }

  lemma {:induction false} OwnFiltered(rs: seq<Replica>, image: string)
    requires OwnContainers(rs)
    ensures OwnContainers(RunningOf(rs)) && Containers(RunningOf(rs)) <= Containers(rs)
    ensures OwnContainers(CurrentOf(rs, image)) && Containers(CurrentOf(rs, image)) <= Containers(rs)
    ensures Containers(StaleOf(rs, image)) <= Containers(rs)
    ensures Containers(CurrentOf(rs, image)) !! Containers(StaleOf(rs, image))
  {
    if rs != [] {
      OwnTail(rs);
      OwnFiltered(rs[1..], image);
      assert rs == [rs[0]] + rs[1..];
      assert Containers(rs) == {rs[0].container} + Containers(rs[1..]);
      if rs[0].status == Running {
        OwnCons(rs[0], RunningOf(rs[1..]));
        assert Containers([rs[0]] + RunningOf(rs[1..])) == {rs[0].container} + Containers(RunningOf(rs[1..]));
      }
      if Stale(rs[0], image) {
        assert Containers([rs[0]] + StaleOf(rs[1..], image)) == {rs[0].container} + Containers(StaleOf(rs[1..], image));
      } else {
        OwnCons(rs[0], CurrentOf(rs[1..], image));
        assert Containers([rs[0]] + CurrentOf(rs[1..], image)) == {rs[0].container} + Containers(CurrentOf(rs[1..], image));
      }
    }
  }

  /** Containers removed before scaling are not those of the kept replicas, which therefore stay up. */
  lemma KeptUp(w: World, s: string)
    requires s in w.store && OwnContainers(w.store[s].replicas)
    ensures var svc := w.store[s];
            var kept := Kept(w.docker, svc);
            && AllUp(w.docker - Containers(DeadOf(w.docker, svc.replicas)) - Containers(StaleIn(w.docker, svc)), kept)
            && OwnContainers(kept) && (forall r :: r in kept ==> !Stale(r, svc.spec.image))
  {
    var svc := w.store[s];
    var seen := Observed(w.docker, svc.replicas);
    ObservedUp(w.docker, svc.replicas);
    RunningMembers(seen);
    CurrentMembers(RunningOf(seen), svc.spec.image);
    OwnFiltered(seen, svc.spec.image);
    OwnFiltered(RunningOf(seen), svc.spec.image);
    var kept := Kept(w.docker, svc);
    hide Observed, RunningOf, CurrentOf, StaleOf, DeadOf, OwnContainers;
    forall r | r in kept
      ensures Up(w.docker - Containers(DeadOf(w.docker, svc.replicas)) - Containers(StaleIn(w.docker, svc)), r)
    {
      assert r.container in Containers(kept);
      assert r.container in Containers(seen);
    }
  }

  lemma UpWithout(docker: Docker, rs: seq<Replica>, k: nat)
    requires AllUp(docker, rs) && OwnContainers(rs) && k <= |rs|
    ensures AllUp(docker - Containers(rs[k..]), rs[..k])
  {
    forall r | r in rs[..k] ensures Up(docker - Containers(rs[k..]), r) {
      var i :| 0 <= i < k && rs[i] == r;
      assert rs[i] in rs;
      forall x | x in rs[k..] ensures x.container != r.container {
        var j :| 0 <= j < |rs[k..]| && rs[k..][j] == x;
        assert rs[k + j] == x;
      }
    }
  }

  lemma CreatedUp(
    w2: World, spec: ServiceSpec, n: nat, kept: seq<Replica>, policy: Policy, supply: nat -> Launch, claims2: Claims)
    requires FreshSupply(supply, 0, claims2, w2.docker) && FaithfulAddresses(supply)
    requires AllUp(w2.docker, kept) && forall r :: r in kept ==> !Stale(r, spec.image)
    ensures var running := kept + StartedFrom(w2.ledger, spec, policy, supply, 0, n);
            && AllUp(CreateFrom(w2, spec, policy, supply, 0, n).docker, running)
            && forall r :: r in running ==> !Stale(r, spec.image)
  {
    hide CreateFrom, StartedFrom, FreshSupply;
    CreateFromDocker(w2, spec, policy, supply, 0, n, claims2);
    StartedAreRunning(w2.ledger, spec, policy, supply, 0, n);
  }

  lemma CutUp(w2: World, s: string, k: nat, claims2: Claims)
    requires Consistent(w2, claims2) && TidyRoutes(w2.routes) && s in w2.store
    requires k <= |RunningOf(w2.store[s].replicas)|
    requires AllUp(w2.docker, RunningOf(w2.store[s].replicas)) && OwnContainers(RunningOf(w2.store[s].replicas))
    ensures var kept := RunningOf(w2.store[s].replicas);
            AllUp(RemoveEach(w2, w2.store[s].spec, kept[k..]).docker, kept[..k])
  {
    hide Consistent, TidyRoutes, RemoveEach, RunningOf, UniqueIds, SyncedStep;
    ConsistentIsUnique(w2, s, claims2);
    HeadRemains(w2.store[s].replicas, k);
    var kept := RunningOf(w2.store[s].replicas);
    CurrentCopies(w2, s, kept[k..], claims2);
    RemoveEachKeeps(w2, s, kept[k..], claims2);
    UpWithout(w2.docker, kept, k);
  }

  /** After scaling, every running replica's container is up and runs the wanted image. */
  lemma ScaledUp(
    w2: World, s: string, desired: int, kept: seq<Replica>, policy: Policy, supply: nat -> Launch, claims2: Claims)
    requires Consistent(w2, claims2) && TidyRoutes(w2.routes) && s in w2.store
    requires kept == RunningOf(w2.store[s].replicas)
    requires FreshSupply(supply, 0, claims2, w2.docker) && FaithfulAddresses(supply)
    requires AllUp(w2.docker, kept) && OwnContainers(kept)
    requires forall r :: r in kept ==> !Stale(r, w2.store[s].spec.image)
    ensures var spec := w2.store[s].spec;
            var running := ScaledRunning(w2, spec, desired, kept, policy, supply);
            && AllUp(Scale(w2, spec, desired, kept, policy, supply).docker, running)
            && forall r :: r in running ==> !Stale(r, spec.image)
  {
    hide Consistent, TidyRoutes, CreateFrom, StartedFrom, FreshSupply, OwnContainers, RunningOf, RemoveEach;
    var spec := w2.store[s].spec;
    var k := SliceStart(|kept|, desired);
    if |kept| < desired {
      CreatedUp(w2, spec, desired - |kept|, kept, policy, supply, claims2);
      assert kept[..k] == kept;
    } else {
      if |kept| > desired {
        CutUp(w2, s, k, claims2);
      }
      assert kept[..k] + [] == kept[..k];
      assert |kept| == desired ==> kept[..k] == kept;
    }
  }

  lemma NoRoomLeft(
    w2: World, spec: ServiceSpec, n: nat, policy: Policy, supply: nat -> Launch, claims2: Claims)
    requires LedgerMatches(w2.ledger, claims2) && FreshSupply(supply, 0, claims2, w2.docker)
    requires forall i :: supply(i).Launched?
    requires spec.cpu >= 0 && spec.mem >= 0
    ensures |StartedFrom(w2.ledger, spec, policy, supply, 0, n)| < n ==>
              SelectNode(BinPack, CreateFrom(w2, spec, policy, supply, 0, n).ledger, spec.cpu, spec.mem).None?
  {
    hide CreateFrom, StartedFrom, TotalSlots, Unheld, LedgerMatches;
    FreshIsUnheld(w2.ledger, w2.docker, supply, 0, claims2);
    SupplyIsDistinct(supply, claims2, w2.docker);
    StartedCount(w2.ledger, spec, policy, supply, 0, n);
    SlotsAfter(w2, spec, policy, supply, 0, n);
    NoSlotsIffNoneFits(CreateFrom(w2, spec, policy, supply, 0, n).ledger, spec.cpu, spec.mem);
  }

  lemma SettledFromParts(w: World, s: string, running: seq<Replica>)
    requires s in w.store && running == RunningOf(w.store[s].replicas)
    requires AllUp(w.docker, running) && forall r :: r in running ==> !Stale(r, w.store[s].spec.image)
    requires |running| == w.store[s].spec.replicas
          || (|running| < w.store[s].spec.replicas
              && SelectNode(BinPack, w.ledger, w.store[s].spec.cpu, w.store[s].spec.mem).None?)
          || (running == [] && w.store[s].spec.replicas < 0)
    requires w.store[s].status == (if running != [] then Running else Degraded)
    requires RoutesAgree(w, s) && TidyRoutes(w.routes)
    ensures Settled(w, s)
  {
    RunningMembers(w.store[s].replicas);
  }

  /** The count a pass can reach: nothing asks it to slice from the end of a longer list. */
  predicate Reachable(desired: int, kept: nat) {
    desired >= 0 || kept + desired <= 0
  }

  /** With containers of their own, truthful addresses and a reachable count, one pass settles the service, also when
      it ran out of capacity on the way. */
  lemma PassSettles(w: World, s: string, policy: Policy, supply: nat -> Launch, claims: Claims)
    requires Consistent(w, claims) && TidyRoutes(w.routes) && s in w.store && OwnContainers(w.store[s].replicas)
    requires FreshSupply(supply, 0, claims, w.docker) && FaithfulAddresses(supply)
    requires forall i :: supply(i).Launched?
    requires Reachable(w.store[s].spec.replicas, |Kept(w.docker, w.store[s])|)
    ensures var w' := ReconcileService(w, w.store[s], policy, supply);
            s in w'.store && Settled(w', s)
  {
    hide Consistent, TidyRoutes, AfterStale, FreshSupply, Kept, RoutesAgree, ReconcileService, RunningOf,
         CreateFrom, StartedFrom, OwnContainers, AllUp, SelectNode, RemoveEach, DeadOf, StaleIn, Stale, Settled, UniqueIds;
    var svc := w.store[s];
    var d, kept, w2 := svc.spec.replicas, Kept(w.docker, svc), AfterStale(w, svc);
    var claims2 := PreparedKeeps(w, s, claims);
    FreshSupplyShrinks(supply, claims, w.docker, claims2, w2.docker);
    KeptUp(w, s);
    ScaledUp(w2, s, d, kept, policy, supply, claims2);
    var w3 := Scale(w2, svc.spec, d, kept, policy, supply);
    var claims3 := ScaleKeeps(w2, s, d, policy, supply, claims2);
    SettleKeeps(w3, s, claims3);
    PassUnfolds(w, s, policy, supply, claims);
    var claims' := PassKeeps(w, s, policy, supply, claims);
    var w' := ReconcileService(w, svc, policy, supply);
    LedgerOf(w2, claims2);
    ConsistentIsUnique(w, s, claims);
    if |kept| < d {
      NoRoomLeft(w2, svc.spec, d - |kept|, policy, supply, claims2);
    }
    SettledFromParts(w', s, RunningOf(w'.store[s].replicas));
  }

  /** A second pass, with nothing changed in between, leaves the whole state as it is exactly when the wanted count
      is not negative or the first pass had nothing left to keep. */
  lemma SecondPassIsIdleIff(
    w: World, s: string, policy: Policy, supply: nat -> Launch, supply': nat -> Launch, claims: Claims)
    requires Consistent(w, claims) && TidyRoutes(w.routes) && s in w.store && OwnContainers(w.store[s].replicas)
    requires FreshSupply(supply, 0, claims, w.docker) && FaithfulAddresses(supply)
    requires forall i :: supply(i).Launched?
    ensures var w' := ReconcileService(w, w.store[s], policy, supply);
            s in w'.store &&
            (ReconcileService(w', w'.store[s], policy, supply') == w'
             <==> Reachable(w.store[s].spec.replicas, |Kept(w.docker, w.store[s])|))
  {
    hide Consistent, TidyRoutes, FreshSupply, ReconcileService, RunningOf, OwnContainers, Settled, Kept, AfterStale, RoutesAgree;
    var svc := w.store[s];
    var w' := ReconcileService(w, svc, policy, supply);
    var claims' := PassKeeps(w, s, policy, supply, claims);
    if Reachable(svc.spec.replicas, |Kept(w.docker, svc)|) {
      PassSettles(w, s, policy, supply, claims);
      SettledPassIsIdle(w', s, policy, supply', claims');
    } else {
      var running := RunningOf(w'.store[s].replicas);
      var _ := PassKeeps(w', s, policy, supply', claims');
      KeptIsShorter(w'.docker, w'.store[s]);
      assert |RunningOf(ReconcileService(w', w'.store[s], policy, supply').store[s].replicas)| < |running|;
    }
  }

  lemma {:induction false} FiltersShorten(docker: Docker, rs: seq<Replica>, image: string)
    ensures |RunningOf(Observed(docker, rs))| <= |RunningOf(rs)|
    ensures |CurrentOf(rs, image)| <= |rs|
  {
    if rs != [] {
      FiltersShorten(docker, rs[1..], image);
    }
  }

  lemma KeptIsShorter(docker: Docker, svc: Service)
    ensures |Kept(docker, svc)| <= |RunningOf(svc.replicas)|
  {
    FiltersShorten(docker, svc.replicas, svc.spec.image);
    FiltersShorten(docker, RunningOf(Observed(docker, svc.replicas)), svc.spec.image);
  }

  /** The failing family is real: while the wanted count is negative, every pass drops that many replicas more, until none
      is left. */
  lemma NegativeCountKeepsShrinking(w: World, s: string, policy: Policy, supply: nat -> Launch, claims: Claims)
    requires Consistent(w, claims) && TidyRoutes(w.routes) && s in w.store && w.store[s].spec.replicas < 0
    ensures var svc := w.store[s];
            var w' := ReconcileService(w, svc, policy, supply);
            && s in w'.store && w'.store[s].spec == svc.spec
            && |RunningOf(w'.store[s].replicas)| == Max(0, |Kept(w.docker, svc)| + svc.spec.replicas)
  {
    hide Consistent, TidyRoutes, Kept, ReconcileService, RunningOf, AfterStale, StartedFrom, RoutesAgree;
    var _ := PassKeeps(w, s, policy, supply, claims);
  }
}
