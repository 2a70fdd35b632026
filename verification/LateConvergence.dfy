/** How far a pass converges with the record that its turn listed, which others may have changed since. */
module LateConvergence {
  import opened Wrappers
  import opened Nodes
  import opened Scheduler
  import opened Routing
  import opened Worlds
  import opened Reconcile
  import opened ReconcileProofs
  import opened Convergence
  import opened Runs
  import opened Outdated
  import opened LateVisits

  lemma CreateRecords(w: World, spec: ServiceSpec, policy: Policy, launch: Launch)
    requires spec.name in w.store
    ensures var r, w' := Started(w.ledger, spec, policy, launch), CreateReplica(w, spec, policy, launch);
            && spec.name in w'.store && w'.ledger == Charged(w.ledger, spec, r)
            && w'.store[spec.name].replicas == w.store[spec.name].replicas + (if r.Some? then [r.value] else [])
  {
    hide Allocated, EndpointsOf, Merge, SelectNode;
  }

  /** What the attempts record, whatever state the ledger is in. */
  lemma {:induction false} CreateFromRecords(
    w: World, spec: ServiceSpec, policy: Policy, supply: nat -> Launch, k: nat, n: nat)
    requires spec.name in w.store && k <= n
    ensures var w' := CreateFrom(w, spec, policy, supply, k, n);
            && spec.name in w'.store
            && w'.store[spec.name].replicas
               == w.store[spec.name].replicas + StartedFrom(w.ledger, spec, policy, supply, k, n)
    decreases n - k
  {
    hide CreateReplica, Charged, Started;
    if k < n {
      CreateRecords(w, spec, policy, supply(k));
      CreateFromRecords(CreateReplica(w, spec, policy, supply(k)), spec, policy, supply, k + 1, n);
    }
  }

  /** What scaling leaves running. */
  lemma ScaleRecords(w: World, spec: ServiceSpec, desired: int, policy: Policy, supply: nat -> Launch)
    requires Named(w.store) && spec.name in w.store && UniqueIds(w.store[spec.name].replicas)
    ensures var running := RunningOf(w.store[spec.name].replicas);
            var w' := Scale(w, spec, desired, running, policy, supply);
            && spec.name in w'.store
            && RunningOf(w'.store[spec.name].replicas) == ScaledRunning(w, spec, desired, running, policy, supply)
  {
    hide CreateFrom, RemoveEach, StartedFrom, RunningOf, UniqueIds, Without;
    var s := spec.name;
    var rs := w.store[s].replicas;
    var running := RunningOf(rs);
    var k := SliceStart(|running|, desired);
    if |running| < desired {
      var started := StartedFrom(w.ledger, spec, policy, supply, 0, desired - |running|);
      CreateFromRecords(w, spec, policy, supply, 0, desired - |running|);
      StartedAreRunning(w.ledger, spec, policy, supply, 0, desired - |running|);
      RunningAppend(rs, started);
      assert running[..k] == running;
    } else if |running| > desired {
      RemoveEachParts(w, spec, running[k..]);
      HeadRemains(rs, k);
      assert running[..k] + [] == running[..k];
    } else {
      assert running[..k] + [] == running;
    }
  }

  /** When Docker refuses nothing: the pass keeps the live replicas of the listed record that are on the listed image, cut
      to the listed count in Python's slicing, and starts as many more as were wanted or as there are slots. Their image is
      the listed one, or after stale replicas were removed the one stored then. The ledger may go wrong in the pass. */
  lemma LatePassConverges(w: World, svc: Service, policy: Policy, supply: nat -> Launch, claims: Claims)
    requires Consistent(w, claims) && RoutesMatch(w) && ListedBefore(w, svc)
    requires svc.spec.name in w.store || svc.replicas != []
    requires FreshSupply(supply, 0, claims, w.docker) && forall i :: supply(i).Launched?
    ensures var s, end := svc.spec.name, ReconcileService(w, svc, policy, supply);
            && s in end.store
            && Converged(Kept(w.docker, svc), TotalSlots(AfterStale(w, svc).ledger, svc.spec.cpu, svc.spec.mem),
                         svc.spec.replicas, RunningOf(end.store[s].replicas), supply, SpecAfterStale(w, svc).image)
  {
    hide Consistent, RoutesMatch, SettleStatus, Scale, AfterStale, FreshSupply, Kept, ReconcileService, RunningOf,
         TotalSlots, UniqueIds, Unheld, ScaledRunning, Converged, Refunds, Midway, RemoveEach, Refresh;
    var s, d, kept := svc.spec.name, svc.spec.replicas, Kept(w.docker, svc);
    var w2, spec2 := AfterStale(w, svc), SpecAfterStale(w, svc);
    LatePassUnfolds(w, svc, policy, supply, claims);
    ReadyLate(w, svc, supply, claims);
    ScaleRecords(w2, spec2, d, policy, supply);
    SettledRecords(Scale(w2, spec2, d, kept, policy, supply), s);
    SupplyIsDistinct(supply, claims, w.docker);
    ScaledConverged(w2, spec2, d, kept, policy, supply);
  }

  /** What scaling finds. */
  lemma ReadyLate(w: World, svc: Service, supply: nat -> Launch, claims: Claims)
    requires Consistent(w, claims) && RoutesMatch(w) && ListedBefore(w, svc)
    requires svc.spec.name in w.store || svc.replicas != []
    requires FreshSupply(supply, 0, claims, w.docker)
    ensures var s, w2 := svc.spec.name, AfterStale(w, svc);
            && w2 == RemoveEach(Refresh(w, svc).world, svc.spec, StaleIn(w.docker, svc))
            && Named(w2.store) && s in w2.store && UniqueIds(w2.store[s].replicas)
            && RunningOf(w2.store[s].replicas) == Kept(w.docker, svc)
            && Unheld(w2.ledger, supply, 0) && SameShape(SpecAfterStale(w, svc), svc.spec)
  {
    hide Consistent, RoutesMatch, FreshSupply, Kept, RunningOf, Midway, RemoveEach, Refresh, Refunds, Unheld, Claimed;
    var gone := DeadOf(w.docker, svc.replicas) + StaleIn(w.docker, svc);
    var w2 := AfterStale(w, svc);
    MidwayAfterStale(w, svc, claims);
    MidwayHas(w, svc, w2, gone, claims);
    LedgerOf(w, claims);
    RefundedIsUsable(w.ledger, claims, svc.spec.cpu, svc.spec.mem, gone, supply, w.docker);
    ClaimedIsDistinct(w2.store, claims - Ids(gone));
    DistinctInService(w2.store, svc.spec.name);
  }

  lemma SettledRecords(w: World, s: string)
    requires s in w.store
    ensures s in SettleStatus(w, s).store && SettleStatus(w, s).store[s].replicas == w.store[s].replicas
  {
    hide RunningOf;
  }
}
