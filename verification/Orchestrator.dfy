/** The orchestrator object, with its collaborators; each method is proved against the state functions. */
module Orchestration {
  import opened Wrappers
  import opened Nodes
  import opened Scheduler
  import opened Routing
  import opened Worlds
  import opened Reconcile
  import opened Runs
  import opened Outdated
  import opened Lineage
  import opened Platforms
  import opened Rollouts
  import opened Interplay
  import opened Batches

  /** One turn of the refresh loop. */
  function ObserveOne(docker: Docker, ledger: Ledger, spec: ServiceSpec, r: Replica): Observation {
    if r.status != Running then
      Observation(docker, ledger, [r], false)
    else if !IsRunning(docker, r.container) then
      Observation(docker - {r.container}, Deallocated(ledger, r.node, r.id, spec.cpu, spec.mem), [], true)
    else
      var seen := Observe(docker, r);
      Observation(docker, Allocated(ledger, r.node, r.id, spec.cpu, spec.mem), [seen], seen != r)
  }

  function Onto(observed: seq<Replica>, changed: bool, rest: Observation): Observation {
    rest.(replicas := observed + rest.replicas, changed := changed || rest.changed)
  }

  lemma LoopStep(docker: Docker, ledger: Ledger, spec: ServiceSpec, todo: seq<Replica>)
    requires todo != []
    ensures var o := ObserveOne(docker, ledger, spec, todo[0]);
            RefreshLoop(docker, ledger, spec, todo)
            == Onto(o.replicas, o.changed, RefreshLoop(o.docker, o.ledger, spec, todo[1..]))
  {
    hide Allocated, Deallocated;
    var o := ObserveOne(docker, ledger, spec, todo[0]);
    var rest := RefreshLoop(o.docker, o.ledger, spec, todo[1..]);
    assert [] + rest.replicas == rest.replicas;
  }

  lemma OntoTwice(a: seq<Replica>, changedA: bool, b: seq<Replica>, changedB: bool, rest: Observation)
    ensures Onto(a, changedA, Onto(b, changedB, rest)) == Onto(a + b, changedA || changedB, rest)
  {
    assert a + (b + rest.replicas) == a + b + rest.replicas;
  }

  lemma StepKeepsKnown(docker: Docker, ledger: Ledger, spec: ServiceSpec, r: Replica)
    ensures forall c :: IsRunning(ObserveOne(docker, ledger, spec, r).docker, c) ==> IsRunning(docker, c)
    ensures forall n :: Known(ledger, n) ==> Known(ObserveOne(docker, ledger, spec, r).ledger, n)
  {
    SameIds(ledger, ObserveOne(docker, ledger, spec, r).ledger);
  }

  class Orchestrator {
    const policy: Policy
    const nodeManager: NodeManager
    const routingTable: RedisRoutingTable
    var store: Store                      // the service store
    var docker: Docker                    // the Docker daemon
    var deployments: map<string, Status>  // the deployment store, reduced to each rollout's status

    ghost function State(): World
      reads this, nodeManager, routingTable
    {
      World(store, docker, nodeManager.nodes, routingTable.redis)
    }

    constructor (policy: Policy, nodeManager: NodeManager, routingTable: RedisRoutingTable)
      ensures State() == World(map[], map[], nodeManager.nodes, routingTable.redis)
      ensures this.policy == policy && this.nodeManager == nodeManager && this.routingTable == routingTable
    {
      this.policy, this.nodeManager, this.routingTable := policy, nodeManager, routingTable;
      store, docker, deployments := map[], map[], map[];
    }

    method SyncRoutingTable(svc: Service)
      modifies routingTable
      ensures State() == Sync(old(State()), svc)
      ensures svc.spec.name in routingTable.redis
      ensures Serves(routingTable.redis[svc.spec.name], svc.replicas, svc.spec.port)
    {
      hide Serves;
      var endpoints: seq<Endpoint> := [];
      for i := 0 to |svc.replicas|
        invariant EndpointsOf(svc.replicas, svc.spec.port) == endpoints + EndpointsOf(svc.replicas[i..], svc.spec.port)
      {
        var r := svc.replicas[i];
        assert svc.replicas[i..][1..] == svc.replicas[i + 1..];
        if r.status == Running && r.ip != "" {
          endpoints := endpoints + [Endpoint(r.id, r.ip, svc.spec.port, false)];
        }
      }
      assert endpoints + [] == endpoints;
      SyncServes(State(), svc);
      routingTable.UpdateService(svc.spec.name, endpoints);
    }

    /** One turn of the observation loop: the replica to keep, if any, and whether it differs from the record. */
    method ObserveReplica(spec: ServiceSpec, replica: Replica) returns (kept: seq<Replica>, changed: bool)
      requires replica.status == Running && IsRunning(docker, replica.container) ==> Known(nodeManager.nodes, replica.node)
      modifies this`docker, nodeManager
      ensures Observation(docker, nodeManager.nodes, kept, changed)
           == ObserveOne(old(docker), old(nodeManager.nodes), spec, replica)
    {
      changed := false;
      if replica.status != Running {
        kept := [replica];
      } else if !IsRunning(docker, replica.container) {
        docker := docker - {replica.container};
        nodeManager.Deallocate(replica.node, replica.id, spec.cpu, spec.mem);
        kept, changed := [], true;
      } else {
        var r := replica;
        var ip := docker[r.container].ip;
        if ip != "" && r.ip != ip {
          r := r.(ip := ip);
          changed := true;
        }
        var known := nodeManager.Allocate(r.node, r.id, spec.cpu, spec.mem);
        assert known;
        kept := [r];
      }
    }

    /** The observation loop: what is kept of the recorded replicas, and whether anything differs from the record. */
    method ObserveReplicas(spec: ServiceSpec, replicas: seq<Replica>) returns (observed: seq<Replica>, changed: bool)
      requires forall r :: r in replicas && r.status == Running && IsRunning(docker, r.container) ==>
                 Known(nodeManager.nodes, r.node)
      modifies this`docker, nodeManager
      ensures RefreshLoop(old(docker), old(nodeManager.nodes), spec, replicas)
           == Observation(docker, nodeManager.nodes, observed, changed)
    {
      changed := false;
      observed := [];
      ghost var target := RefreshLoop(docker, nodeManager.nodes, spec, replicas);
      for i := 0 to |replicas|
        invariant target == Onto(observed, changed, RefreshLoop(docker, nodeManager.nodes, spec, replicas[i..]))
        invariant forall c :: IsRunning(docker, c) ==> IsRunning(old(docker), c)
        invariant forall n :: Known(old(nodeManager.nodes), n) ==> Known(nodeManager.nodes, n)
      {
        hide RefreshLoop, Known, IsRunning;
        label before:
        ghost var docker0, nodes0 := docker, nodeManager.nodes;
        var kept, changedHere := ObserveReplica(spec, replicas[i]);
        StepKeepsKnown(docker0, nodes0, spec, replicas[i]);
        LoopStep(docker0, nodes0, spec, replicas[i..]);
        assert replicas[i..][0] == replicas[i] && replicas[i..][1..] == replicas[i + 1..];
        OntoTwice(observed, changed, kept, changedHere, RefreshLoop(docker, nodeManager.nodes, spec, replicas[i + 1..]));
        observed, changed := observed + kept, changed || changedHere;
      }
      assert observed + [] == observed;
    }

    /** `_refresh_observed_replicas`; allocating on a node the ledger does not know would raise KeyError. */
    method RefreshObservedReplicas(svc: Service) returns (svc': Service)
      requires forall r :: r in svc.replicas && r.status == Running && IsRunning(docker, r.container) ==>
                 Known(nodeManager.nodes, r.node)
      modifies this, nodeManager, routingTable
      ensures Refreshed(State(), svc') == Refresh(old(State()), svc)
      ensures deployments == old(deployments)
    {
      var observed, changed := ObserveReplicas(svc.spec, svc.replicas);
      svc' := svc;
      if changed {
        svc' := svc.(replicas := observed);
        store := store[svc.spec.name := svc'];
      }
      SyncRoutingTable(svc');
    }

    method RemoveReplica(spec: ServiceSpec, replica: Replica)
      modifies this, nodeManager, routingTable
      ensures State() == Reconcile.RemoveReplica(old(State()), spec, replica)
      ensures deployments == old(deployments)
    {
      docker := docker - {replica.container};
      nodeManager.Deallocate(replica.node, replica.id, spec.cpu, spec.mem);
      if spec.name in store {
        var current := store[spec.name];
        current := current.(replicas := Without(current.replicas, {replica.id}));
        store := store[spec.name := current];
        SyncRoutingTable(current);
      }
    }

    method CreateReplica(spec: ServiceSpec, launch: Launch)
      modifies this, nodeManager, routingTable
      ensures State() == Reconcile.CreateReplica(old(State()), spec, policy, launch)
      ensures deployments == old(deployments)
    {
      var target := SelectNode(policy, nodeManager.nodes, spec.cpu, spec.mem);
      if target.None? {
        return;
      }
      if launch.Refused? {
        return;
      }
      docker := docker[launch.container := Container(true, launch.inspected)];
      var _ := nodeManager.Allocate(target.value.id, launch.id, spec.cpu, spec.mem);
      var r := Replica(launch.id, launch.container, target.value.id, Running, launch.ip, spec.image);
      if spec.name in store {
        var current := store[spec.name];
        current := current.(replicas := current.replicas + [r]);
        store := store[spec.name := current];
        SyncRoutingTable(current);
      }
    }

    method RemoveAll(spec: ServiceSpec, rs: seq<Replica>)
      modifies this, nodeManager, routingTable
      ensures State() == RemoveEach(old(State()), spec, rs)
      ensures deployments == old(deployments)
    {
      for i := 0 to |rs|
        invariant RemoveEach(old(State()), spec, rs) == RemoveEach(State(), spec, rs[i..])
        invariant deployments == old(deployments)
      {
        assert rs[i..][1..] == rs[i + 1..];
        RemoveReplica(spec, rs[i]);
      }
    }

    /** `_reconcile_service`. */
    method ReconcileService(svc: Service, supply: nat -> Launch)
      requires forall r :: r in svc.replicas && r.status == Running && IsRunning(docker, r.container) ==>
                 Known(nodeManager.nodes, r.node)
      modifies this, nodeManager, routingTable
      ensures State() == Reconcile.ReconcileService(old(State()), svc, policy, supply)
      ensures deployments == old(deployments)
    {
      hide Refresh, Reconcile.RemoveReplica, Reconcile.CreateReplica, RunningOf, StaleOf, Known;
      var spec := svc.spec;
      var state := RefreshObservedReplicas(svc);
      var running := RunningOf(state.replicas);
      var desired := spec.replicas;
      var stale := StaleOf(running, spec.image);
      RemoveAll(state.spec, stale);
      if stale != [] {
        if spec.name in store {
          state := store[spec.name];
        }
        running := RunningOf(state.replicas);
      }
      if |running| < desired {
        ghost var before := State();
        var wanted := desired - |running|;
        for i := 0 to wanted
          invariant CreateFrom(before, state.spec, policy, supply, 0, wanted)
                 == CreateFrom(State(), state.spec, policy, supply, i, wanted)
          invariant deployments == old(deployments)
        {
          CreateReplica(state.spec, supply(i));
        }
      } else if |running| > desired {
        RemoveAll(state.spec, SliceFrom(running, desired));
      }
      if spec.name in store {
        var updated := store[spec.name];
        var status := if |RunningOf(updated.replicas)| >= 1 then Running else Degraded;
        if updated.status != status {
          store := store[spec.name := updated.(status := status)];
        }
      }
    }

    method TeardownService(svc: Service)
      modifies this, nodeManager, routingTable
      ensures State() == Reconcile.TeardownService(old(State()), svc)
      ensures deployments == old(deployments)
    {
      RemoveAll(svc.spec, svc.replicas);
      store := store - {svc.spec.name};
      routingTable.RemoveService(svc.spec.name);
    }

    /** The public `delete_service`. */
    method DeleteService(name: string)
      modifies this, nodeManager, routingTable
      ensures State() == Reconcile.DeleteService(old(State()), name)
      ensures deployments == old(deployments)
    {
      if name !in store {
        return;
      }
      var svc := store[name];
      for i := 0 to |svc.replicas|
        invariant ReleaseEach(old(State()), svc.spec, svc.replicas) == ReleaseEach(State(), svc.spec, svc.replicas[i..])
        invariant deployments == old(deployments)
      {
        var r := svc.replicas[i];
        assert svc.replicas[i..][0] == r && svc.replicas[i..][1..] == svc.replicas[i + 1..];
        docker := docker - {r.container};
        nodeManager.Deallocate(r.node, r.id, svc.spec.cpu, svc.spec.mem);
      }
      store := store - {name};
      routingTable.RemoveService(name);
    }

    /** An await: the other tasks run. */
    method Await(k: nat, env: (nat, World) -> World)
      modifies this, nodeManager, routingTable
      ensures State() == env(k, old(State()))
      ensures deployments == old(deployments)
    {
      var w := env(k, World(store, docker, nodeManager.nodes, routingTable.redis));
      store, docker := w.store, w.docker;
      nodeManager.nodes, routingTable.redis := w.ledger, w.routes;
    }

    /** One turn of `_reconcile_all` over the records `listed` when it began; the other tasks run before each visit. A
        replica on a node that the ledger does not know would raise KeyError. */
    method ReconcileAll(listed: seq<Service>, supplies: seq<nat -> Launch>, env: (nat, World) -> World)
      requires |listed| == |supplies|
      requires forall i, r :: 0 <= i < |listed| && r in listed[i].replicas ==> Known(nodeManager.nodes, r.node)
      requires forall k: nat, w: World, n :: Known(w.ledger, n) ==> Known(env(k, w).ledger, n)
      modifies this, nodeManager, routingTable
      ensures State() == TurnBeside(old(State()), listed, policy, supplies, env, 0)
      ensures deployments == old(deployments)
    {
      hide Reconcile.ReconcileService, Reconcile.TeardownService, Known;
      ghost var start := State();
      for i := 0 to |listed|
        invariant deployments == old(deployments)
        invariant TurnBeside(start, listed, policy, supplies, env, 0)
               == TurnBeside(State(), listed[i..], policy, supplies[i..], env, i)
        invariant forall n :: Known(start.ledger, n) ==> Known(nodeManager.nodes, n)
      {
        assert listed[i..][0] == listed[i] && supplies[i..][0] == supplies[i];
        assert listed[i..][1..] == listed[i + 1..] && supplies[i..][1..] == supplies[i + 1..];
        Await(i, env);
        VisitKeepsNodes(State(), listed[i], policy, supplies[i]);
        if listed[i].status == Deleting {
          TeardownService(listed[i]);
        } else {
          ReconcileService(listed[i], supplies[i]);
        }
      }
    }

    // ---- Rollout ----

    /** A sleep: the other tasks take these moves, among them visits with the records that the reconcile loop has listed. */
    method Sleep(moves: seq<Move>, listed: seq<Service>) returns (rest: seq<Service>)
      modifies this, nodeManager, routingTable
      ensures Platform(State(), rest) == RunMoves(Platform(old(State()), listed), moves)
      ensures deployments == old(deployments)
    {
      var p := RunMoves(Platform(World(store, docker, nodeManager.nodes, routingTable.redis), listed), moves);
      store, docker := p.world.store, p.world.docker;
      nodeManager.nodes, routingTable.redis := p.world.ledger, p.world.routes;
      rest := p.listed;
    }

    /** Poll until enough replicas run outside the batch, the service is gone, or the timeout is reached. */
    method WaitForReplacements(
      service: string, batch: seq<Replica>, plan: nat -> seq<Move>, clock: nat, listed: seq<Service>)
      returns (clock': nat, rest: seq<Service>, ghost sleeps: seq<Sleep>)
      requires service in store
      modifies this, nodeManager, routingTable
      ensures deployments == old(deployments)
      ensures 1 <= |sleeps| <= 30 && clock' == clock + |sleeps|
      ensures Slept(sleeps, plan, clock)
      ensures Chained(sleeps, Platform(old(State()), listed), Platform(State(), rest))
      ensures forall i :: 0 <= i < |sleeps| - 1 ==>
                var held := sleeps[i].after.world.store;
                service in held && |Replacements(held[service].replicas, batch)| < |batch|
      ensures |sleeps| < 30 && service in store ==> |Replacements(store[service].replicas, batch)| >= |batch|
      ensures WaitedFor(sleeps, service, batch)
      ensures service in store <==> Lasting(sleeps, service)
    {
      hide RunMoves, Chained, RunningOutside, Replacements;
      ghost var first := Platform(State(), listed);
      NoSleeps(first, plan, clock);
      var waited := 0;
      clock', rest, sleeps := clock, listed, [];
      while waited < WAIT_TIMEOUT
        invariant waited == WAIT_INTERVAL * |sleeps| && waited <= WAIT_TIMEOUT && clock' == clock + |sleeps|
        invariant deployments == old(deployments)
        invariant service in store && Slept(sleeps, plan, clock)
        invariant Chained(sleeps, first, Platform(State(), rest))
        invariant forall i :: 0 <= i < |sleeps| ==>
                    var held := sleeps[i].after.world.store;
                    service in held && |Replacements(held[service].replicas, batch)| < |batch|
        decreases WAIT_TIMEOUT - waited
      {
        ghost var before := Platform(State(), rest);
        rest := Sleep(plan(clock'), rest);
        ghost var sleep := Rollouts.Sleep.Sleep(before, Platform(State(), rest));
        ChainedMore(sleeps, first, sleep);
        waited, clock' := waited + WAIT_INTERVAL, clock' + 1;
        sleeps := sleeps + [sleep];
        if service !in store {
          break;
        }
        ReplacementsCounted(store[service].replicas, batch);
        if RunningOutside(store[service].replicas, Ids(batch)) >= |batch| {
          break;
        }
      }
    }

    /** Write the wanted count of a service. */
    method SetCount(service: string, count: int)
      requires service in store
      modifies this`store
      ensures State() == After(old(State()), Step.SetCount(service, count))
    {
      var current := store[service];
      store := store[service := current.(spec := current.spec.(replicas := count))];
    }

    /** One turn of the rollout loop: raise the count, wait, lower it again, remove the batch. If the service lasts, the
        count ends where it began, but for what others added to it, and the batch is no longer listed. */
    method ReplaceBatch(
      service: string, batch: seq<Replica>, plan: nat -> seq<Move>, clock: nat, listed: seq<Service>, done: nat,
      total: nat)
      returns (survived: bool, clock': nat, rest: seq<Service>, stage: Stage, ghost sleeps: seq<Sleep>)
      requires service in store && Named(store) && forall k: nat :: NamesKept(plan(k))
      modifies this, nodeManager, routingTable
      ensures deployments == old(deployments)
      ensures 1 <= |sleeps| <= 30 && clock' == clock + |sleeps| && Slept(sleeps, plan, clock)
      ensures survived <==> Lasting(sleeps, service)
      ensures survived <==> service in store
      ensures stage.batch == batch && stage.polls == |sleeps| && stage.progress == (done + |batch|, total)
      ensures survived ==>
                && Replaces(Platform(old(State()), listed), Platform(State(), rest), service, stage, plan, clock, sleeps)
                && store[service].spec.replicas == old(store)[service].spec.replicas + Drift(sleeps, service)
                && Ids(store[service].replicas) !! Ids(batch)
      ensures !survived ==>
                Chained(sleeps, Moved(Platform(old(State()), listed), Other(Step.SetCount(service, stage.raised))),
                        Platform(State(), rest))
    {
      hide Slept, Chained, Lasting, WaitedFor, Replacements, Reconcile.RemoveReplica, Ids, RunMoves, SleepMoves, NamesKept;
      ghost var start := Platform(State(), listed);
      SetCount(service, store[service].spec.replicas + |batch|);
      var raised := store[service].spec.replicas;
      ghost var first := Platform(State(), listed);
      clock', rest, sleeps := WaitForReplacements(service, batch, plan, clock, listed);
      survived := service in store;
      stage := Stage(batch, raised, clock' - clock, raised, (done + |batch|, total));
      if survived {
        RunAsleep(sleeps, plan, clock, first, Platform(State(), rest));
        SetCount(service, store[service].spec.replicas - |batch|);
        stage := stage.(lowered := store[service].spec.replicas);
        RemoveAll(store[service].spec, batch);
        ReplacesCount(start, Platform(State(), rest), service, stage, plan, clock, sleeps);
        ReplacesIds(start, Platform(State(), rest), service, stage, plan, clock, sleeps, {});
      }
    }

    /** The rollout's first write. */
    method MarkUpdating(service: string, image: string)
      requires service in store
      modifies this`store
      ensures State() == After(After(old(State()), SetImage(service, image)), SetStatus(service, Updating))
    {
      store := store[service := store[service].(spec := store[service].spec.(image := image), status := Updating)];
    }

    /** The rollout's last write. */
    method MarkRunning(service: string)
      modifies this`store
      ensures State() == After(old(State()), SetStatus(service, Running))
    {
      if service in store {
        store := store[service := store[service].(status := Running)];
      }
    }

    /** `_run_rollout`. The rollout is a run of the platform's moves, its own with what the others do in its sleeps. If the
        service lasts through these, every old replica is replaced in batches, in order; the wanted count ends where it
        began unless others change it, the image is the new one unless others change it, and no old replica is listed
        unless others bring it back. From a sound state, and beside moves that are legal as far as they are harmless, ledger
        and routes are right all along exactly if every visit, removal and edit was harmless when it came. */
    method RunRollout(
      deployment: string, service: string, image: string, surge: int, plan: nat -> seq<Move>, listed: seq<Service>)
      returns (report: RolloutReport, rest: seq<Service>, ghost sleeps: seq<Sleep>, ghost moves: seq<Move>)
      requires Named(store) && forall k: nat :: NamesKept(plan(k))
      modifies this, nodeManager, routingTable
      ensures deployments == old(deployments)[deployment := if service in old(store) then Running else Updating]
      ensures service !in old(store) ==> !report.survived && sleeps == [] && moves == []
      ensures Slept(sleeps, plan, 0)
      ensures service in old(store) ==> (report.survived <==> Lasting(sleeps, service))
      ensures forall i: nat :: i < |report.stages| ==> StageWaited(report.stages, i, sleeps, service)
      ensures Platform(State(), rest) == RunMoves(Platform(old(State()), listed), moves)
      ensures report.survived ==>
                && service in old(store) && service in store
                && moves == RolloutMoves(service, image, plan, report.stages) && |sleeps| == Clock(report.stages)
                && Replaced(report.stages, old(store)[service].replicas, Max(1, surge))
                && store[service].status == Running
                && store[service].spec.replicas == old(store)[service].spec.replicas + Drift(sleeps, service)
      ensures report.survived && Calm(sleeps, service) ==>
                && CountsKept(report.stages, old(store)[service].spec.replicas)
                && store[service].spec.replicas == old(store)[service].spec.replicas
      ensures report.survived && Steady(sleeps, service) ==> store[service].spec.image == image
      ensures report.survived && Parted(sleeps, service, Ids(old(store)[service].replicas)) ==>
                Ids(store[service].replicas) !! Ids(old(store)[service].replicas)
      ensures (service in old(store) && Sound(Platform(old(State()), listed))
               && OthersLegal(sleeps, plan, 0, Ids(old(store)[service].replicas))) ==>
                && LegalMoves(Platform(old(State()), listed), moves)
                && (StaysExact(Platform(old(State()), listed), moves)
                    <==> HarmlessMoves(Platform(old(State()), listed), moves))
    {
      hide Slept, Lasting, StageWaited, Flatten, Drift, Calm, Steady, Parted, Replaced, CountsKept, Ids, RunMoves,
           LegalMoves, StaysExact, HarmlessMoves, OthersLegal, Sound, Midway, Replaces, Chained, NamesKept, Orderly,
           StagesMoves, SleepMoves, Moved, After;
      deployments := deployments[deployment := Updating];
      report, rest, sleeps, moves := RolloutReport(false, []), listed, [], [];
      NoSleeps(Platform(State(), listed), plan, 0);
      if service !in store {
        return;
      }
      var svc := store[service];
      var olds := svc.replicas;
      var total := |olds|;
      var step := 0;
      var size := Max(1, surge);
      var clock := 0;
      ghost var job := Job(Platform(State(), listed), service, image, size, plan);
      WriteIsMove(State(), listed, SetImage(service, image));
      WriteIsMove(After(State(), SetImage(service, image)), listed, SetStatus(service, Updating));
      MarkUpdating(service, image);
      report := report.(survived := true);
      NothingDone(olds, size);
      Begins(job, Platform(State(), rest));
      moves := job.Moves([]);
      while olds != []
        invariant report.survived && Midway(job, Platform(State(), rest), report.stages, olds, sleeps)
        invariant deployments == old(deployments)[deployment := Updating]
        invariant step == |Flatten(report.stages)| && clock == |sleeps|
        invariant moves == job.Moves(report.stages)
        decreases |olds|
      {
        MidwayHolds(job, Platform(State(), rest), report.stages, olds, sleeps);
        var n := Min(size, |olds|);
        var batch := olds[..n];
        ghost var before, here, was := olds, Platform(State(), rest), report.stages;
        olds := olds[n..];
        var survived, stage;
        ghost var more;
        survived, clock, rest, stage, more := ReplaceBatch(service, batch, plan, clock, rest, step, total);
        if !survived {
          report := report.(survived := false);
          BreaksOff(job, here, Platform(State(), rest), was, before, sleeps, stage.raised, more);
          moves := UnfinishedMoves(job, was, stage.raised, |sleeps|, |more|);
          sleeps := sleeps + more;
          break;
        }
        Continues(job, here, Platform(State(), rest), was, sleeps, stage, before, olds, more);
        StageAppended(was, stage);
        step := step + |batch|;
        report := report.(stages := report.stages + [stage]);
        sleeps, moves := sleeps + more, job.Moves(was + [stage]);
      }
      assert deployments[deployment := Running] == old(deployments)[deployment := Running];
      deployments := deployments[deployment := Running];
      if report.survived {
        MidwayHolds(job, Platform(State(), rest), report.stages, olds, sleeps);
        Survives(job, Platform(State(), rest), report.stages, sleeps);
      }
      Closes(job, moves, Platform(State(), rest), sleeps);
      moves := moves + [Other(SetStatus(service, Running))];
      WriteIsMove(State(), rest, SetStatus(service, Running));
      MarkRunning(service);
    }
  }
}
