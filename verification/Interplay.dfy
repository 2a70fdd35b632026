/** What the other tasks do to a service while a rollout of it sleeps: whether they change its count or its image, and
    whether replicas come back. The reconciler is among them, with the records that its turn has listed. */
module Interplay {
  import opened Wrappers
  import opened Nodes
  import opened Scheduler
  import opened Routing
  import opened Worlds
  import opened Reconcile
  import opened Runs
  import opened Outdated
  import opened LateVisits
  import opened Platforms
  import opened Overwrites
  import opened Rollouts

  // ---- Names ----

  /** No edit puts a specification under another name. */
  ghost predicate NamesKept(moves: seq<Move>) {
    forall m :: m in moves && m.Edit? ==> m.spec.name == m.service
  }

  lemma VisitKeepsNames(w: World, svc: Service, policy: Policy, supply: nat -> Launch)
    requires Named(w.store)
    ensures Named(VisitService(w, svc, policy, supply).store)
  {
    hide ReconcileService, TeardownService, SeesDifference;
    PassWrites(w, svc, policy, supply);
    TeardownSpecs(w, svc);
  }

  lemma MoveKeepsNames(p: Platform, m: Move)
    requires Named(p.world.store) && (m.Edit? ==> m.spec.name == m.service)
    ensures Named(Moved(p, m).world.store)
  {
    hide VisitService, RemoveEach, ReleaseEach, SetAll;
    var w := p.world;
    match m
    case VisitNext(policy, supply) => if p.listed != [] { VisitKeepsNames(w, p.listed[0], policy, supply); }
    case RemoveOld(s, copies) => if s in w.store { RemoveEachSpecs(w, w.store[s].spec, copies); }
    case Other(step) =>
      match step {
        case Visit(s, policy, supply) => if s in w.store { VisitKeepsNames(w, w.store[s], policy, supply); }
        case DeleteNow(s) => if s in w.store { ReleaseKeepsStore(w, w.store[s].spec, w.store[s].replicas); }
        case _ =>
      }
    case _ =>
  }

  lemma {:induction false} MovesKeepNames(p: Platform, moves: seq<Move>)
    requires Named(p.world.store) && NamesKept(moves)
    ensures Named(RunMoves(p, moves).world.store)
    decreases |moves|
  {
    hide Moved, Named;
    if moves != [] {
      assert moves[0] in moves;
      MoveKeepsNames(p, moves[0]);
      MovesKeepNames(Moved(p, moves[0]), moves[1..]);
    }
  }

  // ---- Count and image ----

  /** What could be checked before the move: it leaves the count of the service alone. A visit of the service does so if it
      tears down, or its look at Docker shows no difference, or it listed the count that is stored now. */
  ghost predicate CountHeeded(p: Platform, m: Move, service: string) {
    var store := p.world.store;
    match m
    case VisitNext(_, _) =>
      p.listed != [] && p.listed[0].spec.name == service && p.listed[0].status != Deleting
      && SeesDifference(p.world.docker, p.listed[0]) ==>
        service in store && p.listed[0].spec.replicas == store[service].spec.replicas
    case Edit(s, spec) => s == service && s in store ==> spec.replicas == store[s].spec.replicas
    case Other(step) =>
      && (step.AddService? && step.spec.name == service ==> service in store)
      && (step.SetCount? && step.service == service && service in store ==> step.replicas == store[service].spec.replicas)
    case _ => true
  }

  ghost predicate ImageHeeded(p: Platform, m: Move, service: string) {
    var store := p.world.store;
    match m
    case VisitNext(_, _) =>
      p.listed != [] && p.listed[0].spec.name == service && p.listed[0].status != Deleting
      && SeesDifference(p.world.docker, p.listed[0]) ==>
        service in store && p.listed[0].spec.image == store[service].spec.image
    case Edit(s, spec) => s == service && s in store ==> spec.image == store[s].spec.image
    case Other(step) =>
      && (step.AddService? && step.spec.name == service ==> service in store)
      && (step.SetImage? && step.service == service && service in store ==> step.image == store[service].spec.image)
    case _ => true
  }

  /** Exactly when a move leaves count and image of a service alone, in any state. */
  lemma SpecKeptIff(p: Platform, m: Move, service: string)
    requires m.Other? ==> !m.step.Visit?
    ensures CountKept(p.world, Moved(p, m).world, service) <==> CountHeeded(p, m, service)
    ensures ImageKept(p.world, Moved(p, m).world, service) <==> ImageHeeded(p, m, service)
  {
    hide ReconcileService, TeardownService, RemoveEach, ReleaseEach, SetAll, SeesDifference;
    var w := p.world;
    match m
    case VisitNext(policy, supply) =>
      if p.listed != [] {
        PassWrites(w, p.listed[0], policy, supply);
        TeardownSpecs(w, p.listed[0]);
      }
    case RemoveOld(s, copies) => if s in w.store { RemoveEachSpecs(w, w.store[s].spec, copies); }
    case Other(step) =>
      match step {
        case DeleteNow(s) => if s in w.store { ReleaseKeepsStore(w, w.store[s].spec, w.store[s].replicas); }
        case _ =>
      }
    case _ =>
  }

  ghost predicate CountHeededMoves(p: Platform, moves: seq<Move>, service: string)
    decreases |moves|
  {
    moves == [] || (CountHeeded(p, moves[0], service) && CountHeededMoves(Moved(p, moves[0]), moves[1..], service))
  }

  ghost predicate ImageHeededMoves(p: Platform, moves: seq<Move>, service: string)
    decreases |moves|
  {
    moves == [] || (ImageHeeded(p, moves[0], service) && ImageHeededMoves(Moved(p, moves[0]), moves[1..], service))
  }

  /** No move of the run changes the count. */
  ghost predicate CountKeptAllAlong(p: Platform, moves: seq<Move>, service: string)
    decreases |moves|
  {
    moves == []
    || (CountKept(p.world, Moved(p, moves[0]).world, service)
        && CountKeptAllAlong(Moved(p, moves[0]), moves[1..], service))
  }

  ghost predicate NoRereads(moves: seq<Move>) {
    forall m :: m in moves && m.Other? ==> !m.step.Visit?
  }

  /** Over every run, in any state: no move changes the count if and only if each heeds it when it comes. */
  lemma {:induction false} CountKeptAllAlongIff(p: Platform, moves: seq<Move>, service: string)
    requires NoRereads(moves)
    ensures CountKeptAllAlong(p, moves, service) <==> CountHeededMoves(p, moves, service)
    ensures CountHeededMoves(p, moves, service) ==> CountKept(p.world, RunMoves(p, moves).world, service)
    decreases |moves|
  {
    hide Moved, CountHeeded, ImageHeeded;
    if moves != [] {
      assert moves[0] in moves && forall m :: m in moves[1..] ==> m in moves;
      SpecKeptIff(p, moves[0], service);
      CountKeptAllAlongIff(Moved(p, moves[0]), moves[1..], service);
    }
  }

  lemma {:induction false} ImageKeptAlong(p: Platform, moves: seq<Move>, service: string)
    requires NoRereads(moves) && ImageHeededMoves(p, moves, service)
    ensures ImageKept(p.world, RunMoves(p, moves).world, service)
    decreases |moves|
  {
    hide Moved, CountHeeded, ImageHeeded;
    if moves != [] {
      assert moves[0] in moves && forall m :: m in moves[1..] ==> m in moves;
      SpecKeptIff(p, moves[0], service);
      ImageKeptAlong(Moved(p, moves[0]), moves[1..], service);
    }
  }

  // ---- Replicas that come back ----

  lemma RemoveNoneBack(w: World, spec: ServiceSpec, r: Replica, service: string, ids: set<string>)
    ensures NoneBack(w, RemoveReplica(w, spec, r), service, ids)
  {
    hide Deallocated, EndpointsOf, Merge;
    if spec.name in w.store {
      WithoutIds(w.store[spec.name].replicas, {r.id});
    }
  }

  lemma {:induction false} RemoveEachNoneBack(
    w: World, spec: ServiceSpec, rs: seq<Replica>, service: string, ids: set<string>)
    ensures NoneBack(w, RemoveEach(w, spec, rs), service, ids)
    decreases |rs|
  {
    hide RemoveReplica, Ids;
    if rs != [] {
      RemoveNoneBack(w, spec, rs[0], service, ids);
      RemoveEachNoneBack(RemoveReplica(w, spec, rs[0]), spec, rs[1..], service, ids);
      NoneBackTwice(w, RemoveReplica(w, spec, rs[0]), RemoveEach(w, spec, rs), service, ids);
    }
  }

  lemma CreateNoneBack(w: World, spec: ServiceSpec, policy: Policy, launch: Launch, service: string, ids: set<string>)
    requires launch.Launched? ==> launch.id !in ids
    ensures NoneBack(w, CreateReplica(w, spec, policy, launch), service, ids)
  {
    hide Allocated, EndpointsOf, Merge, SelectNode;
    var r := Started(w.ledger, spec, policy, launch);
    if r.Some? && spec.name in w.store {
      var rs := w.store[spec.name].replicas;
      forall id | id in ids && id in Ids(rs + [r.value]) ensures id in Ids(rs) {
        var x :| x in rs + [r.value] && x.id == id;
        assert x in rs;
      }
    }
  }

  lemma {:induction false} CreateFromNoneBack(
    w: World, spec: ServiceSpec, policy: Policy, supply: nat -> Launch, k: nat, n: nat, service: string, ids: set<string>)
    requires k <= n && forall i: nat :: supply(i).Launched? ==> supply(i).id !in ids
    ensures NoneBack(w, CreateFrom(w, spec, policy, supply, k, n), service, ids)
    decreases n - k
  {
    hide CreateReplica, Ids;
    if k < n {
      var w1 := CreateReplica(w, spec, policy, supply(k));
      CreateNoneBack(w, spec, policy, supply(k), service, ids);
      CreateFromNoneBack(w1, spec, policy, supply, k + 1, n, service, ids);
      NoneBackTwice(w, w1, CreateFrom(w, spec, policy, supply, k, n), service, ids);
    }
  }

  lemma ScaleNoneBack(
    w: World, spec: ServiceSpec, desired: int, running: seq<Replica>, policy: Policy, supply: nat -> Launch,
    service: string, ids: set<string>)
    requires forall i: nat :: supply(i).Launched? ==> supply(i).id !in ids
    ensures NoneBack(w, Scale(w, spec, desired, running, policy, supply), service, ids)
  {
    hide CreateFrom, RemoveEach;
    if |running| < desired {
      CreateFromNoneBack(w, spec, policy, supply, 0, desired - |running|, service, ids);
    } else if |running| > desired {
      RemoveEachNoneBack(w, spec, SliceFrom(running, desired), service, ids);
    }
  }

  lemma SettleNoneBack(w: World, s: string, service: string, ids: set<string>)
    ensures NoneBack(w, SettleStatus(w, s), service, ids)
  {}

  /** The record that a pass would write back brings none of the ids back. */
  ghost predicate RecordHeeded(w: World, svc: Service, service: string, ids: set<string>) {
    svc.spec.name == service && svc.status != Deleting && SeesDifference(w.docker, svc) ==>
      forall id :: id in ids && id in Ids(Observed(w.docker, svc.replicas)) ==>
        service in w.store && id in Ids(w.store[service].replicas)
  }

  lemma PassNoneBack(w: World, svc: Service, policy: Policy, supply: nat -> Launch, service: string, ids: set<string>)
    requires svc.status != Deleting && RecordHeeded(w, svc, service, ids)
    requires forall i: nat :: supply(i).Launched? ==> supply(i).id !in ids
    ensures NoneBack(w, ReconcileService(w, svc, policy, supply), service, ids)
  {
    RefreshWrites(w, svc);
    hide Refresh, RemoveEach, Scale, SettleStatus, RunningOf, StaleOf, SeesDifference, Observed;
    var Refreshed(w1, s1) := Refresh(w, svc);
    assert NoneBack(w, w1, service, ids);
    hide NoneBack, Ids;
    var stale := StaleOf(RunningOf(s1.replicas), svc.spec.image);
    var w2 := RemoveEach(w1, s1.spec, stale);
    var s2 := if stale != [] && svc.spec.name in w2.store then w2.store[svc.spec.name] else s1;
    var running2 := if stale == [] then RunningOf(s1.replicas) else RunningOf(s2.replicas);
    var w3 := Scale(w2, s2.spec, svc.spec.replicas, running2, policy, supply);
    RemoveEachNoneBack(w1, s1.spec, stale, service, ids);
    ScaleNoneBack(w2, s2.spec, svc.spec.replicas, running2, policy, supply, service, ids);
    SettleNoneBack(w3, svc.spec.name, service, ids);
    NoneBackTwice(w, w1, w2, service, ids);
    NoneBackTwice(w, w2, w3, service, ids);
    NoneBackTwice(w, w3, SettleStatus(w3, svc.spec.name), service, ids);
  }

  /** What could be checked before the move: it brings none of the ids back and launches none of them. */
  ghost predicate IdsHeeded(p: Platform, m: Move, service: string, ids: set<string>) {
    LaunchesOthers(m, ids) && (m.VisitNext? && p.listed != [] ==> RecordHeeded(p.world, p.listed[0], service, ids))
  }

  /** In a sound state no listed record brings anything back. */
  lemma SoundBringsNoneBack(p: Platform, service: string, ids: set<string>)
    requires Sound(p) && p.listed != [] && service in p.world.store
    ensures RecordHeeded(p.world, p.listed[0], service, ids)
  {
    hide OldCopies, Exact, AllRunning, SeesDifference;
    var w, svc := p.world, p.listed[0];
    if svc.spec.name == service {
      assert ListedBefore(w, svc);
      forall id | id in Ids(Observed(w.docker, svc.replicas)) ensures id in Ids(w.store[service].replicas) {
        var x :| x in Observed(w.docker, svc.replicas) && x.id == id;
        AliveFrom(w.docker, svc.replicas, x);
      }
    }
  }

  lemma {:induction false} AliveFrom(docker: Docker, rs: seq<Replica>, x: Replica)
    requires x in Observed(docker, rs)
    ensures exists r :: r in rs && r.id == x.id && !Dead(docker, r)
  {
    hide Dead, Observe;
    var rest := rs[1..];
    assert rs == [rs[0]] + rest;
    ObserveId(docker, rs[0]);
    if x in Observed(docker, rest) {
      AliveFrom(docker, rest, x);
      var r :| r in rest && r.id == x.id && !Dead(docker, r);
      assert r in rs;
    } else {
      assert rs[0] in rs;
    }
  }

  lemma MoveBringsNoneBack(p: Platform, m: Move, service: string, ids: set<string>)
    requires (m.Other? ==> !m.step.Visit?) && IdsHeeded(p, m, service, ids)
    ensures NoneBack(p.world, Moved(p, m).world, service, ids)
  {
    hide ReconcileService, RemoveEach, ReleaseEach, SetAll, Ids, RecordHeeded;
    var w := p.world;
    match m
    case VisitNext(policy, supply) =>
      if p.listed != [] {
        var svc := p.listed[0];
        if svc.status == Deleting {
          RemoveEachNoneBack(w, svc.spec, svc.replicas, service, ids);
        } else {
          PassNoneBack(w, svc, policy, supply, service, ids);
        }
      }
    case RemoveOld(s, copies) => if s in w.store { RemoveEachNoneBack(w, w.store[s].spec, copies, service, ids); }
    case Other(step) =>
      match step {
        case DeleteNow(s) => if s in w.store { ReleaseKeepsStore(w, w.store[s].spec, w.store[s].replicas); }
        case AddService(_) => NoIds();
        case _ =>
      }
    case _ =>
  }

  lemma NoIds()
    ensures Ids([]) == {}
  {}

  ghost predicate IdsHeededMoves(p: Platform, moves: seq<Move>, service: string, ids: set<string>)
    decreases |moves|
  {
    moves == [] || (IdsHeeded(p, moves[0], service, ids) && IdsHeededMoves(Moved(p, moves[0]), moves[1..], service, ids))
  }

  lemma {:induction false} NoneBackAlong(p: Platform, moves: seq<Move>, service: string, ids: set<string>)
    requires NoRereads(moves) && IdsHeededMoves(p, moves, service, ids)
    ensures NoneBack(p.world, RunMoves(p, moves).world, service, ids)
    decreases |moves|
  {
    hide Moved, IdsHeeded, Ids;
    if moves != [] {
      assert moves[0] in moves && forall m :: m in moves[1..] ==> m in moves;
      MoveBringsNoneBack(p, moves[0], service, ids);
      NoneBackAlong(Moved(p, moves[0]), moves[1..], service, ids);
      NoneBackTwice(p.world, Moved(p, moves[0]).world, RunMoves(p, moves).world, service, ids);
    }
  }

  // ---- Beside a rollout ----

  ghost predicate Regular(plan: nat -> seq<Move>) {
    forall k: nat :: NamesKept(plan(k)) && NoRereads(plan(k))
  }

  /** The sleeps of a rollout are calm, steady and bring nothing back if each move of the others heeds count, image and ids
      when it comes; passes with listed records, teardowns, removals of other rollouts, deletions, edits and failures are
      among these moves, for this service and for others. */
  lemma ReconcilerIsCalm(sleeps: seq<Sleep>, plan: nat -> seq<Move>, service: string, ids: set<string>)
    requires Slept(sleeps, plan, 0) && Regular(plan)
    ensures (forall i :: 0 <= i < |sleeps| ==> CountHeededMoves(sleeps[i].before, plan(i), service)) ==>
              Calm(sleeps, service)
    ensures (forall i :: 0 <= i < |sleeps| ==> ImageHeededMoves(sleeps[i].before, plan(i), service)) ==>
              Steady(sleeps, service)
    ensures (forall i :: 0 <= i < |sleeps| ==> IdsHeededMoves(sleeps[i].before, plan(i), service, ids)) ==>
              Parted(sleeps, service, ids)
  {
    hide RunMoves, CountHeededMoves, ImageHeededMoves, IdsHeededMoves, CountKept, ImageKept, NoneBack, NoRereads, NamesKept;
    forall i | 0 <= i < |sleeps|
      ensures CountHeededMoves(sleeps[i].before, plan(i), service) ==>
                CountKept(sleeps[i].before.world, sleeps[i].after.world, service)
      ensures ImageHeededMoves(sleeps[i].before, plan(i), service) ==>
                ImageKept(sleeps[i].before.world, sleeps[i].after.world, service)
      ensures IdsHeededMoves(sleeps[i].before, plan(i), service, ids) ==>
                NoneBack(sleeps[i].before.world, sleeps[i].after.world, service, ids) {
      assert NoRereads(plan(i)) && plan(0 + i) == plan(i);
      CountKeptAllAlongIff(sleeps[i].before, plan(i), service);
      if ImageHeededMoves(sleeps[i].before, plan(i), service) {
        ImageKeptAlong(sleeps[i].before, plan(i), service);
      }
      if IdsHeededMoves(sleeps[i].before, plan(i), service, ids) {
        NoneBackAlong(sleeps[i].before, plan(i), service, ids);
      }
    }
  }

  /** And they are tame: moves that are legal and launch no old id leave ledger, routes and the rollout's copies right
      exactly as long as they are harmless. */
  lemma ReconcilerIsTame(p: Platform, moves: seq<Move>, service: string, olds: seq<Replica>)
    requires Good(p, service, olds) && LegalMoves(p, moves)
    requires forall m :: m in moves ==> LaunchesOthers(m, Ids(olds))
    ensures StaysExact(p, moves) <==> HarmlessMoves(p, moves)
    ensures HarmlessMoves(p, moves) ==> Good(RunMoves(p, moves), service, olds)
  {
    hide Sound, RunMoves, LegalMoves, HarmlessMoves, StaysExact, LaunchesOthers, OldCopies;
    OrderlyOthers(p, moves, service, olds);
    RunExactIff(p, moves);
  }
}
