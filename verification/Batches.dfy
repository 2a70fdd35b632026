/** A rollout from batch to batch: what replacing one batch does, and where the rollout stands between two batches. */
module Batches {
  import opened Wrappers
  import opened Routing
  import opened Worlds
  import opened Reconcile
  import opened Runs
  import opened Outdated
  import opened Platforms
  import opened Overwrites
  import opened Rollouts
  import opened Interplay

  // ---- One batch ----

  /** From `p` to `q` the rollout replaces one batch, and the service lasts through the sleeps. */
  ghost predicate Replaces(
    p: Platform, q: Platform, service: string, stage: Stage, plan: nat -> seq<Move>, clock: nat, sleeps: seq<Sleep>)
  {
    var raised := Moved(p, Other(SetCount(service, stage.raised)));
    var waited := RunMoves(raised, SleepMoves(plan, clock, stage.polls));
    && service in p.world.store
    && |sleeps| == stage.polls && Slept(sleeps, plan, clock) && Chained(sleeps, raised, waited)
    && service in waited.world.store && Lasting(sleeps, service) && WaitedFor(sleeps, service, stage.batch)
    && stage.raised == CountOf(p.world.store, service) + |stage.batch|
    && stage.lowered == CountOf(waited.world.store, service) - |stage.batch|
    && q == Moved(Moved(waited, Other(SetCount(service, stage.lowered))), RemoveOld(service, stage.batch))
  }

  lemma ReplacesRuns(
    p: Platform, q: Platform, service: string, stage: Stage, plan: nat -> seq<Move>, clock: nat, sleeps: seq<Sleep>)
    requires Replaces(p, q, service, stage, plan, clock, sleeps)
    ensures q == RunMoves(p, StageMoves(service, stage, SleepMoves(plan, clock, stage.polls)))
  {
    hide Moved, RunMoves, SleepMoves, Slept, Chained, Lasting, WaitedFor, AllWaited;
    var up, slept := Other(SetCount(service, stage.raised)), SleepMoves(plan, clock, stage.polls);
    var down, remove := Other(SetCount(service, stage.lowered)), RemoveOld(service, stage.batch);
    RunOne(p, up);
    RunMovesAppend(p, [up], slept);
    RunMovesAppend(p, [up] + slept, [down, remove]);
    RunTwo(RunMoves(p, [up] + slept), down, remove);
  }

  /** The count ends where it began, but for what others added to it. */
  lemma ReplacesCount(
    p: Platform, q: Platform, service: string, stage: Stage, plan: nat -> seq<Move>, clock: nat, sleeps: seq<Sleep>)
    requires Replaces(p, q, service, stage, plan, clock, sleeps)
    ensures service in q.world.store
    ensures CountOf(q.world.store, service) == stage.lowered == CountOf(p.world.store, service) + Drift(sleeps, service)
  {
    hide RunMoves, SleepMoves, Slept, Chained, Lasting, WaitedFor, AllWaited, RemoveEach;
    var raised := Moved(p, Other(SetCount(service, stage.raised)));
    var waited := RunMoves(raised, SleepMoves(plan, clock, stage.polls));
    var lowered := Moved(waited, Other(SetCount(service, stage.lowered)));
    ChainDrift(sleeps, raised, waited, service);
    RemoveEachSpecs(lowered.world, lowered.world.store[service].spec, stage.batch);
  }

  lemma ReplacesImage(
    p: Platform, q: Platform, service: string, stage: Stage, plan: nat -> seq<Move>, clock: nat, sleeps: seq<Sleep>)
    requires Replaces(p, q, service, stage, plan, clock, sleeps) && Steady(sleeps, service)
    ensures service in q.world.store && q.world.store[service].spec.image == p.world.store[service].spec.image
  {
    hide RunMoves, SleepMoves, Slept, Chained, Lasting, WaitedFor, AllWaited, RemoveEach;
    var raised := Moved(p, Other(SetCount(service, stage.raised)));
    var waited := RunMoves(raised, SleepMoves(plan, clock, stage.polls));
    var lowered := Moved(waited, Other(SetCount(service, stage.lowered)));
    ChainSteady(sleeps, raised, waited, service);
    RemoveEachSpecs(lowered.world, lowered.world.store[service].spec, stage.batch);
  }

  lemma {:induction false} SleepMovesKeepNames(plan: nat -> seq<Move>, k: nat, n: nat)
    requires forall i: nat :: NamesKept(plan(i))
    ensures NamesKept(SleepMoves(plan, k, n))
    decreases n
  {
    if n > 0 {
      SleepMovesKeepNames(plan, k, n - 1);
      assert NamesKept(plan(k + n - 1));
    }
  }

  /** The batch is gone from the record, and none of the given ids has come back but by the others. */
  lemma ReplacesIds(
    p: Platform, q: Platform, service: string, stage: Stage, plan: nat -> seq<Move>, clock: nat, sleeps: seq<Sleep>,
    ids: set<string>)
    requires Replaces(p, q, service, stage, plan, clock, sleeps)
    requires Named(p.world.store) && forall k: nat :: NamesKept(plan(k))
    ensures Named(q.world.store) && service in q.world.store
    ensures Ids(q.world.store[service].replicas) !! Ids(stage.batch)
    ensures Parted(sleeps, service, ids) ==> NoneBack(p.world, q.world, service, ids)
  {
    hide RunMoves, SleepMoves, Slept, Chained, Lasting, WaitedFor, AllWaited, Parted, RemoveEach, Ids, NamesKept;
    var raised := Moved(p, Other(SetCount(service, stage.raised)));
    var slept := SleepMoves(plan, clock, stage.polls);
    var waited := RunMoves(raised, slept);
    var lowered := Moved(waited, Other(SetCount(service, stage.lowered)));
    SleepMovesKeepNames(plan, clock, stage.polls);
    MovesKeepNames(raised, slept);
    RemoveEachParts(lowered.world, lowered.world.store[service].spec, stage.batch);
    WithoutIds(lowered.world.store[service].replicas, Ids(stage.batch));
    if Parted(sleeps, service, ids) {
      ChainParted(sleeps, raised, waited, service, ids);
    }
  }

  lemma ReplacesOrderly(
    p: Platform, q: Platform, service: string, stage: Stage, plan: nat -> seq<Move>, clock: nat, sleeps: seq<Sleep>,
    olds: seq<Replica>)
    requires Replaces(p, q, service, stage, plan, clock, sleeps)
    requires Good(p, service, olds) && OthersLegal(sleeps, plan, clock, Ids(olds))
    requires UniqueIds(stage.batch) && forall r :: r in stage.batch ==> r in olds
    ensures Orderly(p, StageMoves(service, stage, SleepMoves(plan, clock, stage.polls)), q, service, olds)
  {
    hide Moved, RunMoves, SleepMoves, Slept, Chained, Lasting, WaitedFor, AllWaited, Good, OthersLegal, Orderly,
         UniqueIds, Ids;
    var up, slept := Other(SetCount(service, stage.raised)), SleepMoves(plan, clock, stage.polls);
    var down, remove := Other(SetCount(service, stage.lowered)), RemoveOld(service, stage.batch);
    var raised := Moved(p, up);
    var waited := RunMoves(raised, slept);
    var lowered := Moved(waited, down);
    StartAsleep(p, up.step, sleeps, plan, clock, waited, service, olds);
    if Good(waited, service, olds) {
      OrderlyWrite(waited, down.step, service, olds);
    }
    RunOne(waited, down);
    OrderlyThen(p, [up] + slept, waited, [down], lowered, service, olds);
    if Good(lowered, service, olds) {
      OrderlyRemoval(lowered, stage.batch, service, olds);
    }
    RunOne(lowered, remove);
    OrderlyThen(p, [up] + slept + [down], lowered, [remove], q, service, olds);
    assert [up] + slept + [down] + [remove] == StageMoves(service, stage, slept);
  }

  /** A write of the rollout's, and the sleeps after it. */
  lemma StartAsleep(
    p: Platform, step: Step, sleeps: seq<Sleep>, plan: nat -> seq<Move>, clock: nat, waited: Platform, service: string,
    olds: seq<Replica>)
    requires Good(p, service, olds) && (step.SetCount? || step.SetImage? || step.SetStatus?)
    requires Slept(sleeps, plan, clock) && Chained(sleeps, Moved(p, Other(step)), waited)
    requires OthersLegal(sleeps, plan, clock, Ids(olds))
    ensures Orderly(p, [Other(step)] + SleepMoves(plan, clock, |sleeps|), waited, service, olds)
  {
    hide Moved, RunMoves, SleepMoves, Slept, Chained, Good, OthersLegal, Orderly, Ids;
    var first := Moved(p, Other(step));
    OrderlyWrite(p, step, service, olds);
    RunAsleep(sleeps, plan, clock, first, waited);
    if Good(first, service, olds) {
      OrderlyAsleep(sleeps, plan, clock, first, waited, service, olds);
    }
    OrderlyThen(p, [Other(step)], first, SleepMoves(plan, clock, |sleeps|), waited, service, olds);
  }

  // ---- A whole rollout ----

  /** What a rollout starts from: the service to be moved to an image, in batches of at most `size`, beside `plan`. */
  datatype Job = Job(start: Platform, service: string, image: string, size: nat, plan: nat -> seq<Move>) {
    predicate Valid() {
      service in start.world.store && size >= 1
    }

    function Olds(): seq<Replica>
      requires Valid()
    {
      start.world.store[service].replicas
    }

    function Count(): int {
      CountOf(start.world.store, service)
    }

    function Moves(stages: seq<Stage>): seq<Move> {
      [Other(SetImage(service, image)), Other(SetStatus(service, Updating))] + StagesMoves(service, plan, stages)
    }

    /** What is assumed for ledger and routes. */
    ghost predicate Fair(sleeps: seq<Sleep>)
      requires Valid()
    {
      Sound(start) && OthersLegal(sleeps, plan, 0, Ids(Olds()))
    }
  }

  /** The counts, image and ids after some sleeps. */
  ghost predicate Kept(job: Job, now: World, stages: seq<Stage>, sleeps: seq<Sleep>)
    requires job.Valid() && job.service in now.store
  {
    && CountOf(now.store, job.service) == job.Count() + Drift(sleeps, job.service)
    && (Calm(sleeps, job.service) ==> CountsKept(stages, job.Count()))
    && (Steady(sleeps, job.service) ==> now.store[job.service].spec.image == job.image)
    && (Parted(sleeps, job.service, Ids(job.Olds())) ==>
          Ids(now.store[job.service].replicas) !! Ids(Flatten(stages)))
  }

  /** The rollout stands at `now`, with `olds` still to be replaced. */
  ghost predicate Midway(job: Job, now: Platform, stages: seq<Stage>, olds: seq<Replica>, sleeps: seq<Sleep>) {
    && job.Valid() && job.service in now.world.store && Named(now.world.store)
    && Slept(sleeps, job.plan, 0) && Lasting(sleeps, job.service) && |sleeps| == Clock(stages)
    && InProgress(stages, job.Olds(), olds, job.size)
    && AllWaited(stages, sleeps, job.service)
    && Kept(job, now.world, stages, sleeps)
    && now == RunMoves(job.start, job.Moves(stages))
    && (job.Fair(sleeps) ==> Orderly(job.start, job.Moves(stages), now, job.service, job.Olds()))
  }

  lemma WriteIsMove(w: World, listed: seq<Service>, step: Step)
    ensures Moved(Platform(w, listed), Other(step)) == Platform(After(w, step), listed)
  {}

  lemma MidwayHolds(job: Job, now: Platform, stages: seq<Stage>, olds: seq<Replica>, sleeps: seq<Sleep>)
    requires Midway(job, now, stages, olds, sleeps)
    ensures job.service in now.world.store && Named(now.world.store)
    ensures Slept(sleeps, job.plan, 0) && Lasting(sleeps, job.service) && |sleeps| == Clock(stages)
    ensures AllWaited(stages, sleeps, job.service)
    ensures now == RunMoves(job.start, job.Moves(stages))
    ensures job.Fair(sleeps) ==> Orderly(job.start, job.Moves(stages), now, job.service, job.Olds())
  {}

  lemma Begins(job: Job, now: Platform)
    requires job.Valid() && Named(job.start.world.store)
    requires now == Moved(Moved(job.start, Other(SetImage(job.service, job.image))),
                          Other(SetStatus(job.service, Updating)))
    ensures Midway(job, now, [], job.Olds(), [])
  {
    hide RunMoves, InProgress, Good, Orderly, Sound, OthersLegal, Ids;
    var image, status := Other(SetImage(job.service, job.image)), Other(SetStatus(job.service, Updating));
    NothingDone(job.Olds(), job.size);
    NoIds();
    RunTwo(job.start, image, status);
    assert job.Moves([]) == [image, status];
    if job.Fair([]) {
      BeginsOrderly(job, now);
    }
  }

  lemma BeginsOrderly(job: Job, now: Platform)
    requires job.Valid() && Sound(job.start)
    requires now == Moved(Moved(job.start, Other(SetImage(job.service, job.image))),
                          Other(SetStatus(job.service, Updating)))
    ensures Orderly(job.start, job.Moves([]), now, job.service, job.Olds())
  {
    hide RunMoves, Moved, Good, Orderly, Sound, UniqueIds;
    var image, status := Other(SetImage(job.service, job.image)), Other(SetStatus(job.service, Updating));
    var mid := Moved(job.start, image);
    StartsGood(job.start, job.service);
    OrderlyWrite(job.start, image.step, job.service, job.Olds());
    if Good(mid, job.service, job.Olds()) {
      OrderlyWrite(mid, status.step, job.service, job.Olds());
    }
    RunOne(mid, status);
    OrderlyThen(job.start, [image], mid, [status], now, job.service, job.Olds());
    assert [image] + [status] == job.Moves([]);
  }

  lemma KeptNext(
    job: Job, p: Platform, q: Platform, stages: seq<Stage>, sleeps: seq<Sleep>, stage: Stage, olds: seq<Replica>,
    more: seq<Sleep>)
    requires job.Valid() && Named(p.world.store) && forall k: nat :: NamesKept(job.plan(k))
    requires job.service in p.world.store && Lasting(sleeps, job.service) && Kept(job, p.world, stages, sleeps)
    requires Replaces(p, q, job.service, stage, job.plan, |sleeps|, more)
    requires job.Olds() == Flatten(stages) + olds
    ensures job.service in q.world.store && Kept(job, q.world, stages + [stage], sleeps + more)
  {
    hide Replaces, Flatten, Calm, Steady, Parted, Drift, Ids, Lasting, WaitedFor, AllWaited, Named, NamesKept;
    var s, ids := job.service, Ids(job.Olds());
    ReplacesCount(p, q, s, stage, job.plan, |sleeps|, more);
    ReplacesIds(p, q, s, stage, job.plan, |sleeps|, more, ids);
    SleepsTogether(sleeps, more, s, ids);
    FlattenIds(stages, job.Olds(), olds, stage);
    if Steady(sleeps + more, s) {
      ReplacesImage(p, q, s, stage, job.plan, |sleeps|, more);
    }
    if Calm(sleeps + more, s) {
      CalmCounts(job, p, q, stages, sleeps, stage, more);
    }
    if Parted(sleeps + more, s, ids) {
      assert Ids(p.world.store[s].replicas) !! Ids(Flatten(stages));
    }
  }

  lemma CalmCounts(
    job: Job, p: Platform, q: Platform, stages: seq<Stage>, sleeps: seq<Sleep>, stage: Stage, more: seq<Sleep>)
    requires job.Valid() && job.service in p.world.store && Kept(job, p.world, stages, sleeps)
    requires Replaces(p, q, job.service, stage, job.plan, |sleeps|, more)
    requires Calm(sleeps, job.service) && Lasting(sleeps, job.service) && Calm(more, job.service)
    ensures CountsKept(stages + [stage], job.Count())
  {
    hide Calm, Drift, Flatten, Parted, Steady, Ids, Moved, RunMoves;
    CalmHasNoDrift(sleeps, job.service);
    CalmHasNoDrift(more, job.service);
    ReplacesCount(p, q, job.service, stage, job.plan, |sleeps|, more);
  }

  lemma OrderlyNext(
    job: Job, p: Platform, q: Platform, stages: seq<Stage>, sleeps: seq<Sleep>, stage: Stage, olds: seq<Replica>,
    more: seq<Sleep>)
    requires job.Valid() && |sleeps| == Clock(stages) && job.Olds() == Flatten(stages) + (stage.batch + olds)
    requires Replaces(p, q, job.service, stage, job.plan, |sleeps|, more)
    requires job.Fair(sleeps) ==> Orderly(job.start, job.Moves(stages), p, job.service, job.Olds())
    ensures job.Fair(sleeps + more) ==>
              Orderly(job.start, job.Moves(stages + [stage]), q, job.service, job.Olds())
  {
    hide Replaces, Flatten, Clock, Sound, OthersLegal, Orderly, Good, StageMoves, SleepMoves, StagesMoves, UniqueIds, Ids;
    var s, all := job.service, job.Olds();
    var slept := SleepMoves(job.plan, Clock(stages), stage.polls);
    StagesMovesAppended(s, job.plan, stages, stage);
    assert job.Moves(stages + [stage]) == job.Moves(stages) + StageMoves(s, stage, slept);
    if job.Fair(sleeps + more) {
      OthersTogether(sleeps, more, job.plan, 0, Ids(all));
      StartsGood(job.start, s);
      SliceOf(all, Flatten(stages), stage.batch, olds);
      ReplacesRuns(p, q, s, stage, job.plan, |sleeps|, more);
      if Good(p, s, all) {
        ReplacesOrderly(p, q, s, stage, job.plan, |sleeps|, more, all);
      }
      OrderlyThen(job.start, job.Moves(stages), p, StageMoves(s, stage, slept), q, s, all);
    }
  }

  /** From one batch to the next. */
  lemma Continues(
    job: Job, p: Platform, q: Platform, stages: seq<Stage>, sleeps: seq<Sleep>, stage: Stage, before: seq<Replica>,
    olds: seq<Replica>, more: seq<Sleep>)
    requires Midway(job, p, stages, before, sleeps) && before != []
    requires Replaces(p, q, job.service, stage, job.plan, |sleeps|, more)
    requires stage.batch == before[..Min(job.size, |before|)] && olds == before[Min(job.size, |before|)..]
    requires 1 <= stage.polls <= 30 && stage.progress == (|Flatten(stages)| + |stage.batch|, |job.Olds()|)
    requires forall k: nat :: NamesKept(job.plan(k))
    ensures Midway(job, q, stages + [stage], olds, sleeps + more)
  {
    hide Replaces, Kept, Orderly, Good, Flatten, StagesFit, RunMoves, Slept, Lasting, WaitedFor, AllWaited, NamesKept,
         StageMoves, SleepMoves, StagesMoves, Clock, Named, Sound, OthersLegal, Ids;
    assert before == stage.batch + olds;
    assert job.Olds() == Flatten(stages) + before;
    hide InProgress;
    var s := job.service;
    StageAppended(stages, stage);
    StageDone(stages, job.Olds(), before, olds, job.size, stage);
    LastsOn(p, q, s, stage, job.plan, sleeps, more);
    SleptTogether(sleeps, more, job.plan, 0);
    WaitedNext(stages, sleeps, s, stage, more);
    ReplacesIds(p, q, s, stage, job.plan, |sleeps|, more, {});
    KeptNext(job, p, q, stages, sleeps, stage, before, more);
    OrderlyNext(job, p, q, stages, sleeps, stage, olds, more);
    RunsOn(job, p, q, stages, stage, more);
  }

  lemma RunsOn(job: Job, p: Platform, q: Platform, stages: seq<Stage>, stage: Stage, more: seq<Sleep>)
    requires p == RunMoves(job.start, job.Moves(stages))
    requires Replaces(p, q, job.service, stage, job.plan, Clock(stages), more)
    ensures q == RunMoves(job.start, job.Moves(stages + [stage]))
  {
    hide Replaces, RunMoves, StageMoves, SleepMoves, StagesMoves, Clock;
    var s := job.service;
    var slept := SleepMoves(job.plan, Clock(stages), stage.polls);
    ReplacesRuns(p, q, s, stage, job.plan, Clock(stages), more);
    StagesMovesAppended(s, job.plan, stages, stage);
    assert job.Moves(stages + [stage]) == job.Moves(stages) + StageMoves(s, stage, slept);
    RunMovesAppend(job.start, job.Moves(stages), StageMoves(s, stage, slept));
  }

  lemma LastsOn(
    p: Platform, q: Platform, service: string, stage: Stage, plan: nat -> seq<Move>, sleeps: seq<Sleep>, more: seq<Sleep>)
    requires Lasting(sleeps, service) && Replaces(p, q, service, stage, plan, |sleeps|, more)
    ensures Slept(more, plan, |sleeps|) && Lasting(sleeps + more, service) && |more| == stage.polls
    ensures WaitedFor(more, service, stage.batch)
  {
    hide Moved, RunMoves, SleepMoves, Slept, Chained;
    SleepsTogether(sleeps, more, service, {});
  }

  // ---- The ends of a rollout ----

  /** All batches replaced, or the service gone: the last write, and ledger and routes over the whole rollout. */
  lemma Closes(job: Job, moves: seq<Move>, now: Platform, sleeps: seq<Sleep>)
    requires job.Valid() && now == RunMoves(job.start, moves)
    requires job.Fair(sleeps) ==> Orderly(job.start, moves, now, job.service, job.Olds())
    ensures var last := Other(SetStatus(job.service, Running));
            && Moved(now, last) == RunMoves(job.start, moves + [last])
            && (job.Fair(sleeps) ==>
                  && LegalMoves(job.start, moves + [last])
                  && (StaysExact(job.start, moves + [last]) <==> HarmlessMoves(job.start, moves + [last])))
  {
    hide Moved, RunMoves, Orderly, Good, OthersLegal, Sound, Ids, LegalMoves, StaysExact, HarmlessMoves;
    var s, olds, last := job.service, job.Olds(), Other(SetStatus(job.service, Running));
    RunOne(now, last);
    RunMovesAppend(job.start, moves, [last]);
    if job.Fair(sleeps) {
      if Good(now, s, olds) {
        OrderlyWrite(now, last.step, s, olds);
      }
      OrderlyThen(job.start, moves, now, [last], Moved(now, last), s, olds);
      OrderlyIff(job.start, moves + [last], Moved(now, last), s, olds);
    }
  }

  lemma Survives(job: Job, now: Platform, stages: seq<Stage>, sleeps: seq<Sleep>)
    requires Midway(job, now, stages, [], sleeps)
    ensures Replaced(stages, job.Olds(), job.size)
    ensures var q := Moved(now, Other(SetStatus(job.service, Running)));
            && job.service in q.world.store && q.world.store[job.service].status == Running
            && q.world.store[job.service].spec == now.world.store[job.service].spec
            && CountOf(q.world.store, job.service) == job.Count() + Drift(sleeps, job.service)
            && (Calm(sleeps, job.service) ==>
                  CountsKept(stages, job.Count()) && CountOf(q.world.store, job.service) == job.Count())
            && (Steady(sleeps, job.service) ==> q.world.store[job.service].spec.image == job.image)
            && (Parted(sleeps, job.service, Ids(job.Olds())) ==>
                  Ids(q.world.store[job.service].replicas) !! Ids(job.Olds()))
  {
    hide RunMoves, Orderly, Calm, Steady, Parted, Drift, Ids, CountsKept, Slept, Lasting, WaitedFor, AllWaited,
         Flatten, StagesFit;
    AllDone(stages, job.Olds(), job.size);
    if Calm(sleeps, job.service) {
      CalmHasNoDrift(sleeps, job.service);
    }
  }

  function UnfinishedMoves(job: Job, stages: seq<Stage>, raised: int, k: nat, n: nat): seq<Move> {
    job.Moves(stages) + ([Other(SetCount(job.service, raised))] + SleepMoves(job.plan, k, n))
  }

  /** The service goes while the rollout waits. */
  lemma BreaksOff(
    job: Job, p: Platform, now: Platform, stages: seq<Stage>, olds: seq<Replica>, sleeps: seq<Sleep>, raised: int,
    more: seq<Sleep>)
    requires Midway(job, p, stages, olds, sleeps)
    requires Slept(more, job.plan, |sleeps|) && Chained(more, Moved(p, Other(SetCount(job.service, raised))), now)
    requires !Lasting(more, job.service)
    ensures var moves := UnfinishedMoves(job, stages, raised, |sleeps|, |more|);
            && now == RunMoves(job.start, moves)
            && AllWaited(stages, sleeps + more, job.service)
            && Slept(sleeps + more, job.plan, 0) && !Lasting(sleeps + more, job.service)
            && (job.Fair(sleeps + more) ==> Orderly(job.start, moves, now, job.service, job.Olds()))
  {
    hide Moved, RunMoves, Orderly, Good, OthersLegal, Sound, Ids, Slept, Lasting, WaitedFor, AllWaited, InProgress,
         Kept, Named, SleepMoves, Clock, Chained, StagesMoves;
    var s, all, up := job.service, job.Olds(), Other(SetCount(job.service, raised));
    var slept := SleepMoves(job.plan, |sleeps|, |more|);
    SleptTogether(sleeps, more, job.plan, 0);
    WaitedMore(stages, sleeps, s, more);
    SleepsTogether(sleeps, more, s, {});
    RunAsleep(more, job.plan, |sleeps|, Moved(p, up), now);
    RunOne(p, up);
    RunMovesAppend(p, [up], slept);
    RunMovesAppend(job.start, job.Moves(stages), [up] + slept);
    if job.Fair(sleeps + more) {
      OthersTogether(sleeps, more, job.plan, 0, Ids(all));
      if Good(p, s, all) {
        StartAsleep(p, up.step, more, job.plan, |sleeps|, now, s, all);
      }
      OrderlyThen(job.start, job.Moves(stages), p, [up] + slept, now, s, all);
    }
  }
}
