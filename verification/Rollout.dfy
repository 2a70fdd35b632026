/** Rollouts: what they report, what happens while they sleep, and a rollout as a run of the platform. */
module Rollouts {
  import opened Wrappers
  import opened Nodes
  import opened Scheduler
  import opened Routing
  import opened Worlds
  import opened Reconcile
  import opened Runs
  import opened Outdated
  import opened LateVisits
  import opened Lineage
  import opened Platforms

  const WAIT_INTERVAL: nat := 2
  const WAIT_TIMEOUT: nat := 60

  // ---- What a rollout reports ----

  /** One batch: the counts written before and after the wait, the number of sleeps, and the progress event. */
  datatype Stage = Stage(batch: seq<Replica>, raised: int, polls: nat, lowered: int, progress: (nat, nat))

  datatype RolloutReport = RolloutReport(survived: bool, stages: seq<Stage>)

  /** Replicas running under an id outside the given ones. */
  function RunningOutside(rs: seq<Replica>, ids: set<string>): nat {
    |RunningOf(Without(rs, ids))|
  }

  /** Where a list has a running replica whose id is none of the batch's. */
  ghost function Replacements(rs: seq<Replica>, batch: seq<Replica>): set<nat> {
    set i: nat | i < |rs| && rs[i].status == Running && (forall b :: b in batch ==> b.id != rs[i].id)
  }

  lemma {:induction false} ReplacementsCounted(rs: seq<Replica>, batch: seq<Replica>)
    ensures RunningOutside(rs, Ids(batch)) == |Replacements(rs, batch)|
  {
    if rs == [] {
      assert Replacements(rs, batch) == {};
    } else {
      var n := |rs| - 1;
      var front, last := rs[..n], rs[n];
      assert rs == front + [last];
      ReplacementsCounted(front, batch);
      ReplacementsGrow(front, last, batch);
      OutsideGrows(front, last, Ids(batch));
    }
  }

  lemma OutsideGrows(front: seq<Replica>, last: Replica, ids: set<string>)
    ensures RunningOutside(front + [last], ids)
         == RunningOutside(front, ids) + if last.status == Running && last.id !in ids then 1 else 0
  {
    WithoutAppend(front, [last], ids);
    RunningAppend(Without(front, ids), Without([last], ids));
    assert [last][1..] == [];
  }

  lemma ReplacementsGrow(front: seq<Replica>, last: Replica, batch: seq<Replica>)
    ensures |Replacements(front + [last], batch)|
         == |Replacements(front, batch)| + if last.status == Running && last.id !in Ids(batch) then 1 else 0
  {
    var n, before, after := |front|, Replacements(front, batch), Replacements(front + [last], batch);
    var outside := last.status == Running && last.id !in Ids(batch);
    assert outside <==> last.status == Running && forall b :: b in batch ==> b.id != last.id;
    forall i: nat ensures i in after <==> i in before || (outside && i == n) {
      if i < n {
        assert (front + [last])[i] == front[i];
      }
    }
    assert after == before + if outside then {n} else {};
  }

  function Flatten(stages: seq<Stage>): seq<Replica> {
    if stages == [] then [] else Flatten(stages[..|stages| - 1]) + stages[|stages| - 1].batch
  }

  function Clock(stages: seq<Stage>): nat {
    if stages == [] then 0 else Clock(stages[..|stages| - 1]) + stages[|stages| - 1].polls
  }

  /** Every batch has between one and `size` replicas, waits between one and thirty polls, and reports how many replicas
      have been replaced so far, out of how many. */
  ghost predicate StagesFit(stages: seq<Stage>, total: nat, size: nat) {
    forall i :: 0 <= i < |stages| ==> StageFits(stages, i, total, size)
  }

  ghost predicate StageFits(stages: seq<Stage>, i: nat, total: nat, size: nat)
    requires i < |stages|
  {
    && 1 <= |stages[i].batch| <= size && 1 <= stages[i].polls <= 30
    && stages[i].progress == (|Flatten(stages[..i + 1])|, total)
  }

  /** The rollout replaced all of `olds` in order, in batches as large as possible. */
  ghost predicate Replaced(stages: seq<Stage>, olds: seq<Replica>, size: nat)
    requires size >= 1
  {
    Flatten(stages) == olds && |stages| == (|olds| + size - 1) / size && StagesFit(stages, |olds|, size)
  }

  /** The count was raised by each batch and put back each time. */
  ghost predicate CountsKept(stages: seq<Stage>, start: int) {
    forall i :: 0 <= i < |stages| ==> stages[i].raised == start + |stages[i].batch| && stages[i].lowered == start
  }

  /** With `olds` still to be replaced. */
  ghost predicate InProgress(stages: seq<Stage>, all: seq<Replica>, olds: seq<Replica>, size: nat)
    requires size >= 1
  {
    && all == Flatten(stages) + olds
    && (olds != [] ==> |Flatten(stages)| == size * |stages|)
    && (olds == [] ==> |stages| == (|all| + size - 1) / size)
    && StagesFit(stages, |all|, size)
  }

  lemma StageAppended(stages: seq<Stage>, stage: Stage)
    ensures Flatten(stages + [stage]) == Flatten(stages) + stage.batch
    ensures Clock(stages + [stage]) == Clock(stages) + stage.polls
  {
    assert (stages + [stage])[..|stages|] == stages;
  }

  lemma CeilingOf(size: nat, full: nat, last: nat)
    requires size >= 1 && 1 <= last <= size
    ensures (size * full + last + size - 1) / size == full + 1
  {
    var a := size * full + last + size - 1;
    QuotientAtLeast(a, size, full + 1);
    QuotientAtLeast(a, size, full + 2);
    assert (full + 1) * size == size * full + size;
    assert (full + 2) * size == size * full + 2 * size;
  }

  lemma NothingDone(all: seq<Replica>, size: nat)
    requires size >= 1
    ensures InProgress([], all, all, size) && Flatten([]) == [] && Clock([]) == 0
  {
    QuotientAtLeast(size - 1, size, 0);
    QuotientAtLeast(size - 1, size, 1);
    assert [] + all == all;
  }

  lemma FitAppended(stages: seq<Stage>, stage: Stage, total: nat, size: nat)
    requires StagesFit(stages, total, size)
    requires 1 <= |stage.batch| <= size && 1 <= stage.polls <= 30
    requires stage.progress == (|Flatten(stages)| + |stage.batch|, total)
    ensures StagesFit(stages + [stage], total, size)
  {
    hide Flatten, StageFits;
    var more := stages + [stage];
    LastFits(stages, stage, total, size);
    forall i: nat | i < |stages| ensures StageFits(more, i, total, size) {
      assert StageFits(stages, i, total, size);
      StillFits(stages, stage, i, total, size);
    }
  }

  lemma LastFits(stages: seq<Stage>, stage: Stage, total: nat, size: nat)
    requires 1 <= |stage.batch| <= size && 1 <= stage.polls <= 30
    requires stage.progress == (|Flatten(stages)| + |stage.batch|, total)
    ensures StageFits(stages + [stage], |stages|, total, size)
  {
    hide Flatten;
    StageAppended(stages, stage);
    assert (stages + [stage])[..|stages| + 1] == stages + [stage];
  }

  lemma StillFits(stages: seq<Stage>, stage: Stage, i: nat, total: nat, size: nat)
    requires i < |stages| && StageFits(stages, i, total, size)
    ensures StageFits(stages + [stage], i, total, size)
  {
    hide Flatten;
    assert (stages + [stage])[..i + 1] == stages[..i + 1];
  }

  lemma StageDone(stages: seq<Stage>, all: seq<Replica>, before: seq<Replica>, olds: seq<Replica>, size: nat, stage: Stage)
    requires size >= 1 && before != [] && InProgress(stages, all, before, size)
    requires stage.batch == before[..Min(size, |before|)] && olds == before[Min(size, |before|)..]
    requires 1 <= stage.polls <= 30 && stage.progress == (|Flatten(stages)| + |stage.batch|, |all|)
    ensures InProgress(stages + [stage], all, olds, size)
  {
    hide Flatten, StagesFit;
    StageAppended(stages, stage);
    FitAppended(stages, stage, |all|, size);
    assert before == stage.batch + olds;
    var full := |stages|;
    if olds == [] {
      CeilingOf(size, full, |stage.batch|);
    } else {
      assert |stage.batch| == size;
      assert size * (full + 1) == size * full + size;
    }
  }

  lemma AllDone(stages: seq<Stage>, all: seq<Replica>, size: nat)
    requires size >= 1 && InProgress(stages, all, [], size)
    ensures Replaced(stages, all, size)
  {}

  lemma FlattenIds(stages: seq<Stage>, all: seq<Replica>, olds: seq<Replica>, stage: Stage)
    requires all == Flatten(stages) + olds
    ensures Ids(Flatten(stages)) <= Ids(all)
    ensures Ids(Flatten(stages + [stage])) == Ids(Flatten(stages)) + Ids(stage.batch)
  {
    StageAppended(stages, stage);
    forall id | id in Ids(Flatten(stages)) ensures id in Ids(all) {
      var r :| r in Flatten(stages) && r.id == id;
      assert r in all;
    }
  }

  lemma WithoutIds(rs: seq<Replica>, ids: set<string>)
    ensures Ids(Without(rs, ids)) == Ids(rs) - ids
  {
    WithoutMembers(rs, ids);
    forall id | id in Ids(rs) - ids ensures id in Ids(Without(rs, ids)) {
      var r :| r in rs && r.id == id;
      assert r in Without(rs, ids);
    }
  }

  // ---- Sleeps ----

  /** While the rollout sleeps, the others take their moves. */
  datatype Sleep = Sleep(before: Platform, after: Platform)

  /** From the k-th sleep on, each is the run of what the others do in it. */
  ghost predicate Slept(sleeps: seq<Sleep>, plan: nat -> seq<Move>, k: nat) {
    forall i :: 0 <= i < |sleeps| ==> sleeps[i].after == RunMoves(sleeps[i].before, plan(k + i))
  }

  /** One after the other, with nothing in between. */
  ghost predicate Chained(sleeps: seq<Sleep>, first: Platform, last: Platform)
    decreases |sleeps|
  {
    var n := |sleeps| - 1;
    if sleeps == [] then first == last else sleeps[n].after == last && Chained(sleeps[..n], first, sleeps[n].before)
  }

  /** The service is there after every sleep. */
  ghost predicate Lasting(sleeps: seq<Sleep>, service: string) {
    forall i :: 0 <= i < |sleeps| ==> service in sleeps[i].after.world.store
  }

  /** If the service is there afterwards, it was there before with the same count. */
  ghost predicate CountKept(w: World, w': World, service: string) {
    service in w'.store ==> service in w.store && w'.store[service].spec.replicas == w.store[service].spec.replicas
  }

  ghost predicate ImageKept(w: World, w': World, service: string) {
    service in w'.store ==> service in w.store && w'.store[service].spec.image == w.store[service].spec.image
  }

  /** None of the given ids is recorded afterwards that was not before. */
  ghost predicate NoneBack(w: World, w': World, service: string, ids: set<string>) {
    forall id :: id in ids && service in w'.store && id in Ids(w'.store[service].replicas) ==>
      service in w.store && id in Ids(w.store[service].replicas)
  }

  ghost predicate Calm(sleeps: seq<Sleep>, service: string) {
    forall i :: 0 <= i < |sleeps| ==> CountKept(sleeps[i].before.world, sleeps[i].after.world, service)
  }

  ghost predicate Steady(sleeps: seq<Sleep>, service: string) {
    forall i :: 0 <= i < |sleeps| ==> ImageKept(sleeps[i].before.world, sleeps[i].after.world, service)
  }

  ghost predicate Parted(sleeps: seq<Sleep>, service: string, ids: set<string>) {
    forall i :: 0 <= i < |sleeps| ==> NoneBack(sleeps[i].before.world, sleeps[i].after.world, service, ids)
  }

  function CountOf(store: Store, service: string): int {
    if service in store then store[service].spec.replicas else 0
  }

  /** What others added to the count in all the sleeps. */
  function Drift(sleeps: seq<Sleep>, service: string): int {
    if sleeps == [] then 0
    else
      var n := |sleeps| - 1;
      Drift(sleeps[..n], service)
      + CountOf(sleeps[n].after.world.store, service) - CountOf(sleeps[n].before.world.store, service)
  }

  lemma NoSleeps(p: Platform, plan: nat -> seq<Move>, k: nat)
    ensures Slept([], plan, k) && Chained([], p, p) && RunMoves(p, []) == p
  {}

  lemma ChainedMore(sleeps: seq<Sleep>, first: Platform, sleep: Sleep)
    requires Chained(sleeps, first, sleep.before)
    ensures Chained(sleeps + [sleep], first, sleep.after)
  {
    assert (sleeps + [sleep])[..|sleeps|] == sleeps;
  }

  lemma {:induction false} ChainDrift(sleeps: seq<Sleep>, first: Platform, last: Platform, service: string)
    requires Chained(sleeps, first, last)
    ensures CountOf(last.world.store, service) == CountOf(first.world.store, service) + Drift(sleeps, service)
    decreases |sleeps|
  {
    if sleeps != [] {
      var n := |sleeps| - 1;
      ChainDrift(sleeps[..n], first, sleeps[n].before, service);
    }
  }

  lemma {:induction false} ChainSteady(sleeps: seq<Sleep>, first: Platform, last: Platform, service: string)
    requires Chained(sleeps, first, last) && Steady(sleeps, service)
    ensures ImageKept(first.world, last.world, service)
    decreases |sleeps|
  {
    if sleeps != [] {
      var n := |sleeps| - 1;
      ChainSteady(sleeps[..n], first, sleeps[n].before, service);
    }
  }

  lemma NoneBackTwice(w: World, w1: World, w2: World, service: string, ids: set<string>)
    requires NoneBack(w, w1, service, ids) && NoneBack(w1, w2, service, ids)
    ensures NoneBack(w, w2, service, ids)
  {
    hide Ids;
  }

  lemma {:induction false} ChainParted(
    sleeps: seq<Sleep>, first: Platform, last: Platform, service: string, ids: set<string>)
    requires Chained(sleeps, first, last) && Parted(sleeps, service, ids)
    ensures NoneBack(first.world, last.world, service, ids)
    decreases |sleeps|
  {
    if sleeps != [] {
      hide NoneBack;
      var n := |sleeps| - 1;
      ChainParted(sleeps[..n], first, sleeps[n].before, service, ids);
      NoneBackTwice(first.world, sleeps[n].before.world, last.world, service, ids);
    }
  }

  /** A calm chain of sleeps that the service survives has no drift. */
  lemma {:induction false} CalmHasNoDrift(sleeps: seq<Sleep>, service: string)
    requires Calm(sleeps, service) && Lasting(sleeps, service)
    ensures Drift(sleeps, service) == 0
    decreases |sleeps|
  {
    if sleeps != [] {
      var n := |sleeps| - 1;
      CalmHasNoDrift(sleeps[..n], service);
      assert CountKept(sleeps[n].before.world, sleeps[n].after.world, service);
    }
  }

  lemma {:induction false} DriftTogether(a: seq<Sleep>, b: seq<Sleep>, service: string)
    ensures Drift(a + b, service) == Drift(a, service) + Drift(b, service)
    decreases |b|
  {
    if b == [] {
      assert a + b == a;
    } else {
      var n := |b| - 1;
      assert (a + b)[..|a + b| - 1] == a + b[..n];
      DriftTogether(a, b[..n], service);
    }
  }

  lemma SleptTogether(a: seq<Sleep>, b: seq<Sleep>, plan: nat -> seq<Move>, k: nat)
    requires Slept(a, plan, k) && Slept(b, plan, k + |a|)
    ensures Slept(a + b, plan, k)
  {
    hide RunMoves;
    forall i | 0 <= i < |a + b| ensures (a + b)[i].after == RunMoves((a + b)[i].before, plan(k + i)) {
      if i >= |a| {
        assert (a + b)[i] == b[i - |a|] && k + |a| + (i - |a|) == k + i;
      }
    }
  }

  lemma SleepsTogether(a: seq<Sleep>, b: seq<Sleep>, service: string, ids: set<string>)
    ensures Lasting(a + b, service) <==> Lasting(a, service) && Lasting(b, service)
    ensures Calm(a + b, service) <==> Calm(a, service) && Calm(b, service)
    ensures Steady(a + b, service) <==> Steady(a, service) && Steady(b, service)
    ensures Parted(a + b, service, ids) <==> Parted(a, service, ids) && Parted(b, service, ids)
    ensures Drift(a + b, service) == Drift(a, service) + Drift(b, service)
  {
    hide CountKept, ImageKept, NoneBack;
    DriftTogether(a, b, service);
    forall i | 0 <= i < |b| ensures (a + b)[|a| + i] == b[i] {
    }
    assert forall i :: |a| <= i < |a + b| ==> (a + b)[i] == b[i - |a|];
    assert forall i :: 0 <= i < |a| ==> (a + b)[i] == a[i];
  }

  // ---- What a rollout waits for ----

  /** The waiting for a batch: the service is there and too few replicas run outside the batch after every sleep but the
      last, and if that is not the thirtieth, enough do after it, or the service is gone. */
  ghost predicate WaitedFor(sleeps: seq<Sleep>, service: string, batch: seq<Replica>) {
    && 1 <= |sleeps| <= 30
    && (forall i :: 0 <= i < |sleeps| - 1 ==>
          var store := sleeps[i].after.world.store;
          service in store && |Replacements(store[service].replicas, batch)| < |batch|)
    && var store := sleeps[|sleeps| - 1].after.world.store;
       |sleeps| < 30 && service in store ==> |Replacements(store[service].replicas, batch)| >= |batch|
  }

  /** The i-th batch was waited for in its own sleeps, those after the earlier batches'. */
  ghost predicate StageWaited(stages: seq<Stage>, i: nat, sleeps: seq<Sleep>, service: string)
    requires i < |stages|
  {
    var k := Clock(stages[..i]);
    k + stages[i].polls <= |sleeps| && WaitedFor(sleeps[k..k + stages[i].polls], service, stages[i].batch)
  }

  ghost predicate AllWaited(stages: seq<Stage>, sleeps: seq<Sleep>, service: string) {
    forall i: nat :: i < |stages| ==> StageWaited(stages, i, sleeps, service)
  }

  lemma StillWaited(stages: seq<Stage>, i: nat, sleeps: seq<Sleep>, service: string, later: seq<Stage>, more: seq<Sleep>)
    requires i < |stages| && StageWaited(stages, i, sleeps, service)
    ensures StageWaited(stages + later, i, sleeps + more, service)
  {
    hide WaitedFor, Clock;
    var k := Clock(stages[..i]);
    assert (stages + later)[..i] == stages[..i];
    assert (sleeps + more)[k..k + stages[i].polls] == sleeps[k..k + stages[i].polls];
  }

  lemma WaitedMore(stages: seq<Stage>, sleeps: seq<Sleep>, service: string, more: seq<Sleep>)
    requires AllWaited(stages, sleeps, service)
    ensures AllWaited(stages, sleeps + more, service)
  {
    hide StageWaited;
    forall i: nat | i < |stages| ensures StageWaited(stages, i, sleeps + more, service) {
      StillWaited(stages, i, sleeps, service, [], more);
      assert stages + [] == stages;
    }
  }

  lemma WaitedNext(stages: seq<Stage>, sleeps: seq<Sleep>, service: string, stage: Stage, more: seq<Sleep>)
    requires AllWaited(stages, sleeps, service) && |sleeps| == Clock(stages)
    requires |more| == stage.polls && WaitedFor(more, service, stage.batch)
    ensures AllWaited(stages + [stage], sleeps + more, service)
  {
    LastWaited(stages, sleeps, service, stage, more);
    hide StageWaited;
    var n := |stages|;
    forall i: nat | i < n ensures StageWaited(stages + [stage], i, sleeps + more, service) {
      StillWaited(stages, i, sleeps, service, [stage], more);
    }
  }

  lemma LastWaited(stages: seq<Stage>, sleeps: seq<Sleep>, service: string, stage: Stage, more: seq<Sleep>)
    requires |sleeps| == Clock(stages) && |more| == stage.polls && WaitedFor(more, service, stage.batch)
    ensures StageWaited(stages + [stage], |stages|, sleeps + more, service)
  {
    hide WaitedFor, Clock;
    assert (stages + [stage])[..|stages|] == stages;
    assert (sleeps + more)[|sleeps|..|sleeps| + |more|] == more;
  }

  // ---- A rollout as a run of the platform ----

  /** What the others do in `n` sleeps from the k-th on. */
  function SleepMoves(plan: nat -> seq<Move>, k: nat, n: nat): seq<Move> {
    if n == 0 then [] else SleepMoves(plan, k, n - 1) + plan(k + n - 1)
  }

  function StageMoves(service: string, stage: Stage, slept: seq<Move>): seq<Move> {
    [Other(SetCount(service, stage.raised))] + slept
    + [Other(SetCount(service, stage.lowered)), RemoveOld(service, stage.batch)]
  }

  function StagesMoves(service: string, plan: nat -> seq<Move>, stages: seq<Stage>): seq<Move> {
    if stages == [] then []
    else
      var before, stage := stages[..|stages| - 1], stages[|stages| - 1];
      StagesMoves(service, plan, before) + StageMoves(service, stage, SleepMoves(plan, Clock(before), stage.polls))
  }

  /** The rollout's own writes and removals, with everything that others do while it sleeps. */
  function RolloutMoves(service: string, image: string, plan: nat -> seq<Move>, stages: seq<Stage>): seq<Move> {
    [Other(SetImage(service, image)), Other(SetStatus(service, Updating))]
    + StagesMoves(service, plan, stages) + [Other(SetStatus(service, Running))]
  }

  lemma StagesMovesAppended(service: string, plan: nat -> seq<Move>, stages: seq<Stage>, stage: Stage)
    ensures StagesMoves(service, plan, stages + [stage])
         == StagesMoves(service, plan, stages)
            + StageMoves(service, stage, SleepMoves(plan, Clock(stages), stage.polls))
  {
    hide SleepMoves, StageMoves;
    var more := stages + [stage];
    assert more[..|more| - 1] == stages && more[|more| - 1] == stage;
  }

  lemma {:induction false} RunOne(p: Platform, m: Move)
    ensures RunMoves(p, [m]) == Moved(p, m)
  {
    hide Moved;
    assert [m][1..] == [] && RunMoves(Moved(p, m), []) == Moved(p, m);
  }

  lemma {:induction false} RunTwo(p: Platform, a: Move, b: Move)
    ensures RunMoves(p, [a, b]) == Moved(Moved(p, a), b)
  {
    hide RunMoves, Moved;
    RunOne(p, a);
    RunOne(Moved(p, a), b);
    RunMovesAppend(p, [a], [b]);
    assert [a] + [b] == [a, b];
  }

  lemma {:induction false} RunAsleep(sleeps: seq<Sleep>, plan: nat -> seq<Move>, k: nat, first: Platform, last: Platform)
    requires Slept(sleeps, plan, k) && Chained(sleeps, first, last)
    ensures RunMoves(first, SleepMoves(plan, k, |sleeps|)) == last
    decreases |sleeps|
  {
    if sleeps != [] {
      var n := |sleeps| - 1;
      RunAsleep(sleeps[..n], plan, k, first, sleeps[n].before);
      RunMovesAppend(first, SleepMoves(plan, k, n), plan(k + n));
    }
  }

  // ---- Ledger and routes ----

  /** Sound, and the given replicas are copies of what the service had, however long ago. */
  ghost predicate Good(p: Platform, service: string, olds: seq<Replica>) {
    Sound(p) && OldCopies(p.world.store, service, olds)
  }

  /** Nothing is launched under one of these ids. */
  ghost predicate LaunchesOthers(m: Move, ids: set<string>) {
    match m
    case VisitNext(_, supply) => forall i: nat :: supply(i).Launched? ==> supply(i).id !in ids
    case _ => true
  }

  ghost function Strangers(ids: set<string>): iset<string> {
    iset id: string | id !in ids
  }

  lemma SameFollows(store: Store, launched: iset<string>)
    ensures Follows(store, store, launched)
  {}

  lemma {:induction false} ReleaseKeepsStore(w: World, spec: ServiceSpec, rs: seq<Replica>)
    ensures ReleaseEach(w, spec, rs).store == w.store
    decreases |rs|
  {
    if rs != [] {
      ReleaseKeepsStore(
        w.(docker := w.docker - {rs[0].container},
           ledger := Deallocated(w.ledger, rs[0].node, rs[0].id, spec.cpu, spec.mem)), spec, rs[1..]);
    }
  }

  /** No step but a visit gives an id to anyone. */
  lemma StepFollows(w: World, step: Step, launched: iset<string>)
    requires !step.Visit?
    ensures Follows(w.store, After(w, step).store, launched)
  {
    hide ReleaseEach, SetAll, Follows;
    SameFollows(w.store, launched);
    match step
    case DeleteNow(s) =>
      if s in w.store {
        ReleaseKeepsStore(w, w.store[s].spec, w.store[s].replicas);
        DropFollows(w.store, s, launched);
      }
    case AddService(spec) =>
      if spec.name !in w.store { PutFollows(w.store, spec.name, Service(spec, Pending, []), launched); }
    case SetCount(s, n) =>
      if s in w.store { PutFollows(w.store, s, w.store[s].(spec := w.store[s].spec.(replicas := n)), launched); }
    case SetImage(s, i) =>
      if s in w.store { PutFollows(w.store, s, w.store[s].(spec := w.store[s].spec.(image := i)), launched); }
    case SetStatus(s, status) => if s in w.store { PutFollows(w.store, s, w.store[s].(status := status), launched); }
    case _ =>
  }

  /** No harmless move gives an existing replica's id to another replica, except by launching one under it. */
  lemma MoveFollows(p: Platform, m: Move, ids: set<string>)
    requires Sound(p) && LegalMove(p, m) && HarmlessMove(p, m) && LaunchesOthers(m, ids)
    ensures Follows(p.world.store, Moved(p, m).world.store, Strangers(ids))
  {
    hide Follows, StartsOnly, VisitService, RemoveEach, After, LedgerMatches, RoutesMatch, ListedBefore, VisitHarmless;
    var w := p.world;
    var claims :| Consistent(w, claims);
    ConsistentIsNamed(w, claims);
    SameFollows(w.store, Strangers(ids));
    match m
    case List(_) =>
    case VisitNext(policy, supply) =>
      if p.listed != [] {
        VisitFollows(p, policy, supply, claims);
        WiderFollows(w.store, VisitService(w, p.listed[0], policy, supply).store, IdsOf(supply), Strangers(ids));
      }
    case RemoveOld(s, copies) =>
      if s in w.store { RemoveEachFollows(w, w.store[s].spec, copies, Strangers(ids)); }
    case Edit(s, spec) =>
      if s in w.store { PutFollows(w.store, s, w.store[s].(spec := spec), Strangers(ids)); }
    case Other(step) => StepFollows(w, step, Strangers(ids));
  }

  lemma WiderFollows(store: Store, store': Store, a: iset<string>, b: iset<string>)
    requires Follows(store, store', a) && a <= b
    ensures Follows(store, store', b)
  {
    hide Body;
  }

  lemma CopiesFollow(store: Store, store': Store, service: string, olds: seq<Replica>)
    requires OldCopies(store, service, olds) && Follows(store, store', Strangers(Ids(olds)))
    ensures OldCopies(store', service, olds)
  {
    hide OldCopy, Follows;
    forall r | r in olds ensures OldCopy(store', service, r) {
      CopyFollows(store, store', Strangers(Ids(olds)), service, r);
    }
  }

  lemma MoveKeepsGood(p: Platform, m: Move, service: string, olds: seq<Replica>)
    requires Good(p, service, olds) && LegalMove(p, m) && HarmlessMove(p, m) && LaunchesOthers(m, Ids(olds))
    ensures Good(Moved(p, m), service, olds)
  {
    hide Sound, OldCopies, LegalMove, HarmlessMove, LaunchesOthers, Moved;
    MoveIff(p, m);
    MoveFollows(p, m, Ids(olds));
    CopiesFollow(p.world.store, Moved(p, m).world.store, service, olds);
  }

  /** The moves lead from `start` to `now`, legally as far as they are harmless, and if they all are, the end is good. */
  ghost predicate Orderly(start: Platform, moves: seq<Move>, now: Platform, service: string, olds: seq<Replica>) {
    && now == RunMoves(start, moves)
    && LegalMoves(start, moves)
    && (HarmlessMoves(start, moves) ==> Good(now, service, olds))
  }

  lemma {:induction false} MovesTogether(p: Platform, a: seq<Move>, b: seq<Move>)
    ensures HarmlessMoves(p, a + b) <==> HarmlessMoves(p, a) && HarmlessMoves(RunMoves(p, a), b)
    ensures LegalMoves(p, a) && (HarmlessMoves(p, a) ==> LegalMoves(RunMoves(p, a), b)) ==> LegalMoves(p, a + b)
    decreases |a|
  {
    hide LegalMove, HarmlessMove, Moved;
    if a == [] {
      assert a + b == b;
    } else {
      assert (a + b)[1..] == a[1..] + b;
      MovesTogether(Moved(p, a[0]), a[1..], b);
    }
  }

  lemma OrderlyThen(
    start: Platform, a: seq<Move>, mid: Platform, b: seq<Move>, now: Platform, service: string, olds: seq<Replica>)
    requires Orderly(start, a, mid, service, olds) && now == RunMoves(mid, b)
    requires Good(mid, service, olds) ==> Orderly(mid, b, now, service, olds)
    ensures Orderly(start, a + b, now, service, olds)
  {
    hide RunMoves, LegalMoves, HarmlessMoves, Good;
    RunMovesAppend(start, a, b);
    MovesTogether(start, a, b);
  }

  lemma {:induction false} OrderlyNothing(p: Platform, service: string, olds: seq<Replica>)
    requires Good(p, service, olds)
    ensures Orderly(p, [], p, service, olds)
  {
    hide Good;
  }

  /** Whatever the others do, as long as it is legal and launches no old id. */
  lemma {:induction false} OrderlyOthers(p: Platform, moves: seq<Move>, service: string, olds: seq<Replica>)
    requires Good(p, service, olds) && LegalMoves(p, moves)
    requires forall m :: m in moves ==> LaunchesOthers(m, Ids(olds))
    ensures Orderly(p, moves, RunMoves(p, moves), service, olds)
    decreases |moves|
  {
    hide Good, LegalMove, HarmlessMove, LaunchesOthers, Moved;
    if moves != [] {
      var m := moves[0];
      assert m in moves && forall x :: x in moves[1..] ==> x in moves;
      if HarmlessMove(p, m) {
        MoveKeepsGood(p, m, service, olds);
        OrderlyOthers(Moved(p, m), moves[1..], service, olds);
      }
    }
  }

  /** The rollout's own writes. */
  lemma {:induction false} OrderlyWrite(p: Platform, step: Step, service: string, olds: seq<Replica>)
    requires Good(p, service, olds) && (step.SetCount? || step.SetImage? || step.SetStatus?)
    ensures Orderly(p, [Other(step)], Moved(p, Other(step)), service, olds)
  {
    hide Good, Moved;
    RunOne(p, Other(step));
    assert LegalMove(p, Other(step));
    OrderlyOthers(p, [Other(step)], service, olds);
  }

  /** The rollout's own removals. */
  lemma {:induction false} OrderlyRemoval(p: Platform, batch: seq<Replica>, service: string, olds: seq<Replica>)
    requires Good(p, service, olds) && UniqueIds(batch) && forall r :: r in batch ==> r in olds
    ensures Orderly(p, [RemoveOld(service, batch)], Moved(p, RemoveOld(service, batch)), service, olds)
  {
    BatchIsCopies(p.world.store, batch, service, olds);
    hide Good, Moved, OldCopies;
    RunOne(p, RemoveOld(service, batch));
    OrderlyOthers(p, [RemoveOld(service, batch)], service, olds);
  }

  lemma BatchIsCopies(store: Store, batch: seq<Replica>, service: string, olds: seq<Replica>)
    requires OldCopies(store, service, olds) && UniqueIds(batch) && forall r :: r in batch ==> r in olds
    ensures OldCopies(store, service, batch)
  {
    hide OldCopy;
  }

  /** What is assumed of the others, and only of sleeps that begin in a sound state: their moves are legal as far as they
      are harmless, and launch nothing under an old id. */
  ghost predicate OthersLegal(sleeps: seq<Sleep>, plan: nat -> seq<Move>, k: nat, ids: set<string>) {
    forall i :: 0 <= i < |sleeps| && Sound(sleeps[i].before) ==>
      LegalMoves(sleeps[i].before, plan(k + i)) && forall m :: m in plan(k + i) ==> LaunchesOthers(m, ids)
  }

  lemma OthersTogether(a: seq<Sleep>, b: seq<Sleep>, plan: nat -> seq<Move>, k: nat, ids: set<string>)
    requires OthersLegal(a + b, plan, k, ids)
    ensures OthersLegal(a, plan, k, ids) && OthersLegal(b, plan, k + |a|, ids)
  {
    hide Sound, LegalMoves, LaunchesOthers;
    var all := a + b;
    assert forall i :: 0 <= i < |a| ==> all[i] == a[i];
    forall i | 0 <= i < |b| && Sound(b[i].before)
      ensures LegalMoves(b[i].before, plan(k + |a| + i)) && forall m :: m in plan(k + |a| + i) ==> LaunchesOthers(m, ids) {
      assert all[|a| + i] == b[i] && k + (|a| + i) == k + |a| + i;
    }
  }

  lemma {:induction false} OrderlyAsleep(
    sleeps: seq<Sleep>, plan: nat -> seq<Move>, k: nat, first: Platform, last: Platform, service: string,
    olds: seq<Replica>)
    requires Slept(sleeps, plan, k) && Chained(sleeps, first, last) && OthersLegal(sleeps, plan, k, Ids(olds))
    requires Good(first, service, olds)
    ensures Orderly(first, SleepMoves(plan, k, |sleeps|), last, service, olds)
    decreases |sleeps|
  {
    hide RunMoves, LegalMoves, HarmlessMoves, OldCopies, LaunchesOthers, Sound, Ids, Orderly;
    if sleeps == [] {
      OrderlyNothing(first, service, olds);
    } else {
      var n := |sleeps| - 1;
      var mid := sleeps[n].before;
      OrderlyAsleep(sleeps[..n], plan, k, first, mid, service, olds);
      if Good(mid, service, olds) {
        OrderlyOthers(mid, plan(k + n), service, olds);
      }
      OrderlyThen(first, SleepMoves(plan, k, n), mid, plan(k + n), last, service, olds);
    }
  }

  // ---- The ends of a rollout ----

  lemma StartsGood(p: Platform, service: string)
    requires Sound(p) && service in p.world.store
    ensures Good(p, service, p.world.store[service].replicas) && UniqueIds(p.world.store[service].replicas)
  {
    hide LedgerMatches, RoutesMatch, ListedBefore, AllRunning;
    var store := p.world.store;
    var claims :| Consistent(p.world, claims);
    DistinctInService(store, service);
    forall r | r in store[service].replicas ensures OldCopy(store, service, r) {
      CurrentIsCopy(store, service, r);
    }
  }

  lemma SliceOf(all: seq<Replica>, done: seq<Replica>, batch: seq<Replica>, olds: seq<Replica>)
    requires UniqueIds(all) && all == done + (batch + olds)
    ensures UniqueIds(batch) && forall x :: x in batch ==> x in all
  {
    forall i, j | 0 <= i < j < |batch| ensures batch[i].id != batch[j].id {
      assert all[|done| + i] == batch[i] && all[|done| + j] == batch[j];
    }
  }

  /** From a good start to the end of an orderly run: right all along exactly if every move was harmless. */
  lemma OrderlyIff(start: Platform, moves: seq<Move>, now: Platform, service: string, olds: seq<Replica>)
    requires Sound(start) && Orderly(start, moves, now, service, olds)
    ensures LegalMoves(start, moves) && (StaysExact(start, moves) <==> HarmlessMoves(start, moves))
  {
    hide Sound, RunMoves, LegalMoves, HarmlessMoves, StaysExact;
    RunExactIff(start, moves);
  }
}
