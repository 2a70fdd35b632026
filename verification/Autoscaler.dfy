/** The autoscaler and the collector that feeds it. */
module Autoscaling {
  import opened Arithmetic
  import opened Wrappers

  /** The part of a service record the autoscaler reads; it writes `replicas` only. */
  datatype Scalable = Scalable(replicas: int, minReplicas: int, maxReplicas: int)

  datatype Metrics = Metrics(cpu: real, rps: real)

  datatype Settings = Settings(cpuUp: real, rpsUp: real, cpuDown: real, rpsDown: real, checks: int)

  predicate ScaleUp(m: Metrics, s: Settings) {
    m.cpu > s.cpuUp || m.rps > s.rpsUp
  }

  predicate DownCandidate(m: Metrics, s: Settings) {
    m.cpu < s.cpuDown && m.rps < s.rpsDown
  }

  datatype Decision = UpDecision | HoldAtMax | DownDecision | WaitDown(consecutive: nat, required: int) | HoldAtMin | Hold

  /** `_autoscale_decision`. */
  function Decide(service: Scalable, counter: nat, up: bool, down: bool, checks: int): Decision {
    if up && service.replicas < service.maxReplicas then UpDecision
    else if up then HoldAtMax
    else if down && service.replicas > service.minReplicas then
      if counter + 1 >= checks then DownDecision else WaitDown(counter + 1, checks)
    else if down then HoldAtMin
    else Hold
  }

  /** What an evaluation does: change the replica count, count one more down-candidate, or clear the count. */
  datatype Action = Raise | Lower | Count | Clear

  function Act(service: Scalable, counter: nat, up: bool, down: bool, checks: int): Action {
    if up && service.replicas < service.maxReplicas then Raise
    else if down && service.replicas > service.minReplicas then
      if counter + 1 >= checks then Lower else Count
    else Clear
  }

  function Target(service: Scalable, a: Action): int {
    match a
    case Raise => Min(service.replicas + 1, service.maxReplicas)
    case Lower => Max(service.replicas - 1, service.minReplicas)
    case _ => service.replicas
  }

  function Counter(counter: nat, a: Action): nat {
    if a == Count then counter + 1 else 0
  }

  function CounterOf(counters: map<string, nat>, service: string): nat {
    if service in counters then counters[service] else 0
  }

  function Applied(store: map<string, Scalable>, name: string, seen: Scalable, a: Action): map<string, Scalable> {
    if (a == Raise || a == Lower) && name in store
    then store[name := store[name].(replicas := Target(seen, a))]
    else store
  }

  // ---- What an evaluation does, in readings and thresholds ----

  /** Below the maximum, and a reading is above its up threshold. */
  predicate GoesUp(service: Scalable, m: Metrics, s: Settings) {
    service.replicas < service.maxReplicas && (m.cpu > s.cpuUp || m.rps > s.rpsUp)
  }

  /** It does not go up, is above the minimum, and both readings are below their down thresholds. */
  predicate MayGoDown(service: Scalable, m: Metrics, s: Settings) {
    !GoesUp(service, m, s) && service.replicas > service.minReplicas && m.cpu < s.cpuDown && m.rps < s.rpsDown
  }

  /** The count grows by one exactly if the service goes up, shrinks by one exactly if it may go down and enough
      evaluations in a row have found so, this one included, and stays in every other case. The evaluations that found so
      are counted until then, and forgotten by any other. */
  lemma ActionMeans(service: Scalable, counter: nat, m: Metrics, s: Settings)
    ensures var a := Act(service, counter, ScaleUp(m, s), DownCandidate(m, s), s.checks);
            && (a == Raise <==> GoesUp(service, m, s))
            && (a == Lower <==> MayGoDown(service, m, s) && counter + 1 >= s.checks)
            && (a == Count <==> MayGoDown(service, m, s) && counter + 1 < s.checks)
            && Target(service, a) == service.replicas + (if a == Raise then 1 else if a == Lower then -1 else 0)
            && Counter(counter, a) == if a == Count then counter + 1 else 0
  {}

  /** What is published, read off the same numbers. */
  lemma DecisionMeans(service: Scalable, counter: nat, m: Metrics, s: Settings)
    ensures var d := Decide(service, counter, ScaleUp(m, s), DownCandidate(m, s), s.checks);
            var hot, cold := m.cpu > s.cpuUp || m.rps > s.rpsUp, m.cpu < s.cpuDown && m.rps < s.rpsDown;
            && (d == UpDecision <==> hot && service.replicas < service.maxReplicas)
            && (d == HoldAtMax <==> hot && service.replicas >= service.maxReplicas)
            && (d == DownDecision <==>
                  !hot && cold && service.replicas > service.minReplicas && counter + 1 >= s.checks)
            && (d == WaitDown(counter + 1, s.checks) <==>
                  !hot && cold && service.replicas > service.minReplicas && counter + 1 < s.checks)
            && (d == HoldAtMin <==> !hot && cold && service.replicas <= service.minReplicas)
            && (d == Hold <==> !hot && !cold)
  {}

  // ---- The collector ----

  function Reading(raw: Option<int>): int {
    if raw.Some? then raw.value else 0
  }

  /** The growth since the last reading, never negative; the first reading has no growth. */
  function Delta(last: map<string, int>, service: string, count: int): nat {
    if service in last then Max(0, count - last[service]) else 0
  }

  class MetricsCollector {
    const intervalSeconds: real
    var lastCounts: map<string, int>

    constructor (interval: real)
      requires interval > 0.0
      ensures intervalSeconds == interval && lastCounts == map[]
    {
      intervalSeconds, lastCounts := interval, map[];
    }

    method Collect(service: string, rawCpu: Option<real>, rawRps: Option<int>) returns (m: Metrics)
      requires intervalSeconds > 0.0
      modifies this
      ensures m.cpu == (if rawCpu.Some? then rawCpu.value else 0.0)
      ensures m.rps * intervalSeconds == Delta(old(lastCounts), service, Reading(rawRps)) as real
      ensures lastCounts == old(lastCounts)[service := Reading(rawRps)]
    {
      var cpu := if rawCpu.Some? then rawCpu.value else 0.0;
      var count := Reading(rawRps);
      var last := if service in lastCounts then lastCounts[service] else count;
      var delta := Max(0, count - last);
      var rps := delta as real / intervalSeconds;
      lastCounts := lastCounts[service := count];
      return Metrics(cpu, rps);
    }
  }

  datatype Collection = Collection(service: string, count: int)

  /** The sum of the deltas of one service over a sequence of collections for any services. */
  function Deltas(last: map<string, int>, collections: seq<Collection>, service: string): nat
    decreases |collections|
  {
    if collections == [] then 0
    else
      var c := collections[0];
      (if c.service == service then Delta(last, service, c.count) else 0)
      + Deltas(last[c.service := c.count], collections[1..], service)
  }

  function CountsOf(collections: seq<Collection>, service: string): seq<int> {
    if collections == [] then []
    else (if collections[0].service == service then [collections[0].count] else []) + CountsOf(collections[1..], service)
  }

  predicate Growing(counts: seq<int>) {
    forall i :: 0 <= i < |counts| - 1 ==> counts[i] <= counts[i + 1]
  }

  lemma GrowingCons(first: int, later: seq<int>)
    requires later != []
    ensures Growing([first] + later) <==> first <= later[0] && Growing(later)
  {
    var counts := [first] + later;
    if first <= later[0] && Growing(later) {
      forall i | 0 <= i < |counts| - 1 ensures counts[i] <= counts[i + 1] {
        assert i > 0 ==> later[i - 1] <= later[i];
      }
    }
    if Growing(counts) {
      assert counts[0] <= counts[1];
      forall i | 0 <= i < |later| - 1 ensures later[i] <= later[i + 1] {
        assert counts[i + 1] <= counts[i + 2];
      }
    }
  }

  lemma GrowingOne(first: int)
    ensures Growing([first] + [])
  {}

  lemma {:induction false} DeltasFrom(last: map<string, int>, collections: seq<Collection>, service: string)
    requires service in last
    ensures var counts := [last[service]] + CountsOf(collections, service);
            var growth := counts[|counts| - 1] - counts[0];
            && Deltas(last, collections, service) >= growth
            && (Deltas(last, collections, service) == growth <==> Growing(counts))
    decreases |collections|
  {
    hide Growing;
    if collections == [] {
      GrowingOne(last[service]);
    } else {
      var c := collections[0];
      var counts := [last[service]] + CountsOf(collections, service);
      var after := last[c.service := c.count];
      var later := [after[service]] + CountsOf(collections[1..], service);
      DeltasFrom(after, collections[1..], service);
      if c.service == service {
        GrowingCons(last[service], later);
        assert counts == [last[service]] + later;
      } else {
        assert counts == later;
      }
    }
  }

  /** From the first reading on, the deltas handed to the autoscaler add up to the growth of the counter exactly when the
      counter never went back; otherwise they exceed it. */
  lemma {:induction false} DeltasAreGrowthIff(collections: seq<Collection>, service: string)
    requires CountsOf(collections, service) != []
    ensures var counts := CountsOf(collections, service);
            var growth := counts[|counts| - 1] - counts[0];
            && Deltas(map[], collections, service) >= growth
            && (Deltas(map[], collections, service) == growth <==> Growing(counts))
  {
    DeltasUnread(map[], collections, service);
  }

  lemma DeltasUnfold(last: map<string, int>, collections: seq<Collection>, service: string)
    requires collections != []
    ensures var c := collections[0];
            var rest := CountsOf(collections[1..], service);
            && CountsOf(collections, service) == (if c.service == service then [c.count] + rest else rest)
            && Deltas(last, collections, service)
               == (if c.service == service then Delta(last, service, c.count) else 0)
                  + Deltas(last[c.service := c.count], collections[1..], service)
  {}

  lemma {:induction false} DeltasUnread(last: map<string, int>, collections: seq<Collection>, service: string)
    requires service !in last && CountsOf(collections, service) != []
    ensures var counts := CountsOf(collections, service);
            var growth := counts[|counts| - 1] - counts[0];
            && Deltas(last, collections, service) >= growth
            && (Deltas(last, collections, service) == growth <==> Growing(counts))
    decreases |collections|
  {
    hide Growing;
    var c := collections[0];
    var after := last[c.service := c.count];
    DeltasUnfold(last, collections, service);
    if c.service == service {
      DeltasFrom(after, collections[1..], service);
    } else {
      assert service !in after;
      DeltasUnread(after, collections[1..], service);
    }
  }

  // ---- The autoscaler ----

  class Autoscaler {
    const settings: Settings
    const collector: MetricsCollector
    var store: map<string, Scalable>
    var downCounters: map<string, nat>
    var lastDecisions: map<string, Decision>

    constructor (services: map<string, Scalable>, metrics: MetricsCollector, limits: Settings)
      ensures collector == metrics && settings == limits && store == services
      ensures downCounters == map[] && lastDecisions == map[]
    {
      settings, collector, store, downCounters, lastDecisions := limits, metrics, services, map[], map[];
    }

    /** Returns whether an evaluation event went out. */
    method PublishEvaluationIfChanged(name: string, decision: Decision) returns (published: bool)
      modifies this`lastDecisions
      ensures published <==> !(name in old(lastDecisions) && old(lastDecisions)[name] == decision)
      ensures lastDecisions == old(lastDecisions)[name := decision]
    {
      if name in lastDecisions && lastDecisions[name] == decision {
        return false;
      }
      lastDecisions := lastDecisions[name := decision];
      return true;
    }

    /** The record is read again before the write; a service that is gone by then is left alone. */
    method ApplyScale(name: string, replicas: int)
      modifies this`store
      ensures store == if name in old(store) then old(store)[name := old(store)[name].(replicas := replicas)]
                       else old(store)
    {
      if name !in store {
        return;
      }
      store := store[name := store[name].(replicas := replicas)];
    }

    /** One evaluation of the record `seen`, which may be older than the stored one. */
    method EvaluateService(name: string, seen: Scalable, rawCpu: Option<real>, rawRps: Option<int>)
      returns (m: Metrics, decision: Decision, published: bool)
      requires collector.intervalSeconds > 0.0
      modifies this, collector
      ensures m.rps * collector.intervalSeconds == Delta(old(collector.lastCounts), name, Reading(rawRps)) as real
      ensures m.cpu == (if rawCpu.Some? then rawCpu.value else 0.0)
      ensures collector.lastCounts == old(collector.lastCounts)[name := Reading(rawRps)]
      ensures var counter := CounterOf(old(downCounters), name);
              var a := Act(seen, counter, ScaleUp(m, settings), DownCandidate(m, settings), settings.checks);
              && store == Applied(old(store), name, seen, a)
              && downCounters == (if a == Count then old(downCounters)[name := counter + 1] else old(downCounters) - {name})
              && decision == Decide(seen, counter, ScaleUp(m, settings), DownCandidate(m, settings), settings.checks)
      ensures var complete := CounterOf(old(downCounters), name) + 1 >= settings.checks;
              && store.Keys == old(store).Keys
              && (name in old(store) ==>
                    store[name] == old(store)[name].(replicas :=
                      if GoesUp(seen, m, settings) then seen.replicas + 1
                      else if MayGoDown(seen, m, settings) && complete then seen.replicas - 1
                      else old(store)[name].replicas))
              && CounterOf(downCounters, name)
                 == if MayGoDown(seen, m, settings) && !complete then CounterOf(old(downCounters), name) + 1 else 0
      ensures lastDecisions == old(lastDecisions)[name := decision]
      ensures published <==> !(name in old(lastDecisions) && old(lastDecisions)[name] == decision)
      ensures name in old(store) && seen == old(store)[name] ==>
                name in store
                && Scaler(store[name], CounterOf(downCounters, name))
                   == Evaluated(Scaler(seen, CounterOf(old(downCounters), name)), m, settings)
      ensures forall other :: other != name ==>
                && (other in store <==> other in old(store)) && (other in store ==> store[other] == old(store)[other])
                && CounterOf(downCounters, other) == CounterOf(old(downCounters), other)
    {
      hide ScaleUp, DownCandidate, Delta, Reading, Decide, GoesUp, MayGoDown;
      m := collector.Collect(name, rawCpu, rawRps);
      ActionMeans(seen, CounterOf(downCounters, name), m, settings);
      var up, down := ScaleUp(m, settings), DownCandidate(m, settings);
      decision := Decide(seen, CounterOf(downCounters, name), up, down, settings.checks);
      published := PublishEvaluationIfChanged(name, decision);
      if up && seen.replicas < seen.maxReplicas {
        downCounters := downCounters - {name};
        ApplyScale(name, Min(seen.replicas + 1, seen.maxReplicas));
      } else if down && seen.replicas > seen.minReplicas {
        var consecutive := CounterOf(downCounters, name) + 1;
        downCounters := downCounters[name := consecutive];
        if consecutive >= settings.checks {
          downCounters := downCounters - {name};
          ApplyScale(name, Max(seen.replicas - 1, seen.minReplicas));
        }
      } else {
        downCounters := downCounters - {name};
      }
    }
  }

  /** The action a decision announces. */
  predicate Names(d: Decision, a: Action, counter: nat, checks: int) {
    match d
    case UpDecision => a == Raise
    case DownDecision => a == Lower
    case WaitDown(k, r) => a == Count && k == counter + 1 && r == checks
    case _ => a == Clear
  }

  /** The decision published before acting names the action taken, except exactly when a service at its maximum is at once
      asked to go up and a candidate to go down. */
  lemma DecisionNamesActionIff(service: Scalable, counter: nat, up: bool, down: bool, checks: int)
    ensures Names(Decide(service, counter, up, down, checks), Act(service, counter, up, down, checks), counter, checks)
            <==> !(up && down && service.replicas >= service.maxReplicas && service.replicas > service.minReplicas)
  {}

  /** With no down threshold above its up threshold that never happens. */
  lemma DecisionNamesAction(service: Scalable, counter: nat, m: Metrics, s: Settings)
    requires s.cpuDown <= s.cpuUp && s.rpsDown <= s.rpsUp
    ensures var up, down := ScaleUp(m, s), DownCandidate(m, s);
            Names(Decide(service, counter, up, down, s.checks), Act(service, counter, up, down, s.checks), counter, s.checks)
  {
    DecisionNamesActionIff(service, counter, ScaleUp(m, s), DownCandidate(m, s), s.checks);
  }

  // ---- Traces of one service with fixed bounds ----

  datatype Scaler = Scaler(service: Scalable, counter: nat)

  function ActionOf(x: Scaler, m: Metrics, s: Settings): Action {
    Act(x.service, x.counter, ScaleUp(m, s), DownCandidate(m, s), s.checks)
  }

  function Evaluated(x: Scaler, m: Metrics, s: Settings): Scaler {
    var a := ActionOf(x, m, s);
    Scaler(x.service.(replicas := Target(x.service, a)), Counter(x.counter, a))
  }

  /** The state after the first `n` evaluations. */
  function State(x: Scaler, history: seq<Metrics>, n: nat, s: Settings): Scaler
    requires n <= |history|
  {
    if n == 0 then x else Evaluated(State(x, history, n - 1, s), history[n - 1], s)
  }

  function Taken(x: Scaler, history: seq<Metrics>, i: nat, s: Settings): Action
    requires i < |history|
  {
    ActionOf(State(x, history, i, s), history[i], s)
  }

  /** On every metric history: from one evaluation to the next the count grows by one if and only if it is below the maximum
      and the CPU or the request rate is above its up threshold, shrinks by one if and only if it does not grow, is above
      the minimum, both are below their down thresholds and the block is complete, and stays otherwise. */
  lemma TraceMoves(x: Scaler, history: seq<Metrics>, i: nat, s: Settings)
    requires i < |history|
    ensures var before, after, m := State(x, history, i, s), State(x, history, i + 1, s), history[i];
            var n, k := before.service.replicas, after.service.replicas;
            && (k == n + 1 <==> n < before.service.maxReplicas && (m.cpu > s.cpuUp || m.rps > s.rpsUp))
            && (k == n - 1 <==>
                  && k != n + 1 && n > before.service.minReplicas && m.cpu < s.cpuDown && m.rps < s.rpsDown
                  && before.counter + 1 >= s.checks)
            && (k == n - 1 || k == n || k == n + 1)
            && after.counter
               == if MayGoDown(before.service, m, s) && before.counter + 1 < s.checks then before.counter + 1 else 0
  {
    hide Act, Target, Counter, ScaleUp, DownCandidate;
    var before := State(x, history, i, s);
    ActionMeans(before.service, before.counter, history[i], s);
  }

  /** How often `a` was taken among the first `n` evaluations. */
  function Times(x: Scaler, history: seq<Metrics>, n: nat, s: Settings, a: Action): nat
    requires n <= |history|
  {
    if n == 0 then 0 else Times(x, history, n - 1, s, a) + if Taken(x, history, n - 1, s) == a then 1 else 0
  }

  predicate Within(service: Scalable) {
    service.minReplicas <= service.replicas <= service.maxReplicas
  }

  /** On every metric history the replica count stays within the bounds it started in, moves by one per scaling, and is the
      start plus the scale-ups minus the scale-downs. */
  lemma {:induction false} StaysWithin(x: Scaler, history: seq<Metrics>, n: nat, s: Settings)
    requires n <= |history| && Within(x.service)
    ensures var service := State(x, history, n, s).service;
            && Within(service)
            && service.minReplicas == x.service.minReplicas
            && service.maxReplicas == x.service.maxReplicas
            && service.replicas == x.service.replicas + Times(x, history, n, s, Raise) - Times(x, history, n, s, Lower)
  {
    if n > 0 {
      StaysWithin(x, history, n - 1, s);
    }
  }

  /** The counter is shorter than the required number of checks, and says how many of the last evaluations were counted. */
  lemma {:induction false} CounterIsBlock(x: Scaler, history: seq<Metrics>, n: nat, s: Settings)
    requires n <= |history| && x.counter == 0
    ensures var counter := State(x, history, n, s).counter;
            && counter <= n
            && counter < Max(1, s.checks)
            && forall k :: n - counter <= k < n ==> Taken(x, history, k, s) == Count
  {
    if n > 0 {
      CounterIsBlock(x, history, n - 1, s);
      var before, after := State(x, history, n - 1, s), State(x, history, n, s);
      if Taken(x, history, n - 1, s) == Count {
        assert after.counter == before.counter + 1;
        forall k | n - after.counter <= k < n ensures Taken(x, history, k, s) == Count {
          if k < n - 1 {
            assert n - 1 - before.counter <= k < n - 1;
          }
        }
      }
    }
  }

  /** Every scale-down closes its own block of `max(1, R)` consecutive down-candidates: the evaluations before it in the
      block were all counted, so they belong to no other block. */
  lemma DownClosesBlock(x: Scaler, history: seq<Metrics>, i: nat, s: Settings)
    requires i < |history| && x.counter == 0 && Taken(x, history, i, s) == Lower
    ensures var block := Max(1, s.checks);
            && i + 1 >= block
            && (forall k :: i + 1 - block <= k < i ==> Taken(x, history, k, s) == Count)
            && (forall k :: i + 1 - block <= k <= i ==> history[k].cpu < s.cpuDown && history[k].rps < s.rpsDown)
  {
    CounterIsBlock(x, history, i, s);
    forall k | i + 1 - Max(1, s.checks) <= k <= i ensures history[k].cpu < s.cpuDown && history[k].rps < s.rpsDown {
      assert k < i ==> Taken(x, history, k, s) == Count;
    }
  }

  /** A scale-down uses up a whole block; anything else uses up at most one evaluation. */
  lemma DownCosts(x: Scaler, history: seq<Metrics>, n: nat, s: Settings)
    requires 0 < n <= |history| && x.counter == 0
    ensures var before, after := State(x, history, n - 1, s).counter, State(x, history, n, s).counter;
            var downs := Times(x, history, n - 1, s, Lower);
            if Times(x, history, n, s, Lower) == downs then after <= before + 1
            else Times(x, history, n, s, Lower) == downs + 1 && after == 0 && before + 1 == Max(1, s.checks)
  {
    CounterIsBlock(x, history, n - 1, s);
  }

  /** So `n` evaluations scale down at most `n / max(1, R)` times. */
  lemma {:induction false} DownsAreRare(x: Scaler, history: seq<Metrics>, n: nat, s: Settings)
    requires n <= |history| && x.counter == 0
    ensures var block := Max(1, s.checks);
            && block * Times(x, history, n, s, Lower) + State(x, history, n, s).counter <= n
            && Times(x, history, n, s, Lower) <= n / block
  {
    hide State, Times;
    var block := Max(1, s.checks);
    if n > 0 {
      DownsAreRare(x, history, n - 1, s);
      DownCosts(x, history, n, s);
      var downs := Times(x, history, n - 1, s, Lower);
      assert block * (downs + 1) == block * downs + block;
    } else {
      NothingYet(x, history, s);
      assert block * 0 == 0;
    }
    AtMostQuotient(block, Times(x, history, n, s, Lower), n);
  }

  lemma NothingYet(x: Scaler, history: seq<Metrics>, s: Settings)
    ensures State(x, history, 0, s) == x && Times(x, history, 0, s, Lower) == 0
  {}

  lemma AtMostQuotient(block: nat, k: nat, n: nat)
    requires block >= 1 && block * k <= n
    ensures k <= n / block
  {
    assert n == block * (n / block) + n % block;
    var d := k - n / block;
    assert block * d == block * k - block * (n / block);
    LessThanOne(block, d);
  }
}
