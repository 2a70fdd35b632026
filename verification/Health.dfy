/** The health checker: probes with hysteresis per replica, writing to a routing table that others re-sync. A probe and its
    table update are one step. */
module Health {
  import opened Arithmetic
  import opened Wrappers
  import opened Routing

  /** Any integers: the settings put no bound on them. */
  datatype Thresholds = Thresholds(failures: int, successes: int)

  /** The two counter dictionaries and the set of routeable replicas. */
  datatype Checker = Checker(failures: map<string, nat>, successes: map<string, nat>, routeable: set<string>)

  function Count(counts: map<string, nat>, replica: string): nat {
    if replica in counts then counts[replica] else 0
  }

  predicate Reaches(c: Checker, replica: string, ok: bool, t: Thresholds) {
    ok && Count(c.successes, replica) + 1 >= t.successes
  }

  predicate Fails(c: Checker, replica: string, ok: bool, t: Thresholds) {
    !ok && Count(c.failures, replica) + 1 == t.failures
  }

  /** `_check_replica` on the checker's own state. */
  function Checked(c: Checker, replica: string, ok: bool, t: Thresholds): Checker {
    if Reaches(c, replica, ok, t) then
      Checker(c.failures - {replica}, c.successes - {replica}, c.routeable + {replica})
    else if ok then
      c.(successes := c.successes[replica := Count(c.successes, replica) + 1])
    else
      Checker(c.failures[replica := Count(c.failures, replica) + 1], c.successes - {replica},
              if Fails(c, replica, ok, t) then c.routeable - {replica} else c.routeable)
  }

  /** `_check_replica` on the routing table. */
  function Rerouted(m: Memory, c: Checker, replica: string, ok: bool, t: Thresholds): Memory {
    if Reaches(c, replica, ok, t) || Fails(c, replica, ok, t)
    then Memory(SetFirst(m.table, m.order, replica, ok), m.order)
    else m
  }

  class HealthChecker {
    const routingTable: RoutingTable
    const thresholds: Thresholds
    var consecutiveFailures: map<string, nat>
    var consecutiveSuccesses: map<string, nat>
    var routeableReplicas: set<string>

    ghost function State(): Checker
      reads this
    {
      Checker(consecutiveFailures, consecutiveSuccesses, routeableReplicas)
    }

    constructor (table: RoutingTable, settings: Thresholds)
      ensures routingTable == table && thresholds == settings && State() == Checker(map[], map[], {})
    {
      routingTable, thresholds := table, settings;
      consecutiveFailures, consecutiveSuccesses, routeableReplicas := map[], map[], {};
    }

    /** One probe; `healthy` is what the HTTP request found. */
    method CheckReplica(replica: string, ip: string, healthy: bool)
      requires routingTable.Valid()
      modifies this, routingTable
      ensures routingTable.Valid()
      ensures State() == if ip == "" then old(State()) else Checked(old(State()), replica, healthy, thresholds)
      ensures routingTable.State()
           == if ip == "" then old(routingTable.State())
              else Rerouted(old(routingTable.State()), old(State()), replica, healthy, thresholds)
    {
      if ip == "" {
        return;
      }
      if healthy {
        var successes := Count(consecutiveSuccesses, replica) + 1;
        consecutiveSuccesses := consecutiveSuccesses[replica := successes];
        if successes >= thresholds.successes {
          consecutiveSuccesses := consecutiveSuccesses - {replica};
          consecutiveFailures := consecutiveFailures - {replica};
          routingTable.SetHealthy(replica, true);
          if replica !in routeableReplicas {
            routeableReplicas := routeableReplicas + {replica};
          }
        }
      } else {
        var failures := Count(consecutiveFailures, replica) + 1;
        consecutiveFailures := consecutiveFailures[replica := failures];
        consecutiveSuccesses := consecutiveSuccesses - {replica};
        if failures == thresholds.failures {
          routeableReplicas := routeableReplicas - {replica};
          routingTable.SetHealthy(replica, false);
        }
      }
    }
  }

  // ---- What a probe history means ----

  /** The `S` probes before position `i` all succeeded; a threshold below one asks for one success. */
  predicate Streak(h: seq<bool>, i: nat, t: Thresholds) {
    && Max(1, t.successes) <= i <= |h|
    && forall j :: i - Max(1, t.successes) <= j < i ==> h[j]
  }

  /** Where the last success streak ended, or -1. */
  function LastStreak(h: seq<bool>, n: nat, t: Thresholds): (i: int)
    requires n <= |h|
    ensures -1 <= i <= n
    ensures i >= 0 ==> Streak(h, i, t)
    ensures forall k: nat :: i < k <= n ==> !Streak(h, k, t)
  {
    if Streak(h, n, t) then n else if n == 0 then -1 else LastStreak(h, n - 1, t)
  }

  function Failures(h: seq<bool>): nat {
    if h == [] then 0 else Failures(h[..|h| - 1]) + (if h[|h| - 1] then 0 else 1)
  }

  /** Some success streak reached its threshold, and fewer failures than the failure threshold came since the last one. A
      failure threshold below one is never met. */
  predicate Trusted(h: seq<bool>, t: Thresholds) {
    var last := LastStreak(h, |h|, t);
    last >= 0 && (t.failures < 1 || Failures(h[last..]) < t.failures)
  }

  /** Successes at the end of a history. */
  function Tail(h: seq<bool>): (n: nat)
    ensures n <= |h|
    ensures forall j :: |h| - n <= j < |h| ==> h[j]
    ensures n < |h| ==> !h[|h| - 1 - n]
  {
    if h == [] || !h[|h| - 1] then 0 else 1 + Tail(h[..|h| - 1])
  }

  /** What the checker knows of one replica after a history of its probes. */
  ghost predicate Tracks(c: Checker, replica: string, h: seq<bool>, t: Thresholds) {
    var last := LastStreak(h, |h|, t);
    && Count(c.failures, replica) == Failures(if last >= 0 then h[last..] else h)
    && Count(c.successes, replica) == Tail(h) % Max(1, t.successes)
    && (replica in c.routeable <==> Trusted(h, t))
  }

  lemma TailGrows(h: seq<bool>, ok: bool)
    ensures Tail(h + [ok]) == if ok then Tail(h) + 1 else 0
    ensures Failures(h + [ok]) == Failures(h) + if ok then 0 else 1
  {
    assert (h + [ok])[..|h|] == h;
  }

  lemma StreakIsTail(h: seq<bool>, t: Thresholds)
    ensures Streak(h, |h|, t) <==> Tail(h) >= Max(1, t.successes)
  {
    if Tail(h) < Max(1, t.successes) && Tail(h) < |h| {
      assert !h[|h| - 1 - Tail(h)];
    }
  }

  lemma {:induction false} StreakPrefix(h: seq<bool>, ok: bool, n: nat, t: Thresholds)
    requires n <= |h|
    ensures LastStreak(h + [ok], n, t) == LastStreak(h, n, t)
  {
    var more := h + [ok];
    assert Streak(more, n, t) <==> Streak(h, n, t) by {
      assert forall j :: 0 <= j < n ==> more[j] == h[j];
    }
    if n > 0 {
      StreakPrefix(h, ok, n - 1, t);
    }
  }

  lemma Unfinished(h: seq<bool>, ok: bool, t: Thresholds)
    requires !Streak(h + [ok], |h| + 1, t)
    ensures LastStreak(h + [ok], |h| + 1, t) == LastStreak(h, |h|, t)
  {
    StreakPrefix(h, ok, |h|, t);
  }

  lemma SuffixFailures(h: seq<bool>, ok: bool, from: nat)
    requires from <= |h|
    ensures Failures((h + [ok])[from..]) == Failures(h[from..]) + if ok then 0 else 1
  {
    assert (h + [ok])[from..] == h[from..] + [ok];
    TailGrows(h[from..], ok);
  }

  lemma TracksSuccess(c: Checker, replica: string, h: seq<bool>, t: Thresholds)
    requires Tracks(c, replica, h, t)
    ensures Tracks(Checked(c, replica, true, t), replica, h + [true], t)
  {
    hide Tail, Failures, LastStreak, Streak;
    var more, n, needed := h + [true], |h| + 1, Max(1, t.successes);
    var next := Checked(c, replica, true, t);
    TailGrows(h, true);
    StreakIsTail(h, t);
    StreakIsTail(more, t);
    ModNext(Tail(h), needed);
    AtStreak(more, t);
    AtStreak(h, t);
    assert more[n..] == [] && h[|h|..] == [];
    NoFailures();
    if Reaches(c, replica, true, t) {
      ModReaches(Tail(h), needed);
      assert Trusted(more, t);
    } else if Tail(h) >= needed {
      assert Trusted(more, t) && Trusted(h, t);
    } else {
      Unfinished(h, true, t);
      var last := LastStreak(h, |h|, t);
      LastStreakRange(h, t);
      SuffixFailures(h, true, if last >= 0 then last else 0);
      assert h[0..] == h && more[0..] == more;
    }
  }

  lemma ModReaches(x: nat, n: nat)
    requires n >= 1 && x % n + 1 == n
    ensures x + 1 >= n
  {}

  lemma LastStreakRange(h: seq<bool>, t: Thresholds)
    ensures -1 <= LastStreak(h, |h|, t) <= |h|
  {}

  lemma NoFailures()
    ensures Failures([]) == 0
  {}

  lemma AtStreak(h: seq<bool>, t: Thresholds)
    ensures Streak(h, |h|, t) ==> LastStreak(h, |h|, t) == |h|
  {
    hide Streak;
  }

  lemma TracksFailure(c: Checker, replica: string, h: seq<bool>, t: Thresholds)
    requires Tracks(c, replica, h, t)
    ensures Tracks(Checked(c, replica, false, t), replica, h + [false], t)
  {
    hide Tail, Failures, LastStreak, Streak;
    var more := h + [false];
    TailGrows(h, false);
    StreakIsTail(more, t);
    Unfinished(h, false, t);
    LastStreakRange(h, t);
    var last := LastStreak(h, |h|, t);
    SuffixFailures(h, false, if last >= 0 then last else 0);
    assert h[0..] == h && more[0..] == more;
    assert 0 % Max(1, t.successes) == 0;
  }

  lemma ChecksOnlyItsReplica(c: Checker, replica: string, other: string, ok: bool, t: Thresholds)
    requires other != replica
    ensures var next := Checked(c, replica, ok, t);
            && Count(next.failures, other) == Count(c.failures, other)
            && Count(next.successes, other) == Count(c.successes, other)
            && (other in next.routeable <==> other in c.routeable)
  {}

  // ---- Interleaved probes, re-syncs and removals ----

  datatype Event =
    | Probe(replica: string, ip: string, ok: bool)
    | Resync(service: string, endpoints: seq<Endpoint>)
    | Remove(service: string)

  datatype System = System(memory: Memory, checker: Checker)

  function Stepped(s: System, e: Event, t: Thresholds): System {
    match e
    case Probe(replica, ip, ok) =>
      if ip == "" then s
      else System(Rerouted(s.memory, s.checker, replica, ok, t), Checked(s.checker, replica, ok, t))
    case Resync(service, endpoints) => s.(memory := InMemory(s.memory, Operation.UpdateService(service, endpoints)))
    case Remove(service) => s.(memory := InMemory(s.memory, Operation.RemoveService(service)))
  }

  /** Re-syncs list new endpoints as unhealthy and never list a replica twice anywhere. */
  ghost predicate LegalEvent(s: System, e: Event) {
    e.Resync? ==>
      && (forall i :: 0 <= i < |e.endpoints| ==> !e.endpoints[i].healthy)
      && UniqueEverywhere(Updated(s.memory.table, e.service, e.endpoints))
  }

  function Ran(s: System, events: seq<Event>, t: Thresholds): System {
    if events == [] then s else Stepped(Ran(s, events[..|events| - 1], t), events[|events| - 1], t)
  }

  ghost predicate LegalEvents(s: System, events: seq<Event>, t: Thresholds) {
    events == []
    || (&& LegalEvents(s, events[..|events| - 1], t)
        && LegalEvent(Ran(s, events[..|events| - 1], t), events[|events| - 1]))
  }

  const FRESH: System := System(Memory(map[], []), Checker(map[], map[], {}))

  /** The probes that reached one replica. */
  function HistoryOf(events: seq<Event>, replica: string): seq<bool> {
    if events == [] then []
    else
      var e := events[|events| - 1];
      HistoryOf(events[..|events| - 1], replica)
      + if e.Probe? && e.ip != "" && e.replica == replica then [e.ok] else []
  }

  /** The checker knows of every replica exactly what its probe history says, however the probes interleave: in
      particular a replica is routeable if and only if its history makes it trusted. */
  lemma {:induction false} RouteableIffTrusted(events: seq<Event>, replica: string, t: Thresholds)
    ensures Tracks(Ran(FRESH, events, t).checker, replica, HistoryOf(events, replica), t)
    ensures replica in Ran(FRESH, events, t).checker.routeable <==> Trusted(HistoryOf(events, replica), t)
  {
    if events == [] {
      TracksNothing(replica, t);
    } else {
      hide Checked, Failures, Tail, LastStreak, Trusted, Streak, Count;
      var n := |events| - 1;
      var before, e := Ran(FRESH, events[..n], t), events[n];
      RouteableIffTrusted(events[..n], replica, t);
      if e.Probe? && e.ip != "" {
        if e.replica != replica {
          ChecksOnlyItsReplica(before.checker, e.replica, replica, e.ok, t);
        } else if e.ok {
          TracksSuccess(before.checker, replica, HistoryOf(events[..n], replica), t);
        } else {
          TracksFailure(before.checker, replica, HistoryOf(events[..n], replica), t);
        }
      }
      assert HistoryOf(events[..n], replica) + [] == HistoryOf(events[..n], replica);
    }
  }

  lemma TracksNothing(replica: string, t: Thresholds)
    ensures Tracks(FRESH.checker, replica, [], t)
  {
    assert 0 % Max(1, t.successes) == 0;
  }

  /** Healthy in the table implies routeable. */
  ghost predicate HealthyAreRouteable(s: System) {
    forall service, i ::
      (service in s.memory.table && 0 <= i < |s.memory.table[service]| && s.memory.table[service][i].healthy) ==>
        s.memory.table[service][i].replica in s.checker.routeable
  }

  ghost predicate Safe(s: System) {
    && Enumerates(s.memory.order, s.memory.table)
    && UniqueEverywhere(s.memory.table)
    && HealthyAreRouteable(s)
  }

  /** Where a health bit in a merged list comes from. */
  lemma {:induction false} HealthComesFrom(existing: seq<Endpoint>, replica: string, fallback: bool)
    requires HealthIn(existing, replica, fallback) && !fallback
    ensures exists i :: 0 <= i < |existing| && existing[i].replica == replica && existing[i].healthy
  {
    var n := |existing| - 1;
    if existing[n].replica == replica {
      assert existing[n].healthy;
    } else {
      HealthComesFrom(existing[..n], replica, fallback);
      var i :| 0 <= i < n && existing[..n][i].replica == replica && existing[..n][i].healthy;
      assert existing[i].replica == replica && existing[i].healthy;
    }
  }

  lemma ResyncSafe(s: System, service: string, endpoints: seq<Endpoint>, t: Thresholds)
    requires HealthyAreRouteable(s) && forall i :: 0 <= i < |endpoints| ==> !endpoints[i].healthy
    ensures HealthyAreRouteable(Stepped(s, Resync(service, endpoints), t))
  {
    hide HealthIn;
    var existing := Get(s.memory.table, service);
    var merged := Merge(existing, endpoints);
    forall i | 0 <= i < |merged| && merged[i].healthy ensures merged[i].replica in s.checker.routeable {
      HealthComesFrom(existing, endpoints[i].replica, endpoints[i].healthy);
      var k :| 0 <= k < |existing| && existing[k].replica == endpoints[i].replica && existing[k].healthy;
      assert service in s.memory.table;
    }
  }

  /** No copy of the replica is healthy but the one that a report reaches. */
  ghost predicate OnlyFirstHealthy(m: Memory, replica: string) {
    forall service, i ::
      (service in m.table && 0 <= i < |m.table[service]| && m.table[service][i].replica == replica
       && m.table[service][i].healthy) ==>
        FirstListing(m.table, m.order, replica) == Some(service) && !Lists(m.table[service][..i], replica)
  }

  /** After a report that the replica is down, a healthy copy of it is left unless only the first copy was healthy. */
  lemma DownReportIff(m: Memory, replica: string)
    requires Enumerates(m.order, m.table)
    ensures var table' := SetFirst(m.table, m.order, replica, false);
            && table'.Keys == m.table.Keys
            && (forall s :: s in m.table ==> |table'[s]| == |m.table[s]|)
            && (forall s: string, i :: s in m.table && 0 <= i < |m.table[s]| ==>
                  && table'[s][i].replica == m.table[s][i].replica
                  && (m.table[s][i].replica != replica ==> table'[s][i] == m.table[s][i]))
            && ((forall s: string, i :: s in m.table && 0 <= i < |m.table[s]| && m.table[s][i].replica == replica ==>
                   !table'[s][i].healthy) <==> OnlyFirstHealthy(m, replica))
  {
    hide Lists, SetFirst, FlipFirst;
    SetFirstIs(m.table, m.order, replica, false);
    var first := FirstListing(m.table, m.order, replica);
    if first.None? {
      forall s, i | s in m.table && 0 <= i < |m.table[s]| ensures m.table[s][i].replica != replica {
        NotListed(m.table[s], replica, i);
      }
    } else {
      var es := m.table[first.value];
      var k := FirstIndex(es, replica);
      FlipFirstAt(es, k, replica, false);
      OnlyFirstIff(m, replica, first.value, k);
    }
  }

  /** What is left healthy once the first copy is marked unhealthy. */
  lemma OnlyFirstIff(m: Memory, replica: string, first: string, k: nat)
    requires first in m.table && k < |m.table[first]| && FirstListing(m.table, m.order, replica) == Some(first)
    requires m.table[first][k].replica == replica
    requires forall i :: 0 <= i <= |m.table[first]| ==> (Lists(m.table[first][..i], replica) <==> i > k)
    ensures var table': Table := m.table[first := m.table[first][k := m.table[first][k].(healthy := false)]];
            (forall s, i :: s in m.table && 0 <= i < |m.table[s]| && m.table[s][i].replica == replica ==>
               !table'[s][i].healthy) <==> OnlyFirstHealthy(m, replica)
  {
    hide Lists, FirstListing;
    var table': Table := m.table[first := m.table[first][k := m.table[first][k].(healthy := false)]];
    forall s, i | s in m.table && 0 <= i < |m.table[s]| && m.table[s][i].replica == replica
      ensures !table'[s][i].healthy
         <==> (m.table[s][i].healthy ==> s == first && !Lists(m.table[s][..i], replica)) {
      if s == first {
        NotBefore(m.table[first], replica, i, k);
      }
    }
  }

  lemma NotBefore(endpoints: seq<Endpoint>, replica: string, i: nat, k: nat)
    requires i < |endpoints| && k < |endpoints| && endpoints[i].replica == replica
    ensures i < k ==> Lists(endpoints[..k], replica)
  {
    assert i < k ==> endpoints[..k][i].replica == replica;
  }

  lemma NotListed(endpoints: seq<Endpoint>, replica: string, i: nat)
    requires i < |endpoints| && !Lists(endpoints, replica)
    ensures endpoints[i].replica != replica
  {}

  lemma UpReport(m: Memory, replica: string)
    requires Enumerates(m.order, m.table)
    ensures var table' := SetFirst(m.table, m.order, replica, true);
            && table'.Keys == m.table.Keys
            && (forall s :: s in m.table ==> |table'[s]| == |m.table[s]|)
            && (forall s: string, i :: s in m.table && 0 <= i < |m.table[s]| ==>
                  && table'[s][i].replica == m.table[s][i].replica
                  && (m.table[s][i].replica != replica ==> table'[s][i] == m.table[s][i]))
  {
    hide Lists, SetFirst, FlipFirst;
    SetFirstIs(m.table, m.order, replica, true);
    var first := FirstListing(m.table, m.order, replica);
    if first.Some? {
      var es := m.table[first.value];
      var k := FirstIndex(es, replica);
      FlipFirstAt(es, k, replica, true);
    }
  }

  /** What could be checked before the event: when a probe reaches the failure threshold, no copy of the replica is healthy
      but the first. */
  ghost predicate HarmlessEvent(s: System, e: Event, t: Thresholds) {
    e.Probe? && e.ip != "" && Fails(s.checker, e.replica, e.ok, t) ==> OnlyFirstHealthy(s.memory, e.replica)
  }

  /** Whether ids repeat or not: a probe keeps every healthy endpoint routeable exactly under that condition. */
  lemma ProbeSafeIff(s: System, replica: string, ip: string, ok: bool, t: Thresholds)
    requires Enumerates(s.memory.order, s.memory.table) && HealthyAreRouteable(s)
    ensures HealthyAreRouteable(Stepped(s, Probe(replica, ip, ok), t)) <==> HarmlessEvent(s, Probe(replica, ip, ok), t)
  {
    hide SetFirst, OnlyFirstHealthy, Enumerates;
    var m, next := s.memory, Stepped(s, Probe(replica, ip, ok), t);
    var table': Table := SetFirst(m.table, m.order, replica, ok);
    if ip != "" && Fails(s.checker, replica, ok, t) {
      DownReportIff(m, replica);
      assert next.memory.table == table' && next.checker.routeable == s.checker.routeable - {replica};
      if HealthyAreRouteable(next) {
        forall service, i | service in m.table && 0 <= i < |m.table[service]| && m.table[service][i].replica == replica
          ensures !table'[service][i].healthy {
        }
      }
      if OnlyFirstHealthy(m, replica) {
        forall service, i | service in table' && 0 <= i < |table'[service]| && table'[service][i].healthy
          ensures table'[service][i].replica in next.checker.routeable {
          assert service in m.table && m.table[service][i].replica != replica;
        }
      }
    } else if ip != "" && Reaches(s.checker, replica, ok, t) {
      UpReport(m, replica);
      assert next.memory.table == table' && next.checker.routeable == s.checker.routeable + {replica};
      forall service, i | service in table' && 0 <= i < |table'[service]| && table'[service][i].healthy
        ensures table'[service][i].replica in next.checker.routeable {
        assert service in m.table && 0 <= i < |m.table[service]|;
      }
    }
  }

  /** The same for every event. */
  lemma EventSafeIff(s: System, e: Event, t: Thresholds)
    requires Enumerates(s.memory.order, s.memory.table) && HealthyAreRouteable(s)
    requires e.Resync? ==> forall i :: 0 <= i < |e.endpoints| ==> !e.endpoints[i].healthy
    ensures HealthyAreRouteable(Stepped(s, e, t)) <==> HarmlessEvent(s, e, t)
    ensures Enumerates(Stepped(s, e, t).memory.order, Stepped(s, e, t).memory.table)
  {
    hide HealthyAreRouteable, OnlyFirstHealthy, SetFirst;
    match e {
      case Probe(replica, ip, ok) =>
        ProbeSafeIff(s, replica, ip, ok, t);
        EnumerationAfterStep(s.memory, Operation.SetHealthy(replica, ok, []));
      case Resync(service, endpoints) =>
        ResyncSafe(s, service, endpoints, t);
        EnumerationAfterStep(s.memory, Operation.UpdateService(service, endpoints));
      case Remove(service) =>
        RemoveSafe(s, service, t);
        EnumerationAfterStep(s.memory, Operation.RemoveService(service));
    }
  }

  lemma RemoveSafe(s: System, service: string, t: Thresholds)
    requires HealthyAreRouteable(s)
    ensures HealthyAreRouteable(Stepped(s, Remove(service), t))
  {}

  /** Every state of the run has only routeable endpoints marked healthy. */
  ghost predicate AlwaysRouteable(events: seq<Event>, t: Thresholds) {
    HealthyAreRouteable(Ran(FRESH, events, t)) && (events == [] || AlwaysRouteable(events[..|events| - 1], t))
  }

  ghost predicate HarmlessEvents(events: seq<Event>, t: Thresholds) {
    events == []
    || (HarmlessEvents(events[..|events| - 1], t)
        && HarmlessEvent(Ran(FRESH, events[..|events| - 1], t), events[|events| - 1], t))
  }

  ghost predicate NewAreUnhealthy(events: seq<Event>) {
    forall k, i :: 0 <= k < |events| && events[k].Resync? && 0 <= i < |events[k].endpoints| ==>
      !events[k].endpoints[i].healthy
  }

  lemma {:induction false} StaysEnumerated(events: seq<Event>, t: Thresholds)
    ensures Enumerates(Ran(FRESH, events, t).memory.order, Ran(FRESH, events, t).memory.table)
  {
    if events != [] {
      hide Enumerates;
      var n := |events| - 1;
      StaysEnumerated(events[..n], t);
      var s := Ran(FRESH, events[..n], t);
      match events[n] {
        case Probe(replica, ip, ok) => EnumerationAfterStep(s.memory, Operation.SetHealthy(replica, ok, []));
        case Resync(service, endpoints) => EnumerationAfterStep(s.memory, Operation.UpdateService(service, endpoints));
        case Remove(service) => EnumerationAfterStep(s.memory, Operation.RemoveService(service));
      }
    }
  }

  /** Over every run, with replica ids repeated in any way: healthy endpoints are routeable all along exactly if no
      threshold of failures was ever reached while another copy of that replica was healthy. */
  lemma {:induction false} RunSafeIff(events: seq<Event>, t: Thresholds)
    requires NewAreUnhealthy(events)
    ensures AlwaysRouteable(events, t) <==> HarmlessEvents(events, t)
  {
    if events == [] {
      assert HealthyAreRouteable(FRESH);
    } else {
      hide HealthyAreRouteable, HarmlessEvent, Stepped, Enumerates;
      var n := |events| - 1;
      var s := Ran(FRESH, events[..n], t);
      assert forall k :: 0 <= k < n ==> events[..n][k] == events[k];
      RunSafeIff(events[..n], t);
      StaysEnumerated(events[..n], t);
      if AlwaysRouteable(events[..n], t) {
        LastRouteable(events[..n], t);
        EventSafeIff(s, events[n], t);
      }
    }
  }

  lemma LastRouteable(events: seq<Event>, t: Thresholds)
    requires AlwaysRouteable(events, t)
    ensures HealthyAreRouteable(Ran(FRESH, events, t))
  {}

  lemma UniqueAfterEvent(s: System, e: Event, t: Thresholds)
    requires Safe(s) && LegalEvent(s, e)
    ensures UniqueEverywhere(Stepped(s, e, t).memory.table)
  {
    hide UniqueEverywhere, SetFirst;
    match e {
      case Probe(replica, ip, ok) =>
        SetFirstMeaning(s.memory.table, s.memory.order, replica, ok);
        UniqueAfterFlip(s.memory.table, SetFirst(s.memory.table, s.memory.order, replica, ok), replica, ok);
      case Resync(service, endpoints) =>
      case Remove(service) => UniqueAfterRemoval(s.memory.table, service);
    }
  }

  /** With unique ids there is no other copy. */
  lemma UniqueIsHarmless(m: Memory, replica: string)
    requires Enumerates(m.order, m.table) && UniqueEverywhere(m.table)
    ensures OnlyFirstHealthy(m, replica)
  {
    forall service: string, i | service in m.table && 0 <= i < |m.table[service]| && m.table[service][i].replica == replica
      ensures FirstListing(m.table, m.order, replica) == Some(service) && !Lists(m.table[service][..i], replica) {
      assert Lists(m.table[service], replica) by { assert m.table[service][i].replica == replica; }
      assert service in m.order;
      var first := FirstListing(m.table, m.order, replica);
      assert first.Some?;
      var j :| 0 <= j < |Get(m.table, first.value)| && Get(m.table, first.value)[j].replica == replica;
    }
  }

  lemma {:induction false} StaysSafe(events: seq<Event>, t: Thresholds)
    requires LegalEvents(FRESH, events, t)
    ensures Safe(Ran(FRESH, events, t))
  {
    if events != [] {
      hide HealthyAreRouteable, UniqueEverywhere, Enumerates, Stepped, OnlyFirstHealthy;
      var n := |events| - 1;
      var s, e := Ran(FRESH, events[..n], t), events[n];
      StaysSafe(events[..n], t);
      if e.Probe? {
        UniqueIsHarmless(s.memory, e.replica);
      }
      EventSafeIff(s, e, t);
      UniqueAfterEvent(s, e, t);
    }
  }

  /** From a fresh start, for every interleaving of probes, re-syncs and removals with unique replica ids: an endpoint that
      the table lists as healthy belongs to a replica whose probe history is trusted. */
  lemma HealthyImpliesTrusted(events: seq<Event>, t: Thresholds, service: string, i: nat)
    requires LegalEvents(FRESH, events, t)
    requires i < |Get(Ran(FRESH, events, t).memory.table, service)|
    requires Get(Ran(FRESH, events, t).memory.table, service)[i].healthy
    ensures var e := Get(Ran(FRESH, events, t).memory.table, service)[i];
            && e.replica in Ran(FRESH, events, t).checker.routeable
            && Trusted(HistoryOf(events, e.replica), t)
  {
    hide Trusted, Tracks, Ran, LegalEvents, UniqueEverywhere, Enumerates;
    StaysSafe(events, t);
    RouteableIffTrusted(events, Get(Ran(FRESH, events, t).memory.table, service)[i].replica, t);
  }

  /** A run on which it happens: a replica listed twice, of which only the first endpoint is marked unhealthy. */
  lemma DuplicateIdsBreakSafety()
    ensures var t := Thresholds(1, 1);
            var e := Endpoint("r", "h", 80, false);
            var events := [Resync("s", [e]), Probe("r", "h", true), Resync("s", [e, e]), Probe("r", "h", false)];
            var end := Ran(FRESH, events, t);
            && |Get(end.memory.table, "s")| == 2
            && Get(end.memory.table, "s")[1].healthy
            && "r" !in end.checker.routeable
  {
    var t := Thresholds(1, 1);
    var e := Endpoint("r", "h", 80, false);
    var up := e.(healthy := true);
    var events := [Resync("s", [e]), Probe("r", "h", true), Resync("s", [e, e]), Probe("r", "h", false)];
    assert events[..3] == [Resync("s", [e]), Probe("r", "h", true), Resync("s", [e, e])];
    assert events[..3][..2] == [Resync("s", [e]), Probe("r", "h", true)];
    assert events[..3][..2][..1] == [Resync("s", [e])];
    assert events[..3][..2][..1][..0] == [];
    var s0 := Ran(FRESH, events[..3][..2][..1][..0], t);
    var s1 := Ran(FRESH, events[..3][..2][..1], t);
    assert s1 == Stepped(FRESH, Resync("s", [e]), t);
    assert s1.memory.table["s"] == [e];
    var s2 := Ran(FRESH, events[..3][..2], t);
    assert s2 == Stepped(s1, Probe("r", "h", true), t);
    assert Lists([e], "r") by { assert [e][0].replica == "r"; }
    assert s2.memory.table["s"] == [up];
    var s3 := Ran(FRESH, events[..3], t);
    assert s3 == Stepped(s2, Resync("s", [e, e]), t);
    assert HealthIn([up], "r", false);
    assert s3.memory.table["s"] == [up, up];
    assert Lists([up, up], "r") by { assert [up, up][0].replica == "r"; }
  }

  // ---- What the bit in the table says ----

  function FailuresSince(h: seq<bool>, t: Thresholds): nat {
    var last := LastStreak(h, |h|, t);
    Failures(if last >= 0 then h[last..] else h)
  }

  /** The `n`-th probe completes a streak: the checker then reports the replica as up. */
  predicate Completed(h: seq<bool>, n: nat, t: Thresholds)
    requires 1 <= n <= |h|
  {
    h[n - 1] && Tail(h[..n]) % Max(1, t.successes) == 0
  }

  /** The `n`-th probe is the failure that meets the threshold: the checker then reports the replica as down. */
  predicate Crossed(h: seq<bool>, n: nat, t: Thresholds)
    requires 1 <= n <= |h|
  {
    !h[n - 1] && FailuresSince(h[..n], t) == t.failures
  }

  /** The last report among the probes after the first `from`, up to the `n`-th. */
  function Verdict(h: seq<bool>, from: nat, n: nat, t: Thresholds): bool
    requires n <= |h|
  {
    if n <= from then false
    else if Completed(h, n, t) then true
    else if Crossed(h, n, t) then false
    else Verdict(h, from, n - 1, t)
  }

  lemma {:induction false} VerdictMeaning(h: seq<bool>, from: nat, n: nat, t: Thresholds)
    requires n <= |h|
    ensures Verdict(h, from, n, t) <==>
            exists k :: from < k <= n && Completed(h, k, t) && forall j :: k < j <= n ==> !Crossed(h, j, t)
  {
    hide Completed, Crossed;
    if n > from {
      VerdictMeaning(h, from, n - 1, t);
      if Completed(h, n, t) {
        assert from < n <= n && Completed(h, n, t);
      } else if !Crossed(h, n, t) && Verdict(h, from, n - 1, t) {
        var k :| from < k <= n - 1 && Completed(h, k, t) && forall j :: k < j <= n - 1 ==> !Crossed(h, j, t);
        assert forall j :: k < j <= n ==> !Crossed(h, j, t);
      }
    }
  }

  lemma {:induction false} VerdictPrefix(h: seq<bool>, ok: bool, from: nat, n: nat, t: Thresholds)
    requires n <= |h|
    ensures Verdict(h + [ok], from, n, t) == Verdict(h, from, n, t)
  {
    hide Tail, FailuresSince;
    if n > from {
      assert (h + [ok])[..n] == h[..n];
      VerdictPrefix(h, ok, from, n - 1, t);
    }
  }

  lemma ReportsAre(c: Checker, replica: string, h: seq<bool>, ok: bool, t: Thresholds)
    requires Tracks(c, replica, h, t)
    ensures Reaches(c, replica, ok, t) <==> Completed(h + [ok], |h| + 1, t)
    ensures Fails(c, replica, ok, t) <==> Crossed(h + [ok], |h| + 1, t)
  {
    hide Tail, Failures, LastStreak;
    var more := h + [ok];
    assert more[..|h| + 1] == more;
    if ok {
      TailGrows(h, true);
      ModNext(Tail(h), Max(1, t.successes));
    } else {
      TracksFailure(c, replica, h, t);
      assert Count(Checked(c, replica, false, t).failures, replica) == FailuresSince(more, t);
    }
  }

  /** How many probes of the replica came before the service last began to list it. */
  function ListedFrom(events: seq<Event>, t: Thresholds, service: string, replica: string): nat {
    if events == [] then 0
    else
      var before, e := events[..|events| - 1], events[|events| - 1];
      if e.Resync? && e.service == service && !Lists(Get(Ran(FRESH, before, t).memory.table, service), replica)
      then |HistoryOf(before, replica)|
      else ListedFrom(before, t, service, replica)
  }

  function BitOf(events: seq<Event>, t: Thresholds, service: string, replica: string): bool {
    var h := HistoryOf(events, replica);
    Verdict(h, ListedFrom(events, t, service, replica), |h|, t)
  }

  ghost predicate BitsRight(events: seq<Event>, t: Thresholds) {
    var table: Table := Ran(FRESH, events, t).memory.table;
    forall service, i :: service in table && 0 <= i < |table[service]| ==>
      table[service][i].healthy == BitOf(events, t, service, table[service][i].replica)
  }

  /** One probe's effect on the table, for unique ids: the bit of its replica, if there is a report. */
  lemma ProbedTable(s: System, replica: string, ip: string, ok: bool, t: Thresholds)
    requires Safe(s)
    ensures var table' := Stepped(s, Probe(replica, ip, ok), t).memory.table;
            var reported := ip != "" && (Reaches(s.checker, replica, ok, t) || Fails(s.checker, replica, ok, t));
            && table'.Keys == s.memory.table.Keys
            && (forall service :: service in table' ==> |table'[service]| == |s.memory.table[service]|)
            && forall service: string, i :: service in table' && 0 <= i < |table'[service]| ==>
                 table'[service][i]
                 == var e := s.memory.table[service][i]; if reported && e.replica == replica then e.(healthy := ok) else e
  {
    hide UniqueEverywhere, SetFirst;
    SetFirstMeaning(s.memory.table, s.memory.order, replica, ok);
  }

  lemma BitAfterProbe(events: seq<Event>, t: Thresholds, service: string, replica: string)
    requires events != [] && events[|events| - 1].Probe?
    ensures var before, e := events[..|events| - 1], events[|events| - 1];
            var c := Ran(FRESH, before, t).checker;
            BitOf(events, t, service, replica)
            == if e.ip != "" && e.replica == replica
                  && (Reaches(c, replica, e.ok, t) || Fails(c, replica, e.ok, t)) then e.ok
               else BitOf(before, t, service, replica)
  {
    hide Tracks, Completed, Crossed;
    var before, e := events[..|events| - 1], events[|events| - 1];
    var h, from := HistoryOf(before, replica), ListedFrom(before, t, service, replica);
    ListedFromBound(before, t, service, replica);
    if e.ip != "" && e.replica == replica {
      RouteableIffTrusted(before, replica, t);
      ReportsAre(Ran(FRESH, before, t).checker, replica, h, e.ok, t);
      VerdictPrefix(h, e.ok, from, |h|, t);
      assert HistoryOf(events, replica) == h + [e.ok];
    } else {
      assert HistoryOf(events, replica) == h + [] == h;
    }
  }

  lemma {:induction false} ListedFromBound(events: seq<Event>, t: Thresholds, service: string, replica: string)
    ensures ListedFrom(events, t, service, replica) <= |HistoryOf(events, replica)|
  {
    if events != [] {
      ListedFromBound(events[..|events| - 1], t, service, replica);
    }
  }

  lemma BitAfterOther(events: seq<Event>, t: Thresholds, service: string, replica: string)
    requires events != [] && !events[|events| - 1].Probe?
    ensures var before, e := events[..|events| - 1], events[|events| - 1];
            BitOf(events, t, service, replica)
            == if e.Resync? && e.service == service
                  && !Lists(Get(Ran(FRESH, before, t).memory.table, service), replica) then false
               else BitOf(before, t, service, replica)
  {
    var before := events[..|events| - 1];
    assert HistoryOf(events, replica) == HistoryOf(before, replica) + [] == HistoryOf(before, replica);
  }

  lemma BitsAfterProbe(events: seq<Event>, t: Thresholds)
    requires events != [] && events[|events| - 1].Probe?
    requires BitsRight(events[..|events| - 1], t) && Safe(Ran(FRESH, events[..|events| - 1], t))
    ensures BitsRight(events, t)
  {
    hide BitOf, Stepped, Safe, Reaches, Fails;
    var before, e := events[..|events| - 1], events[|events| - 1];
    var s := Ran(FRESH, before, t);
    var table: Table, table': Table := s.memory.table, Ran(FRESH, events, t).memory.table;
    ProbedTable(s, e.replica, e.ip, e.ok, t);
    forall service, i | service in table' && 0 <= i < |table'[service]|
      ensures table'[service][i].healthy == BitOf(events, t, service, table'[service][i].replica) {
      assert table[service][i].replica == table'[service][i].replica;
      BitAfterProbe(events, t, service, table[service][i].replica);
    }
  }

  lemma BitsAfterResync(events: seq<Event>, t: Thresholds)
    requires events != [] && events[|events| - 1].Resync?
    requires BitsRight(events[..|events| - 1], t) && Safe(Ran(FRESH, events[..|events| - 1], t))
    requires LegalEvent(Ran(FRESH, events[..|events| - 1], t), events[|events| - 1])
    ensures BitsRight(events, t)
  {
    hide BitOf, HealthIn, Lists;
    var before, e := events[..|events| - 1], events[|events| - 1];
    var table: Table, table': Table := Ran(FRESH, before, t).memory.table, Ran(FRESH, events, t).memory.table;
    var existing := Get(table, e.service);
    forall service, i | service in table' && 0 <= i < |table'[service]|
      ensures table'[service][i].healthy == BitOf(events, t, service, table'[service][i].replica) {
      var r := table'[service][i].replica;
      BitAfterOther(events, t, service, r);
      if service == e.service {
        MergedBit(existing, e.endpoints, i);
        if Lists(existing, r) {
          var j := FirstIndex(existing, r);
          MergedFrom(existing, e.endpoints, i, j);
        }
      }
    }
  }

  lemma MergedBit(existing: seq<Endpoint>, endpoints: seq<Endpoint>, i: nat)
    requires i < |endpoints| && !endpoints[i].healthy
    ensures !Lists(existing, endpoints[i].replica) ==> !Merge(existing, endpoints)[i].healthy
    ensures Merge(existing, endpoints)[i].replica == endpoints[i].replica
  {
    if !Lists(existing, endpoints[i].replica) {
      HealthOfUnlisted(existing, endpoints[i].replica, false);
    }
  }

  lemma MergedFrom(existing: seq<Endpoint>, endpoints: seq<Endpoint>, i: nat, j: nat)
    requires i < |endpoints| && j < |existing| && existing[j].replica == endpoints[i].replica && UniqueReplicas(existing)
    ensures Merge(existing, endpoints)[i].healthy == existing[j].healthy
  {
    HealthOfListed(existing, j, endpoints[i].healthy);
  }

  lemma BitsAfterRemove(events: seq<Event>, t: Thresholds)
    requires events != [] && events[|events| - 1].Remove? && BitsRight(events[..|events| - 1], t)
    ensures BitsRight(events, t)
  {
    hide BitOf;
    var table': Table := Ran(FRESH, events, t).memory.table;
    forall service, i | service in table' && 0 <= i < |table'[service]|
      ensures table'[service][i].healthy == BitOf(events, t, service, table'[service][i].replica) {
      BitAfterOther(events, t, service, table'[service][i].replica);
    }
  }

  lemma {:induction false} BitsAreRight(events: seq<Event>, t: Thresholds)
    requires LegalEvents(FRESH, events, t)
    ensures BitsRight(events, t)
  {
    if events != [] {
      hide BitsRight, LegalEvent;
      BitsAreRight(events[..|events| - 1], t);
      StaysSafe(events[..|events| - 1], t);
      match events[|events| - 1] {
        case Probe(_, _, _) => BitsAfterProbe(events, t);
        case Resync(_, _) => BitsAfterResync(events, t);
        case Remove(_) => BitsAfterRemove(events, t);
      }
    } else {
      assert FRESH.memory.table == map[];
    }
  }

  /** Exactly when an endpoint is offered: since the service last began to list its replica, a streak was completed and no
      failure threshold was met after it. */
  lemma OfferedIff(events: seq<Event>, t: Thresholds, service: string, i: nat)
    requires LegalEvents(FRESH, events, t)
    requires i < |Get(Ran(FRESH, events, t).memory.table, service)|
    ensures var e := Get(Ran(FRESH, events, t).memory.table, service)[i];
            var h := HistoryOf(events, e.replica);
            e.healthy <==> exists k ::
              && ListedFrom(events, t, service, e.replica) < k <= |h| && Completed(h, k, t)
              && forall j :: k < j <= |h| ==> !Crossed(h, j, t)
  {
    hide Ran, LegalEvents, ListedFrom, HistoryOf, Completed, Crossed;
    var table: Table := Ran(FRESH, events, t).memory.table;
    BitsAreRight(events, t);
    assert service in table;
    var r := table[service][i].replica;
    VerdictMeaning(HistoryOf(events, r), ListedFrom(events, t, service, r), |HistoryOf(events, r)|, t);
  }
}
