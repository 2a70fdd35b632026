/** The round-robin balancer that reads the routing table. */
module LoadBalancer {
  import opened Arithmetic
  import opened Wrappers
  import opened Routing
  import opened Selections
  import Health

  function Healthy(endpoints: seq<Endpoint>): (healthy: seq<Endpoint>)
  {
    if endpoints == [] then []
    else (if endpoints[0].healthy then [endpoints[0]] else []) + Healthy(endpoints[1..])
  }

  function Rotated(endpoints: seq<Endpoint>, counter: nat): seq<Endpoint> {
    if endpoints == [] then []
    else var offset := counter % |endpoints|; endpoints[offset..] + endpoints[..offset]
  }

  type Counters = map<string, nat>

  /** What a request for a service is answered, or nothing when no endpoint is healthy, and the counters after it. */
  function Answer(counters: Counters, table: Table, service: string): Option<seq<Endpoint>> {
    var healthy := Healthy(Get(table, service));
    if healthy == [] then None else Some(Rotated(healthy, Health.Count(counters, service)))
  }

  function Counted(counters: Counters, table: Table, service: string): Counters {
    if Answer(counters, table, service).None? then counters
    else counters[service := Health.Count(counters, service) + 1]
  }

  class RoundRobinBalancer {
    const routingTable: RoutingTable
    var counters: Counters

    constructor (table: RoutingTable)
      ensures routingTable == table && counters == map[]
    {
      routingTable, counters := table, map[];
    }

    /** The error for a service without a healthy replica is the answer `None`. */
    method HealthyReplicasForRequest(service: string) returns (answer: Option<seq<Endpoint>>)
      modifies this
      ensures answer == Answer(old(counters), routingTable.table, service)
      ensures counters == Counted(old(counters), routingTable.table, service)
    {
      var endpoints := routingTable.GetEndpoints(service);
      var healthy := Healthy(endpoints);
      if healthy == [] {
        return None;
      }
      var index := Health.Count(counters, service);
      counters := counters[service := index + 1];
      var offset := index % |healthy|;
      return Some(healthy[offset..] + healthy[..offset]);
    }

    method NextHealthyReplica(service: string) returns (endpoint: Option<Endpoint>)
      modifies this
      ensures counters == Counted(old(counters), routingTable.table, service)
      ensures var answer := Answer(old(counters), routingTable.table, service);
              endpoint == if answer.Some? then Some(answer.value[0]) else None
    {
      var answer := HealthyReplicasForRequest(service);
      return if answer.Some? then Some(answer.value[0]) else None;
    }
  }

  // ---- Each answer ----

  lemma {:induction false} HealthyMembers(endpoints: seq<Endpoint>, e: Endpoint)
    ensures e in Healthy(endpoints) <==> e in endpoints && e.healthy
  {
    if endpoints != [] {
      HealthyMembers(endpoints[1..], e);
    }
  }

  lemma RotatedMembers(endpoints: seq<Endpoint>, counter: nat)
    ensures multiset(Rotated(endpoints, counter)) == multiset(endpoints)
  {
    if endpoints != [] {
      var offset := counter % |endpoints|;
      assert endpoints == endpoints[..offset] + endpoints[offset..];
    }
  }

  /** The healthy endpoints, in the table's order. */
  lemma {:induction false} HealthySelects(endpoints: seq<Endpoint>)
    ensures Selects(endpoints, (e: Endpoint) => e.healthy, (e: Endpoint) => e, Healthy(endpoints))
  {
    if endpoints == [] {
      SelectsNothing((e: Endpoint) => e.healthy, (e: Endpoint) => e);
    } else {
      HealthySelects(endpoints[1..]);
      SelectsCons(endpoints, (e: Endpoint) => e.healthy, (e: Endpoint) => e, Healthy(endpoints[1..]));
    }
  }

  /** The order of an answer: the healthy endpoints in the table's order, starting at the one whose turn it is and going
      round; so the fallbacks come in their turns too. The next request for the service starts one further. */
  lemma AnswerAt(counters: Counters, table: Table, service: string)
    requires Answer(counters, table, service).Some?
    ensures exists healthy ::
              && Selects(Get(table, service), (e: Endpoint) => e.healthy, (e: Endpoint) => e, healthy)
              && Turned(Answer(counters, table, service).value, healthy, Health.Count(counters, service))
    ensures Health.Count(Counted(counters, table, service), service) == Health.Count(counters, service) + 1
    ensures forall other :: other != service ==>
              Health.Count(Counted(counters, table, service), other) == Health.Count(counters, other)
  {
    var healthy := Healthy(Get(table, service));
    HealthySelects(Get(table, service));
    RotatedAt(healthy, Health.Count(counters, service));
  }

  ghost predicate Turned(answer: seq<Endpoint>, healthy: seq<Endpoint>, turn: nat) {
    |answer| == |healthy| && forall i :: 0 <= i < |healthy| ==> answer[i] == healthy[(turn + i) % |healthy|]
  }

  lemma RotatedAt(endpoints: seq<Endpoint>, counter: nat)
    ensures Turned(Rotated(endpoints, counter), endpoints, counter)
  {
    if endpoints != [] {
      var n, answer := |endpoints|, Rotated(endpoints, counter);
      forall i | 0 <= i < n ensures answer[i] == endpoints[(counter + i) % n] {
        TurnOf(counter, i, n);
      }
    }
  }

  lemma TurnOf(c: nat, i: nat, n: nat)
    requires i < n
    ensures (c + i) % n == if c % n + i < n then c % n + i else c % n + i - n
  {
    var q, r := c / n, c % n + i;
    assert c == n * q + c % n;
    if r < n {
      ModUnique(c + i, n, q, r);
    } else {
      assert n * (q + 1) == n * q + n;
      ModUnique(c + i, n, q + 1, r - n);
    }
  }

  /** An answer is a rotation of the healthy endpoints of the service: exactly those, each as often as it is listed. */
  lemma AnswerIsRotation(counters: Counters, table: Table, service: string)
    ensures var answer := Answer(counters, table, service);
            && (answer.None? <==> forall e :: e in Get(table, service) ==> !e.healthy)
            && (answer.Some? ==>
                  && multiset(answer.value) == multiset(Healthy(Get(table, service)))
                  && forall e :: e in answer.value <==> e in Get(table, service) && e.healthy)
  {
    var endpoints := Get(table, service);
    forall e ensures e in Healthy(endpoints) <==> e in endpoints && e.healthy {
      HealthyMembers(endpoints, e);
    }
    RotatedMembers(Healthy(endpoints), Health.Count(counters, service));
    var answer := Answer(counters, table, service);
    if answer.None? {
      assert forall e :: e !in Healthy(endpoints);
    } else {
      assert Healthy(endpoints)[0] in Healthy(endpoints);
      forall e ensures e in answer.value <==> e in Healthy(endpoints) {
        assert e in answer.value <==> e in multiset(answer.value);
      }
    }
  }

  /** Joined with the health checker: a balancer reading the table of any run with unique replica ids offers no replica
      whose probe history is not trusted. */
  lemma OffersOnlyTrusted(events: seq<Health.Event>, t: Health.Thresholds, counters: Counters, service: string, e: Endpoint)
    requires Health.LegalEvents(Health.FRESH, events, t)
    requires var answer := Answer(counters, Health.Ran(Health.FRESH, events, t).memory.table, service);
             answer.Some? && e in answer.value
    ensures Health.Trusted(Health.HistoryOf(events, e.replica), t)
  {
    hide Answer, Health.Trusted, Health.Ran, Health.LegalEvents;
    var table := Health.Ran(Health.FRESH, events, t).memory.table;
    AnswerIsRotation(counters, table, service);
    var i :| 0 <= i < |Get(table, service)| && Get(table, service)[i] == e;
    Health.HealthyImpliesTrusted(events, t, service, i);
  }

  // ---- Fairness ----

  /** How often `e` is offered first by the answers to a sequence of requests. */
  function Firsts(counters: Counters, table: Table, requests: seq<string>, e: Endpoint): nat
    decreases |requests|
  {
    if requests == [] then 0
    else
      var answer := Answer(counters, table, requests[0]);
      (if answer.Some? && answer.value != [] && answer.value[0] == e then 1 else 0)
      + Firsts(Counted(counters, table, requests[0]), table, requests[1..], e)
  }

  function Requests(requests: seq<string>, service: string): nat {
    if requests == [] then 0 else (if requests[0] == service then 1 else 0) + Requests(requests[1..], service)
  }

  /** How many of the `m` numbers from `c` on are `k` modulo `n`. */
  function Hits(c: nat, m: nat, n: nat, k: nat): nat
    requires n > 0
    decreases m
  {
    if m == 0 then 0 else (if c % n == k then 1 else 0) + Hits(c + 1, m - 1, n, k)
  }

  lemma {:induction false} HitsSnoc(c: nat, m: nat, n: nat, k: nat)
    requires n > 0
    ensures Hits(c, m + 1, n, k) == Hits(c, m, n, k) + if (c + m) % n == k then 1 else 0
    decreases m
  {
    if m > 0 {
      HitsSnoc(c + 1, m - 1, n, k);
    }
  }

  lemma {:induction false} HitsExactly(c: nat, m: nat, n: nat, k: nat)
    requires n > 0 && k < n
    ensures Hits(c, m, n, k) == m / n + if (k - c) % n < m % n then 1 else 0
    decreases m
  {
    if m == 0 {
      assert 0 / n == 0 && 0 % n == 0;
    } else {
      HitsExactly(c, m - 1, n, k);
      HitsSnoc(c, m - 1, n, k);
      SameResidue(c, m - 1, n, k);
      NextQuotient(m - 1, n);
    }
  }

  lemma RotatedFirst(endpoints: seq<Endpoint>, counter: nat)
    requires endpoints != []
    ensures Rotated(endpoints, counter) != []
    ensures Rotated(endpoints, counter)[0] == endpoints[counter % |endpoints|]
  {}

  lemma {:induction false} FirstsAreHits(counters: Counters, table: Table, requests: seq<string>, service: string, k: nat)
    requires UniqueEverywhere(table)
    requires k < |Healthy(Get(table, service))|
    ensures var healthy := Healthy(Get(table, service));
            Firsts(counters, table, requests, healthy[k])
              == Hits(Health.Count(counters, service), Requests(requests, service), |healthy|, k)
    decreases |requests|
  {
    hide UniqueEverywhere, Healthy, Get, Rotated;
    if requests != [] {
      var healthy := Healthy(Get(table, service));
      FirstsAreHits(Counted(counters, table, requests[0]), table, requests[1..], service, k);
      if requests[0] == service {
        var offset := Health.Count(counters, service) % |healthy|;
        RotatedFirst(healthy, Health.Count(counters, service));
        HealthyDistinct(table, service, service, offset, k);
      } else if Healthy(Get(table, requests[0])) != [] {
        var others := Healthy(Get(table, requests[0]));
        var offset := Health.Count(counters, requests[0]) % |others|;
        RotatedFirst(others, Health.Count(counters, requests[0]));
        HealthyDistinct(table, requests[0], service, offset, k);
      }
    }
  }

  /** Healthy endpoints of one table never coincide. */
  lemma HealthyDistinct(table: Table, a: string, b: string, i: nat, j: nat)
    requires UniqueEverywhere(table)
    requires i < |Healthy(Get(table, a))| && j < |Healthy(Get(table, b))|
    ensures Healthy(Get(table, a))[i] == Healthy(Get(table, b))[j] ==> a == b && i == j
  {
    var p := HealthyIndex(Get(table, a), i);
    var q := HealthyIndex(Get(table, b), j);
    if Healthy(Get(table, a))[i] == Healthy(Get(table, b))[j] {
      assert Get(table, a)[p].replica == Get(table, b)[q].replica;
      HealthyIndexInjective(Get(table, a), i, j);
    }
  }

  /** Where the `i`-th healthy endpoint is listed. */
  function HealthyIndex(endpoints: seq<Endpoint>, i: nat): (p: nat)
    requires i < |Healthy(endpoints)|
    ensures p < |endpoints| && endpoints[p] == Healthy(endpoints)[i]
  {
    if endpoints[0].healthy then if i == 0 then 0 else 1 + HealthyIndex(endpoints[1..], i - 1)
    else 1 + HealthyIndex(endpoints[1..], i)
  }

  lemma {:induction false} HealthyIndexInjective(endpoints: seq<Endpoint>, i: nat, j: nat)
    requires i < |Healthy(endpoints)| && j < |Healthy(endpoints)|
    ensures HealthyIndex(endpoints, i) == HealthyIndex(endpoints, j) <==> i == j
  {
    if endpoints[0].healthy {
      if i > 0 && j > 0 {
        HealthyIndexInjective(endpoints[1..], i - 1, j - 1);
      }
    } else {
      HealthyIndexInjective(endpoints[1..], i, j);
    }
  }

  /** Round-robin is fair: while the table does not change, of the requests for one service, mixed with any requests for
      others and from any counter, the `k`-th of its `n` healthy endpoints comes first `m / n` times, and once more exactly
      when its turn falls in the last incomplete round. */
  lemma Fair(counters: Counters, table: Table, requests: seq<string>, service: string, k: nat)
    requires UniqueEverywhere(table)
    requires k < |Healthy(Get(table, service))|
    ensures var healthy := Healthy(Get(table, service));
            var m, n := Requests(requests, service), |healthy|;
            Firsts(counters, table, requests, healthy[k])
              == m / n + if (k - Health.Count(counters, service)) % n < m % n then 1 else 0
  {
    hide *;
    FirstsAreHits(counters, table, requests, service, k);
    HitsExactly(Health.Count(counters, service), Requests(requests, service), |Healthy(Get(table, service))|, k);
  }
}
