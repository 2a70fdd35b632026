/** Applying a list of manifests to the stores. */
module Applier {
  import opened Wrappers

  datatype ServiceSpec = ServiceSpec(
    name: string, image: string, replicas: int, labels: map<string, string>,
    buckets: seq<string>, databases: seq<string>, callers: seq<string>)

  /** `status` and `replicas` belong to the orchestrator; an update keeps them. */
  datatype ServiceRecord = ServiceRecord(spec: ServiceSpec, status: string, replicas: seq<string>)

  datatype DatabaseSpec = DatabaseSpec(name: string, version: string, storage: int)

  datatype DatabaseRecord = DatabaseRecord(spec: DatabaseSpec, container: string)

  datatype Manifest =
    | Service(name: string, image: string, replicas: int, metadataLabels: map<string, string>,
              specLabels: map<string, string>, buckets: seq<string>, databases: seq<string>, callers: seq<string>)
    | Secret(name: string, value: string)
    | Secrets(secrets: seq<(string, string)>)
    | Bucket(name: string)
    | Database(name: string, version: string, storage: int)

  datatype Stores = Stores(
    services: map<string, ServiceRecord>, databases: map<string, DatabaseRecord>, secrets: map<string, string>,
    buckets: set<string>)

  datatype Problem =
    | MissingBucket(name: string) | MissingDatabase(name: string) | UnknownCaller(name: string)
    | Raised                                                     // anything else that was raised

  /** Where an exception strikes while a manifest is being applied: before anything is read, or after so many writes. A
      manifest that needs fewer writes has done them all by then. */
  datatype Fault = BeforeReading | AfterWrites(n: nat)

  datatype Action = Created | Updated | Unchanged | Error(problem: Problem)

  datatype Result = Result(kind: string, name: string, action: Action)

  /** The names that a list of manifests asks for. */
  datatype Desired = Desired(buckets: set<string>, databases: set<string>, services: set<string>)

  function DesiredBy(ms: seq<Manifest>): Desired {
    Desired(
      set m | m in ms && m.Bucket? :: m.name,
      set m | m in ms && m.Database? :: m.name,
      set m | m in ms && m.Service? :: m.name)
  }

  /** Everything a service may refer to: what exists and what is asked for. */
  function Known(s: Stores, d: Desired): Desired {
    Desired(s.buckets + d.buckets, s.databases.Keys + d.databases, s.services.Keys + d.services)
  }

  function FirstMissing(names: seq<string>, known: set<string>): (r: Option<string>)
    ensures r.None? <==> forall n :: n in names ==> n in known
  {
    if names == [] then None
    else if names[0] !in known then Some(names[0])
    else FirstMissing(names[1..], known)
  }

  /** `_validate_service_bindings`. */
  function Invalid(m: Manifest, known: Desired): Option<Problem>
    requires m.Service?
  {
    var bucket := FirstMissing(m.buckets, known.buckets);
    var database := FirstMissing(m.databases, known.databases);
    var caller := FirstMissing(m.callers, known.services);
    if bucket.Some? then Some(MissingBucket(bucket.value))
    else if database.Some? then Some(MissingDatabase(database.value))
    else if caller.Some? then Some(UnknownCaller(caller.value))
    else None
  }

  function SpecOf(m: Manifest): ServiceSpec
    requires m.Service?
  {
    ServiceSpec(m.name, m.image, m.replicas, m.metadataLabels + m.specLabels, m.buckets, m.databases, m.callers)
  }

  const PENDING: string := "pending"

  function ServiceAfter(services: map<string, ServiceRecord>, m: Manifest): ServiceRecord
    requires m.Service?
  {
    if m.name in services then services[m.name].(spec := SpecOf(m)) else ServiceRecord(SpecOf(m), PENDING, [])
  }

  function DatabaseAfter(databases: map<string, DatabaseRecord>, m: Manifest): DatabaseRecord
    requires m.Database?
  {
    var spec := DatabaseSpec(m.name, m.version, m.storage);
    if m.name in databases then databases[m.name].(spec := spec) else DatabaseRecord(spec, "")
  }

  function Made(existed: bool): Action {
    if existed then Updated else Created
  }

  datatype Outcome = Outcome(stores: Stores, results: seq<Result>)

  function PutSecrets(s: Stores, secrets: seq<(string, string)>): Outcome {
    if secrets == [] then Outcome(s, [])
    else
      var before := PutSecrets(s, secrets[..|secrets| - 1]);
      var (name, value) := secrets[|secrets| - 1];
      Outcome(before.stores.(secrets := before.stores.secrets[name := value]),
              before.results + [Result("Secret", name, Made(name in before.stores.secrets))])
  }

  /** The first `n` writes of applying secrets; an existing one is deleted and then created anew. */
  function SecretWrites(s: Stores, secrets: seq<(string, string)>, n: nat): Stores
    decreases |secrets|
  {
    if secrets == [] || n == 0 then s
    else
      var (name, value) := secrets[0];
      var put := s.(secrets := s.secrets[name := value]);
      if name !in s.secrets then SecretWrites(put, secrets[1..], n - 1)
      else if n == 1 then s.(secrets := s.secrets - {name})
      else SecretWrites(put, secrets[1..], n - 2)
  }

  /** A manifest that nothing disturbs. */
  function Undisturbed(s: Stores, d: Desired, m: Manifest): Outcome {
    match m
    case Service(name, _, _, _, _, _, _, _) =>
      var problem := Invalid(m, Known(s, d));
      if problem.Some? then Outcome(s, [Result("Service", name, Error(problem.value))])
      else Outcome(s.(services := s.services[name := ServiceAfter(s.services, m)]),
                   [Result("Service", name, Made(name in s.services))])
    case Secret(name, value) => PutSecrets(s, [(name, value)])
    case Secrets(secrets) => PutSecrets(s, secrets)
    case Bucket(name) =>
      Outcome(s.(buckets := s.buckets + {name}),
              [Result("Bucket", name, if name in s.buckets then Unchanged else Created)])
    case Database(name, _, _) =>
      Outcome(s.(databases := s.databases[name := DatabaseAfter(s.databases, m)]),
              [Result("Database", name, Made(name in s.databases))])
  }

  /** The one result of a manifest that raised; a secret list answers as "bundle". */
  function Failure(m: Manifest): Result {
    match m
    case Service(name, _, _, _, _, _, _, _) => Result("Service", name, Error(Raised))
    case Secret(name, _) => Result("Secret", name, Error(Raised))
    case Secrets(_) => Result("Secrets", "bundle", Error(Raised))
    case Bucket(name) => Result("Bucket", name, Error(Raised))
    case Database(name, _, _) => Result("Database", name, Error(Raised))
  }

  /** The stores after the first `n` writes of a manifest that passed its checks. */
  function Partly(s: Stores, m: Manifest, n: nat): Stores {
    match m
    case Service(name, _, _, _, _, _, _, _) =>
      if n == 0 then s else s.(services := s.services[name := ServiceAfter(s.services, m)])
    case Secret(name, value) => SecretWrites(s, [(name, value)], n)
    case Secrets(secrets) => SecretWrites(s, secrets, n)
    case Bucket(name) => if n == 0 then s else s.(buckets := s.buckets + {name})
    case Database(name, _, _) =>
      if n == 0 then s else s.(databases := s.databases[name := DatabaseAfter(s.databases, m)])
  }

  /** `_apply_one`. */
  function One(s: Stores, d: Desired, m: Manifest, fault: Option<Fault>): Outcome {
    if fault.None? then Undisturbed(s, d, m)
    else if fault.value.BeforeReading? then Outcome(s, [Failure(m)])
    else if m.Service? && Invalid(m, Known(s, d)).Some? then Undisturbed(s, d, m)
    else Outcome(Partly(s, m, fault.value.n), [Failure(m)])
  }

  /** The exceptions that will strike, by manifest. */
  type Faults = map<Manifest, Fault>

  function FaultOf(faults: Faults, m: Manifest): Option<Fault> {
    if m in faults then Some(faults[m]) else None
  }

  /** The stores after the first `n` manifests. */
  function StoresAfter(s: Stores, d: Desired, ms: seq<Manifest>, faults: Faults, n: nat): Stores
    requires n <= |ms|
  {
    if n == 0 then s else One(StoresAfter(s, d, ms, faults, n - 1), d, ms[n - 1], FaultOf(faults, ms[n - 1])).stores
  }

  /** What the `i`-th manifest is answered. */
  function ResultsAt(s: Stores, ms: seq<Manifest>, faults: Faults, i: nat): seq<Result>
    requires i < |ms|
  {
    One(StoresAfter(s, DesiredBy(ms), ms, faults, i), DesiredBy(ms), ms[i], FaultOf(faults, ms[i])).results
  }

  function ResultsUpTo(s: Stores, ms: seq<Manifest>, faults: Faults, n: nat): seq<Result>
    requires n <= |ms|
  {
    if n == 0 then [] else ResultsUpTo(s, ms, faults, n - 1) + ResultsAt(s, ms, faults, n - 1)
  }

  function Applied(s: Stores, ms: seq<Manifest>, faults: Faults): Stores {
    StoresAfter(s, DesiredBy(ms), ms, faults, |ms|)
  }

  class Applier {
    var services: map<string, ServiceRecord>
    var databases: map<string, DatabaseRecord>
    var secrets: map<string, string>
    var buckets: set<string>

    ghost function State(): Stores
      reads this
    {
      Stores(services, databases, secrets, buckets)
    }

    constructor (s: Stores)
      ensures State() == s
    {
      services, databases, secrets, buckets := s.services, s.databases, s.secrets, s.buckets;
    }

    method ValidateServiceBindings(m: Manifest, d: Desired) returns (problem: Option<Problem>)
      requires m.Service?
      ensures problem == Invalid(m, Known(State(), d))
    {
      ghost var known := Known(State(), d);
      for i := 0 to |m.buckets|
        invariant FirstMissing(m.buckets, known.buckets) == FirstMissing(m.buckets[i..], known.buckets)
      {
        assert m.buckets[i..][1..] == m.buckets[i + 1..];
        if m.buckets[i] !in d.buckets && m.buckets[i] !in buckets {
          return Some(MissingBucket(m.buckets[i]));
        }
      }
      for i := 0 to |m.databases|
        invariant FirstMissing(m.databases, known.databases) == FirstMissing(m.databases[i..], known.databases)
      {
        assert m.databases[i..][1..] == m.databases[i + 1..];
        if m.databases[i] !in d.databases && m.databases[i] !in databases {
          return Some(MissingDatabase(m.databases[i]));
        }
      }
      for i := 0 to |m.callers|
        invariant FirstMissing(m.callers, known.services) == FirstMissing(m.callers[i..], known.services)
      {
        assert m.callers[i..][1..] == m.callers[i + 1..];
        if m.callers[i] !in d.services && m.callers[i] !in services {
          return Some(UnknownCaller(m.callers[i]));
        }
      }
      return None;
    }

    /** An existing secret is deleted and created anew. With `left`, the exception strikes once that many writes are
        done, and there is no result. */
    method ApplySecret(name: string, value: string, left: Option<nat>) returns (result: Option<Result>, after: Option<nat>)
      modifies this`secrets
      ensures left.None? ==>
        && after.None? && secrets == old(secrets)[name := value]
        && result == Some(Result("Secret", name, Made(name in old(secrets))))
      ensures left.Some? ==>
        forall rest :: SecretWrites(old(State()), [(name, value)] + rest, left.value)
                    == if result.None? then State()
                       else if after.Some? then SecretWrites(State(), rest, after.value) else old(State())
      ensures left.Some? && result.Some? ==> after.Some?
    {
      after := left;
      ghost var before := State();
      forall rest ensures ([(name, value)] + rest)[1..] == rest {
      }
      if after == Some(0) { return None, after; }
      if name in secrets {
        secrets := secrets - {name};
        after := if after.Some? then Some(after.value - 1) else None;
        if after == Some(0) { return None, after; }
        secrets := secrets[name := value];
        assert secrets == before.secrets[name := value];
        after := if after.Some? then Some(after.value - 1) else None;
        return Some(Result("Secret", name, Updated)), after;
      }
      secrets := secrets[name := value];
      after := if after.Some? then Some(after.value - 1) else None;
      return Some(Result("Secret", name, Created)), after;
    }

    /** The results, unless the exception struck. */
    method ApplySecrets(items: seq<(string, string)>, limit: Option<nat>) returns (results: Option<seq<Result>>)
      modifies this`secrets
      ensures limit.None? ==> results.Some? && Outcome(State(), results.value) == PutSecrets(old(State()), items)
      ensures limit.Some? ==> State() == SecretWrites(old(State()), items, limit.value)
    {
      var done, left := [], limit;
      for i := 0 to |items|
        invariant limit.Some? <==> left.Some?
        invariant limit.None? ==> Outcome(State(), done) == PutSecrets(old(State()), items[..i])
        invariant limit.Some? ==>
          SecretWrites(old(State()), items, limit.value) == SecretWrites(State(), items[i..], left.value)
      {
        assert items[..i + 1][..i] == items[..i];
        assert items[i..] == [(items[i].0, items[i].1)] + items[i + 1..];
        var result;
        result, left := ApplySecret(items[i].0, items[i].1, left);
        if result.None? {
          return None;
        }
        done := done + [result.value];
      }
      assert items[..|items|] == items;
      return Some(done);
    }

    /** An exception ends the manifest with one error result; what was written until then stays. */
    method ApplyOne(m: Manifest, d: Desired, fault: Option<Fault>) returns (results: seq<Result>)
      modifies this
      ensures Outcome(State(), results) == One(old(State()), d, m, fault)
    {
      if fault == Some(BeforeReading) {
        return [Failure(m)];
      }
      var limit := if fault.None? then None else Some(fault.value.n);
      match m {
        case Service(name, _, _, _, _, _, _, _) =>
          var problem := ValidateServiceBindings(m, d);
          if problem.Some? {
            return [Result("Service", name, Error(problem.value))];
          }
          if limit == Some(0) {
            return [Failure(m)];
          }
          var existed := name in services;
          services := services[name := ServiceAfter(services, m)];
          return [if limit.Some? then Failure(m) else Result("Service", name, Made(existed))];
        case Secret(name, value) =>
          var done := ApplySecrets([(name, value)], limit);
          return if limit.Some? || done.None? then [Failure(m)] else done.value;
        case Secrets(items) =>
          var done := ApplySecrets(items, limit);
          return if limit.Some? || done.None? then [Failure(m)] else done.value;
        case Bucket(name) =>
          if limit == Some(0) {
            return [Failure(m)];
          }
          if name in buckets {
            assert buckets + {name} == buckets;
            return [if limit.Some? then Failure(m) else Result("Bucket", name, Unchanged)];
          }
          buckets := buckets + {name};
          return [if limit.Some? then Failure(m) else Result("Bucket", name, Created)];
        case Database(name, _, _) =>
          if limit == Some(0) {
            return [Failure(m)];
          }
          var existed := name in databases;
          databases := databases[name := DatabaseAfter(databases, m)];
          return [if limit.Some? then Failure(m) else Result("Database", name, Made(existed))];
      }
    }

    method Apply(ms: seq<Manifest>, faults: Faults) returns (results: seq<Result>)
      modifies this
      ensures State() == Applied(old(State()), ms, faults)
      ensures results == ResultsUpTo(old(State()), ms, faults, |ms|)
    {
      var d := DesiredBy(ms);
      results := [];
      for i := 0 to |ms|
        invariant State() == StoresAfter(old(State()), d, ms, faults, i)
        invariant results == ResultsUpTo(old(State()), ms, faults, i)
      {
        var one := ApplyOne(ms[i], d, FaultOf(faults, ms[i]));
        results := results + one;
      }
    }
  }

  // ---- What one undisturbed manifest does, field by field ----

  /** `n` is the first of the names that is not known. */
  ghost predicate MissesFirst(names: seq<string>, known: set<string>, n: string) {
    exists k: nat :: k < |names| && names[k] == n && n !in known && forall i :: 0 <= i < k ==> names[i] in known
  }

  ghost predicate AllIn(names: seq<string>, known: set<string>) {
    forall n :: n in names ==> n in known
  }

  lemma {:induction false} FirstMissingMeans(names: seq<string>, known: set<string>)
    ensures match FirstMissing(names, known)
            case None => AllIn(names, known)
            case Some(n) => MissesFirst(names, known, n) && !AllIn(names, known)
  {
    if names != [] {
      if names[0] !in known {
        assert names[0] == names[0] && names[0] in names;
        assert MissesFirst(names, known, names[0]);
      } else {
        FirstMissingMeans(names[1..], known);
        if FirstMissing(names[1..], known).Some? {
          var n := FirstMissing(names[1..], known).value;
          var k: nat :| k < |names[1..]| && names[1..][k] == n && forall i :: 0 <= i < k ==> names[1..][i] in known;
          assert names[k + 1] == n;
          forall i | 0 <= i < k + 1 ensures names[i] in known {
            assert i > 0 ==> names[1..][i - 1] == names[i];
          }
        }
      }
    }
  }

  /** A service is refused for the first bucket that neither exists nor is asked for, else for the first such database, else
      for the first such caller, and is accepted if there is none. */
  lemma InvalidMeans(s: Stores, d: Desired, m: Manifest)
    requires m.Service?
    ensures var buckets, databases := s.buckets + d.buckets, s.databases.Keys + d.databases;
            var services := s.services.Keys + d.services;
            match Invalid(m, Known(s, d))
            case None => AllIn(m.buckets, buckets) && AllIn(m.databases, databases) && AllIn(m.callers, services)
            case Some(problem) =>
              match problem
              case MissingBucket(n) => MissesFirst(m.buckets, buckets, n)
              case MissingDatabase(n) => AllIn(m.buckets, buckets) && MissesFirst(m.databases, databases, n)
              case UnknownCaller(n) =>
                AllIn(m.buckets, buckets) && AllIn(m.databases, databases) && MissesFirst(m.callers, services, n)
              case Raised => false
  {
    hide MissesFirst, AllIn, FirstMissing;
    FirstMissingMeans(m.buckets, s.buckets + d.buckets);
    FirstMissingMeans(m.databases, s.databases.Keys + d.databases);
    FirstMissingMeans(m.callers, s.services.Keys + d.services);
  }

  /** An accepted service has the manifest's fields, its labels those of the manifest, over which the specification's go; an
      existing one keeps status and replicas and is updated, a new one is pending without replicas and is created. Nothing
      else is written, and a refused one writes nothing. */
  lemma ServiceMeans(s: Stores, d: Desired, m: Manifest)
    requires m.Service?
    ensures var o, problem := Undisturbed(s, d, m), Invalid(m, Known(s, d));
            if problem.Some? then o.stores == s && o.results == [Result("Service", m.name, Error(problem.value))]
            else
              && o.stores == s.(services := o.stores.services)
              && o.stores.services.Keys == s.services.Keys + {m.name}
              && (forall n :: n in s.services && n != m.name ==> o.stores.services[n] == s.services[n])
              && o.results == [Result("Service", m.name, if m.name in s.services then Updated else Created)]
              && var service := o.stores.services[m.name];
                 && service.spec.name == m.name && service.spec.image == m.image && service.spec.replicas == m.replicas
                 && service.spec.buckets == m.buckets && service.spec.databases == m.databases
                 && service.spec.callers == m.callers
                 && (forall key :: key in service.spec.labels <==> key in m.metadataLabels || key in m.specLabels)
                 && (forall key :: key in service.spec.labels ==>
                       service.spec.labels[key] == if key in m.specLabels then m.specLabels[key] else m.metadataLabels[key])
                 && service.status == (if m.name in s.services then s.services[m.name].status else "pending")
                 && service.replicas == (if m.name in s.services then s.services[m.name].replicas else [])
  {
    hide Invalid;
  }

  /** A bucket that exists is left unchanged, and answers so. */
  lemma BucketMeans(s: Stores, d: Desired, name: string)
    ensures Undisturbed(s, d, Bucket(name))
         == if name in s.buckets then Outcome(s, [Result("Bucket", name, Unchanged)])
            else Outcome(s.(buckets := s.buckets + {name}), [Result("Bucket", name, Created)])
  {
    assert name in s.buckets ==> s.buckets + {name} == s.buckets;
  }

  /** A database gets the manifest's fields and keeps its container. */
  lemma DatabaseMeans(s: Stores, d: Desired, m: Manifest)
    requires m.Database?
    ensures var o := Undisturbed(s, d, m);
            && o.stores == s.(databases := o.stores.databases)
            && o.stores.databases.Keys == s.databases.Keys + {m.name}
            && (forall n :: n in s.databases && n != m.name ==> o.stores.databases[n] == s.databases[n])
            && o.results == [Result("Database", m.name, if m.name in s.databases then Updated else Created)]
            && var database := o.stores.databases[m.name];
               && database.spec.name == m.name && database.spec.version == m.version && database.spec.storage == m.storage
               && database.container == if m.name in s.databases then s.databases[m.name].container else ""
  {}

  /** An exception makes a manifest answer once, with an error under its kind and name, which for a list of secrets is
      "bundle"; a service that was refused by then answers with the refusal. */
  lemma FailureMeans(s: Stores, d: Desired, m: Manifest, fault: Option<Fault>)
    requires fault.Some?
    ensures var o := One(s, d, m, fault);
            var refusal := if m.Service? && fault.value.AfterWrites? then Invalid(m, Known(s, d)) else None;
            var kind := if m.Service? then "Service" else if m.Secret? then "Secret" else if m.Secrets? then "Secrets"
                        else if m.Bucket? then "Bucket" else "Database";
            && o.results == [Result(kind, if m.Secrets? then "bundle" else m.name,
                                    Error(if refusal.Some? then refusal.value else Raised))]
            && (fault.value.BeforeReading? || refusal.Some? ==> o.stores == s)
  {
    hide Invalid, SecretWrites;
  }

  /** What an exception leaves of a manifest after `n` writes: before the first nothing is written, and with it everything,
      except that an existing secret is gone after one write and has its new value after two. A list of secrets is written
      from the front, as far as the writes go. */
  lemma FaultLeaves(s: Stores, d: Desired, m: Manifest, n: nat)
    ensures var end := One(s, d, m, Some(AfterWrites(n))).stores;
            match m
            case Secret(name, value) =>
              end == if n == 0 then s
                     else if name in s.secrets && n == 1 then s.(secrets := s.secrets - {name})
                     else s.(secrets := s.secrets[name := value])
            case Secrets(secrets) =>
              (n == 0 || secrets == [] ==> end == s)
              && (n > 0 && secrets != [] ==>
                    var (name, value) := secrets[0];
                    var cost, put := if name in s.secrets then 2 else 1, s.(secrets := s.secrets[name := value]);
                    end == if n < cost then s.(secrets := s.secrets - {name})
                           else One(put, d, Secrets(secrets[1..]), Some(AfterWrites(n - cost))).stores)
            case _ => end == if n == 0 then s else Undisturbed(s, d, m).stores
  {
    hide Invalid;
    match m
    case Secret(name, value) =>
      var one := [(name, value)];
      assert one[1..] == [];
      var put := s.(secrets := s.secrets[name := value]);
      if n >= 1 { NoMoreWrites(put, one[1..], n - 1); }
      if n >= 2 { NoMoreWrites(put, one[1..], n - 2); }
    case Secrets(secrets) =>
    case _ =>
      assert s == s.(buckets := s.buckets);
  }

  lemma NoMoreWrites(s: Stores, secrets: seq<(string, string)>, n: nat)
    requires secrets == []
    ensures SecretWrites(s, secrets, n) == s
  {}

  /** One of the first `k` secrets has this name. */
  ghost predicate NamedIn(secrets: seq<(string, string)>, k: nat, n: string)
    requires k <= |secrets|
  {
    exists i: nat :: i < k && secrets[i].0 == n
  }

  lemma NamedOneMore(secrets: seq<(string, string)>, n: string)
    requires secrets != []
    ensures var k := |secrets| - 1;
            NamedIn(secrets, k + 1, n) <==> NamedIn(secrets[..k], k, n) || secrets[k].0 == n
  {
    var k := |secrets| - 1;
    if i: nat :| i < k + 1 && secrets[i].0 == n {
      assert i < k ==> secrets[..k][i].0 == n;
    }
    if i: nat :| i < k && secrets[..k][i].0 == n {
      assert secrets[i].0 == n;
    }
    assert secrets[k].0 == secrets[k].0;
  }

  /** What is held after writing secrets: a name that was there or is listed, with the value listed last for it, or the old
      one if none is listed. */
  lemma {:induction false} SecretsMean(s: Stores, secrets: seq<(string, string)>, n: string)
    ensures var o := PutSecrets(s, secrets);
            && o.stores == s.(secrets := o.stores.secrets)
            && (n in o.stores.secrets <==> n in s.secrets || NamedIn(secrets, |secrets|, n))
            && (n in o.stores.secrets && !NamedIn(secrets, |secrets|, n) ==> o.stores.secrets[n] == s.secrets[n])
            && (forall i: nat ::
                  i < |secrets| && secrets[i].0 == n && (forall j :: i < j < |secrets| ==> secrets[j].0 != n) ==>
                  n in o.stores.secrets && o.stores.secrets[n] == secrets[i].1)
  {
    hide NamedIn;
    if secrets != [] {
      var k := |secrets| - 1;
      SecretsMean(s, secrets[..k], n);
      NamedOneMore(secrets, n);
      var o := PutSecrets(s, secrets);
      forall i: nat | i < |secrets| && secrets[i].0 == n && (forall j :: i < j < |secrets| ==> secrets[j].0 != n)
        ensures n in o.stores.secrets && o.stores.secrets[n] == secrets[i].1 {
        if i < k {
          assert secrets[..k][i] == secrets[i];
          assert forall j :: i < j < k ==> secrets[..k][j].0 == secrets[j].0;
        }
      }
    } else {
      assert !NamedIn(secrets, 0, n) by { NamedNowhere(n); }
    }
  }

  lemma NamedNowhere(n: string)
    ensures !NamedIn([], 0, n)
  {}

  /** Each secret answers whether its name was there before it, from the start or from an earlier one. */
  lemma {:induction false} SecretsAnswer(s: Stores, secrets: seq<(string, string)>, i: nat)
    requires i < |secrets|
    ensures var o := PutSecrets(s, secrets);
            && |o.results| == |secrets|
            && o.results[i] == Result("Secret", secrets[i].0,
                                      if secrets[i].0 in s.secrets || NamedIn(secrets, i, secrets[i].0) then Updated
                                      else Created)
  {
    hide NamedIn;
    var k := |secrets| - 1;
    SecretsAnswered(s, secrets[..k]);
    if i < k {
      SecretsAnswer(s, secrets[..k], i);
      assert secrets[..k][i] == secrets[i];
      NamedFront(secrets, k, i, secrets[i].0);
    } else {
      SecretsMean(s, secrets[..k], secrets[k].0);
      NamedFront(secrets, k, k, secrets[k].0);
    }
  }

  lemma {:induction false} SecretsAnswered(s: Stores, secrets: seq<(string, string)>)
    ensures |PutSecrets(s, secrets).results| == |secrets|
  {
    if secrets != [] {
      SecretsAnswered(s, secrets[..|secrets| - 1]);
    }
  }

  lemma NamedFront(secrets: seq<(string, string)>, k: nat, i: nat, n: string)
    requires i <= k <= |secrets|
    ensures NamedIn(secrets[..k], i, n) <==> NamedIn(secrets, i, n)
  {
    assert forall j: nat :: j < i ==> secrets[..k][j] == secrets[j];
  }

  // ---- Manifests do not interfere ----

  datatype Target = ServiceNamed(name: string) | DatabaseNamed(name: string) | SecretNamed(name: string)
                  | BucketNamed(name: string)

  datatype Content = ServiceContent(service: ServiceRecord) | DatabaseContent(database: DatabaseRecord)
                   | SecretContent(value: string) | BucketContent

  function Look(s: Stores, t: Target): Option<Content> {
    match t
    case ServiceNamed(n) => if n in s.services then Some(ServiceContent(s.services[n])) else None
    case DatabaseNamed(n) => if n in s.databases then Some(DatabaseContent(s.databases[n])) else None
    case SecretNamed(n) => if n in s.secrets then Some(SecretContent(s.secrets[n])) else None
    case BucketNamed(n) => if n in s.buckets then Some(BucketContent) else None
  }

  function SecretTargets(secrets: seq<(string, string)>): set<Target> {
    set i | 0 <= i < |secrets| :: SecretNamed(secrets[i].0)
  }

  /** What a manifest may write. */
  function Targets(m: Manifest): set<Target> {
    match m
    case Service(name, _, _, _, _, _, _, _) => {ServiceNamed(name)}
    case Secret(name, _) => {SecretNamed(name)}
    case Secrets(secrets) => SecretTargets(secrets)
    case Bucket(name) => {BucketNamed(name)}
    case Database(name, _, _) => {DatabaseNamed(name)}
  }

  /** Kind and name, and every secret name, occur once. */
  ghost predicate Distinct(ms: seq<Manifest>) {
    && (forall m :: m in ms ==> multiset(ms)[m] == 1)
    && (forall a, b :: a in ms && b in ms && a != b ==> Targets(a) !! Targets(b))
  }

  lemma SameContents(a: Stores, b: Stores)
    requires forall t :: Look(a, t) == Look(b, t)
    ensures a == b
  {
    forall n: string ensures
      && (n in a.services <==> n in b.services) && (n in a.services ==> a.services[n] == b.services[n])
      && (n in a.databases <==> n in b.databases) && (n in a.databases ==> a.databases[n] == b.databases[n])
      && (n in a.secrets <==> n in b.secrets) && (n in a.secrets ==> a.secrets[n] == b.secrets[n])
      && (n in a.buckets <==> n in b.buckets)
    {
      assert Look(a, ServiceNamed(n)) == Look(b, ServiceNamed(n));
      assert Look(a, DatabaseNamed(n)) == Look(b, DatabaseNamed(n));
      assert Look(a, SecretNamed(n)) == Look(b, SecretNamed(n));
      assert Look(a, BucketNamed(n)) == Look(b, BucketNamed(n));
    }
    assert a.services == b.services && a.databases == b.databases && a.secrets == b.secrets && a.buckets == b.buckets;
  }

  lemma PutLast(s: Stores, secrets: seq<(string, string)>, t: Target)
    requires secrets != []
    ensures var last := secrets[|secrets| - 1];
            Look(PutSecrets(s, secrets).stores, t)
            == if t == SecretNamed(last.0) then Some(SecretContent(last.1))
               else Look(PutSecrets(s, secrets[..|secrets| - 1]).stores, t)
  {}

  lemma SecretTargetsGrow(secrets: seq<(string, string)>, t: Target)
    requires secrets != []
    ensures t in SecretTargets(secrets) <==>
            t in SecretTargets(secrets[..|secrets| - 1]) || t == SecretNamed(secrets[|secrets| - 1].0)
  {
    var n := |secrets| - 1;
    if t in SecretTargets(secrets) {
      var i :| 0 <= i <= n && t == SecretNamed(secrets[i].0);
      assert i < n ==> t == SecretNamed(secrets[..n][i].0);
    }
    if t in SecretTargets(secrets[..n]) {
      var i :| 0 <= i < n && t == SecretNamed(secrets[..n][i].0);
      assert t == SecretNamed(secrets[i].0);
    }
  }

  /** A secret list leaves everything else alone. */
  lemma {:induction false} SecretsLocal(s: Stores, secrets: seq<(string, string)>, t: Target)
    requires t !in SecretTargets(secrets)
    ensures Look(PutSecrets(s, secrets).stores, t) == Look(s, t)
  {
    hide Look, SecretTargets;
    if secrets != [] {
      PutLast(s, secrets, t);
      SecretTargetsGrow(secrets, t);
      SecretsLocal(s, secrets[..|secrets| - 1], t);
    }
  }

  lemma {:induction false} SecretsOnly(s: Stores, secrets: seq<(string, string)>)
    ensures PutSecrets(s, secrets).stores == s.(secrets := PutSecrets(s, secrets).stores.secrets)
  {
    if secrets != [] {
      SecretsOnly(s, secrets[..|secrets| - 1]);
    }
  }

  /** A secret list reads nothing but the secrets it names. */
  lemma {:induction false} SecretsDepend(a: Stores, b: Stores, secrets: seq<(string, string)>)
    requires forall t :: t in SecretTargets(secrets) ==> Look(a, t) == Look(b, t)
    ensures PutSecrets(a, secrets).results == PutSecrets(b, secrets).results
    ensures forall t :: t in SecretTargets(secrets) ==>
              Look(PutSecrets(a, secrets).stores, t) == Look(PutSecrets(b, secrets).stores, t)
  {
    hide Look, SecretTargets;
    if secrets != [] {
      var before := secrets[..|secrets| - 1];
      var last := SecretNamed(secrets[|secrets| - 1].0);
      forall t | t in SecretTargets(before) ensures t in SecretTargets(secrets) {
        SecretTargetsGrow(secrets, t);
      }
      SecretsDepend(a, b, before);
      SecretTargetsGrow(secrets, last);
      if last !in SecretTargets(before) {
        SecretsLocal(a, before, last);
        SecretsLocal(b, before, last);
      }
      SecretHeld(PutSecrets(a, before).stores, PutSecrets(b, before).stores, secrets[|secrets| - 1].0);
      forall t | t in SecretTargets(secrets)
        ensures Look(PutSecrets(a, secrets).stores, t) == Look(PutSecrets(b, secrets).stores, t) {
        PutLast(a, secrets, t);
        PutLast(b, secrets, t);
        SecretTargetsGrow(secrets, t);
      }
    }
  }

  lemma SecretHeld(a: Stores, b: Stores, name: string)
    requires Look(a, SecretNamed(name)) == Look(b, SecretNamed(name))
    ensures name in a.secrets <==> name in b.secrets
  {}

  lemma OneSecret(name: string, value: string)
    ensures SecretTargets([(name, value)]) == {SecretNamed(name)}
  {
    assert [(name, value)][0].0 == name;
  }

  // ---- Secrets written in part ----

  lemma SecretTargetsTail(secrets: seq<(string, string)>)
    requires secrets != []
    ensures forall t :: t in SecretTargets(secrets) <==>
              t == SecretNamed(secrets[0].0) || t in SecretTargets(secrets[1..])
  {
    forall t | t in SecretTargets(secrets[1..]) ensures t in SecretTargets(secrets) {
      var i :| 0 <= i < |secrets| - 1 && t == SecretNamed(secrets[1..][i].0);
      assert t == SecretNamed(secrets[i + 1].0);
    }
    forall t | t in SecretTargets(secrets) ensures t == SecretNamed(secrets[0].0) || t in SecretTargets(secrets[1..]) {
      var i :| 0 <= i < |secrets| && t == SecretNamed(secrets[i].0);
      if i > 0 {
        assert t == SecretNamed(secrets[1..][i - 1].0);
      }
    }
  }

  lemma {:induction false} WritesLocal(s: Stores, secrets: seq<(string, string)>, n: nat)
    ensures SecretWrites(s, secrets, n) == s.(secrets := SecretWrites(s, secrets, n).secrets)
    ensures forall t :: t !in SecretTargets(secrets) ==> Look(SecretWrites(s, secrets, n), t) == Look(s, t)
    decreases |secrets|
  {
    hide SecretTargets;
    if secrets != [] && n > 0 {
      var (name, value) := secrets[0];
      SecretTargetsTail(secrets);
      var used := if name in s.secrets then 2 else 1;
      if n >= used {
        WritesLocal(s.(secrets := s.secrets[name := value]), secrets[1..], n - used);
      }
    }
  }

  lemma {:induction false} WritesDepend(a: Stores, b: Stores, secrets: seq<(string, string)>, n: nat)
    requires forall t :: t in SecretTargets(secrets) ==> Look(a, t) == Look(b, t)
    ensures forall t :: t in SecretTargets(secrets) ==>
              Look(SecretWrites(a, secrets, n), t) == Look(SecretWrites(b, secrets, n), t)
    decreases |secrets|
  {
    hide SecretTargets;
    if secrets != [] && n > 0 {
      var (name, value) := secrets[0];
      SecretTargetsTail(secrets);
      SecretHeld(a, b, name);
      var used := if name in a.secrets then 2 else 1;
      if n >= used {
        var a1, b1 := a.(secrets := a.secrets[name := value]), b.(secrets := b.secrets[name := value]);
        WritesDepend(a1, b1, secrets[1..], n - used);
        WritesLocal(a1, secrets[1..], n - used);
        WritesLocal(b1, secrets[1..], n - used);
      }
    }
  }

  // ---- One manifest, disturbed or not ----

  lemma PartlyLocal(s: Stores, m: Manifest, n: nat, t: Target)
    requires t !in Targets(m)
    ensures Look(Partly(s, m, n), t) == Look(s, t)
  {
    hide SecretWrites, SecretTargets;
    match m
    case Secret(name, value) =>
      OneSecret(name, value);
      WritesLocal(s, [(name, value)], n);
    case Secrets(secrets) => WritesLocal(s, secrets, n);
    case _ =>
  }

  lemma UndisturbedLocal(s: Stores, d: Desired, m: Manifest, t: Target)
    requires t !in Targets(m)
    ensures Look(Undisturbed(s, d, m).stores, t) == Look(s, t)
  {
    hide PutSecrets, SecretTargets, Invalid, Known;
    match m
    case Secret(name, value) =>
      OneSecret(name, value);
      SecretsLocal(s, [(name, value)], t);
    case Secrets(secrets) => SecretsLocal(s, secrets, t);
    case _ =>
  }

  /** Applying a manifest changes only its targets, exception or not. */
  lemma OneLocal(s: Stores, d: Desired, m: Manifest, fault: Option<Fault>, t: Target)
    requires t !in Targets(m)
    ensures Look(One(s, d, m, fault).stores, t) == Look(s, t)
  {
    hide Undisturbed, Partly, Targets, Invalid, Known, Look;
    UndisturbedLocal(s, d, m, t);
    if fault.Some? && fault.value.AfterWrites? {
      PartlyLocal(s, m, fault.value.n, t);
    }
  }

  lemma PartlyDepends(a: Stores, b: Stores, m: Manifest, n: nat)
    requires forall t :: t in Targets(m) ==> Look(a, t) == Look(b, t)
    ensures forall t :: t in Targets(m) ==> Look(Partly(a, m, n), t) == Look(Partly(b, m, n), t)
  {
    hide SecretWrites, SecretTargets;
    match m
    case Secret(name, value) =>
      OneSecret(name, value);
      WritesDepend(a, b, [(name, value)], n);
    case Secrets(secrets) => WritesDepend(a, b, secrets, n);
    case Service(name, _, _, _, _, _, _, _) => assert Look(a, ServiceNamed(name)) == Look(b, ServiceNamed(name));
    case Database(name, _, _) => assert Look(a, DatabaseNamed(name)) == Look(b, DatabaseNamed(name));
    case Bucket(name) => assert Look(a, BucketNamed(name)) == Look(b, BucketNamed(name));
  }

  lemma UndisturbedDepends(a: Stores, b: Stores, d: Desired, m: Manifest)
    requires Known(a, d) == Known(b, d)
    requires forall t :: t in Targets(m) ==> Look(a, t) == Look(b, t)
    ensures Undisturbed(a, d, m).results == Undisturbed(b, d, m).results
    ensures forall t :: t in Targets(m) ==> Look(Undisturbed(a, d, m).stores, t) == Look(Undisturbed(b, d, m).stores, t)
  {
    hide PutSecrets, SecretTargets, Invalid, Known;
    match m
    case Secret(name, value) =>
      OneSecret(name, value);
      SecretsDepend(a, b, [(name, value)]);
    case Secrets(secrets) => SecretsDepend(a, b, secrets);
    case Service(name, _, _, _, _, _, _, _) => assert Look(a, ServiceNamed(name)) == Look(b, ServiceNamed(name));
    case Database(name, _, _) => assert Look(a, DatabaseNamed(name)) == Look(b, DatabaseNamed(name));
    case Bucket(name) => assert Look(a, BucketNamed(name)) == Look(b, BucketNamed(name));
  }

  /** What a manifest does to its targets, and its results, depend only on those targets, on the known names and on the
      exception. */
  lemma OneDepends(a: Stores, b: Stores, d: Desired, m: Manifest, fault: Option<Fault>)
    requires Known(a, d) == Known(b, d)
    requires forall t :: t in Targets(m) ==> Look(a, t) == Look(b, t)
    ensures One(a, d, m, fault).results == One(b, d, m, fault).results
    ensures forall t :: t in Targets(m) ==> Look(One(a, d, m, fault).stores, t) == Look(One(b, d, m, fault).stores, t)
  {
    hide Undisturbed, Partly, Targets, Invalid, Known, Look;
    UndisturbedDepends(a, b, d, m);
    if fault.Some? && fault.value.AfterWrites? {
      PartlyDepends(a, b, m, fault.value.n);
    }
  }

  /** The known names do not change while the manifests are applied. */
  lemma OneKnown(s: Stores, ms: seq<Manifest>, m: Manifest, fault: Option<Fault>)
    requires m in ms
    ensures Known(One(s, DesiredBy(ms), m, fault).stores, DesiredBy(ms)) == Known(s, DesiredBy(ms))
  {
    hide Undisturbed, Partly, Invalid, Known;
    UndisturbedKnown(s, ms, m);
    if fault.Some? && fault.value.AfterWrites? {
      PartlyKnown(s, ms, m, fault.value.n);
    }
  }

  lemma PartlyKnown(s: Stores, ms: seq<Manifest>, m: Manifest, n: nat)
    requires m in ms
    ensures Known(Partly(s, m, n), DesiredBy(ms)) == Known(s, DesiredBy(ms))
  {
    hide SecretWrites;
    var d := DesiredBy(ms);
    match m
    case Secret(name, value) => WritesLocal(s, [(name, value)], n);
    case Secrets(secrets) => WritesLocal(s, secrets, n);
    case Service(name, _, _, _, _, _, _, _) => assert name in d.services;
    case Database(name, _, _) => assert name in d.databases;
    case Bucket(name) => assert name in d.buckets;
  }

  lemma UndisturbedKnown(s: Stores, ms: seq<Manifest>, m: Manifest)
    requires m in ms
    ensures Known(Undisturbed(s, DesiredBy(ms), m).stores, DesiredBy(ms)) == Known(s, DesiredBy(ms))
  {
    hide PutSecrets, Invalid;
    var d := DesiredBy(ms);
    match m
    case Secret(name, value) => SecretsOnly(s, [(name, value)]);
    case Secrets(secrets) => SecretsOnly(s, secrets);
    case Service(name, _, _, _, _, _, _, _) => assert name in d.services;
    case Database(name, _, _) => assert name in d.databases;
    case Bucket(name) => assert name in d.buckets;
  }

  lemma Twice(ms: seq<Manifest>, i: nat, j: nat)
    requires i < j < |ms| && ms[i] == ms[j]
    ensures multiset(ms)[ms[i]] >= 2
  {
    var front, back := ms[..j], ms[j..];
    assert ms == front + back;
    assert multiset(ms) == multiset(front) + multiset(back);
    assert front[i] == ms[i] && back[0] == ms[i];
    assert ms[i] in multiset(front) && ms[i] in multiset(back);
  }

  lemma DistinctIndexes(ms: seq<Manifest>, i: nat, j: nat)
    requires Distinct(ms) && i < j < |ms|
    ensures ms[i] != ms[j] && Targets(ms[i]) !! Targets(ms[j])
  {
    hide Targets;
    assert ms[i] in ms && ms[j] in ms;
    if ms[i] == ms[j] {
      Twice(ms, i, j);
    }
  }

  /** After the first `n` manifests, the targets of each read as if it had been applied alone to the initial stores, and
      everything else reads as before. */
  ghost predicate AppliedAlone(s: Stores, ms: seq<Manifest>, faults: Faults, n: nat)
    requires n <= |ms|
  {
    var d := DesiredBy(ms);
    var after := StoresAfter(s, d, ms, faults, n);
    && Known(after, d) == Known(s, d)
    && (forall t :: (forall i :: 0 <= i < n ==> t !in Targets(ms[i])) ==> Look(after, t) == Look(s, t))
    && (forall i, t :: 0 <= i < n && t in Targets(ms[i]) ==>
          Look(after, t) == Look(One(s, d, ms[i], FaultOf(faults, ms[i])).stores, t))
  }

  lemma Untouched(s: Stores, ms: seq<Manifest>, faults: Faults, n: nat)
    requires n < |ms| && Distinct(ms) && AppliedAlone(s, ms, faults, n)
    ensures forall t :: t in Targets(ms[n]) ==> Look(StoresAfter(s, DesiredBy(ms), ms, faults, n), t) == Look(s, t)
  {
    hide Targets, Distinct, Look, StoresAfter, Known;
    forall t | t in Targets(ms[n]) ensures Look(StoresAfter(s, DesiredBy(ms), ms, faults, n), t) == Look(s, t) {
      forall i | 0 <= i < n ensures t !in Targets(ms[i]) {
        DistinctIndexes(ms, i, n);
      }
    }
  }

  lemma {:induction false} ManifestsAreIndependent(s: Stores, ms: seq<Manifest>, faults: Faults, n: nat)
    requires n <= |ms| && Distinct(ms)
    ensures AppliedAlone(s, ms, faults, n)
  {
    hide Targets, Distinct, Look, One, Known, DesiredBy;
    if n > 0 {
      var d := DesiredBy(ms);
      var before, after := StoresAfter(s, d, ms, faults, n - 1), StoresAfter(s, d, ms, faults, n);
      var m := ms[n - 1];
      ManifestsAreIndependent(s, ms, faults, n - 1);
      Untouched(s, ms, faults, n - 1);
      OneKnown(before, ms, m, FaultOf(faults, m));
      OneDepends(before, s, d, m, FaultOf(faults, m));
      forall t | forall i :: 0 <= i < n ==> t !in Targets(ms[i]) ensures Look(after, t) == Look(s, t) {
        OneLocal(before, d, m, FaultOf(faults, m), t);
      }
      forall i, t | 0 <= i < n && t in Targets(ms[i])
        ensures Look(after, t) == Look(One(s, d, ms[i], FaultOf(faults, ms[i])).stores, t) {
        if i < n - 1 {
          DistinctIndexes(ms, i, n - 1);
          OneLocal(before, d, m, FaultOf(faults, m), t);
        }
      }
    }
  }

  /** Every manifest is answered as if it had been applied alone to the initial stores, next to the same desired names, and
      met by the same exception. */
  lemma ResultsAreIndependent(s: Stores, ms: seq<Manifest>, faults: Faults, i: nat)
    requires i < |ms| && Distinct(ms)
    ensures ResultsAt(s, ms, faults, i) == One(s, DesiredBy(ms), ms[i], FaultOf(faults, ms[i])).results
  {
    hide Targets, Distinct, Look, One, Known, DesiredBy, StoresAfter;
    ManifestsAreIndependent(s, ms, faults, i);
    Untouched(s, ms, faults, i);
    OneDepends(StoresAfter(s, DesiredBy(ms), ms, faults, i), s, DesiredBy(ms), ms[i], FaultOf(faults, ms[i]));
  }

  lemma SameManifests(a: seq<Manifest>, b: seq<Manifest>)
    requires multiset(a) == multiset(b)
    ensures forall m :: m in a <==> m in b
    ensures DesiredBy(a) == DesiredBy(b)
  {
    forall m ensures m in a <==> m in b {
      assert m in multiset(a) <==> m in multiset(b);
    }
  }

  /** The order of the manifests does not matter, if each meets the same exception or none: each gets the same results, and
      the final stores are the same. */
  lemma OrderIndependent(s: Stores, a: seq<Manifest>, b: seq<Manifest>, faults: Faults)
    requires multiset(a) == multiset(b) && Distinct(a)
    ensures Applied(s, a, faults) == Applied(s, b, faults)
    ensures forall i, j :: 0 <= i < |a| && 0 <= j < |b| && a[i] == b[j] ==>
              ResultsAt(s, a, faults, i) == ResultsAt(s, b, faults, j)
  {
    hide Targets, Look, One, Known, DesiredBy, StoresAfter, ResultsAt;
    SameManifests(a, b);
    assert Distinct(b);
    ManifestsAreIndependent(s, a, faults, |a|);
    ManifestsAreIndependent(s, b, faults, |b|);
    forall t ensures Look(Applied(s, a, faults), t) == Look(Applied(s, b, faults), t) {
      if i :| 0 <= i < |a| && t in Targets(a[i]) {
        assert a[i] in b;
        var j :| 0 <= j < |b| && b[j] == a[i];
        assert t in Targets(b[j]);
      } else {
        forall j | 0 <= j < |b| ensures t !in Targets(b[j]) {
          assert b[j] in a;
        }
      }
    }
    SameContents(Applied(s, a, faults), Applied(s, b, faults));
    forall i, j | 0 <= i < |a| && 0 <= j < |b| && a[i] == b[j]
      ensures ResultsAt(s, a, faults, i) == ResultsAt(s, b, faults, j) {
      ResultsAreIndependent(s, a, faults, i);
      ResultsAreIndependent(s, b, faults, j);
    }
  }

  // ---- References between resources ----

  predicate RefersInside(record: ServiceRecord, s: Stores) {
    && (forall n :: n in record.spec.buckets ==> n in s.buckets)
    && (forall n :: n in record.spec.databases ==> n in s.databases)
    && (forall n :: n in record.spec.callers ==> n in s.services)
  }

  predicate Closed(s: Stores) {
    forall n :: n in s.services ==> RefersInside(s.services[n], s)
  }

  /** The exception, if any, strikes after a write. */
  predicate Writes(faults: Faults, m: Manifest) {
    m !in faults || (faults[m].AfterWrites? && faults[m].n > 0)
  }

  /** The service manifest will be written. */
  predicate Accepted(s: Stores, ms: seq<Manifest>, faults: Faults, m: Manifest) {
    m.Service? && Invalid(m, Known(s, DesiredBy(ms))).None? && Writes(faults, m)
  }

  /** The name exists already or its manifest is written. */
  ghost predicate HasBucket(s: Stores, ms: seq<Manifest>, faults: Faults, n: string) {
    n in s.buckets || exists m :: m in ms && m.Bucket? && m.name == n && Writes(faults, m)
  }

  ghost predicate HasDatabase(s: Stores, ms: seq<Manifest>, faults: Faults, n: string) {
    n in s.databases || exists m :: m in ms && m.Database? && m.name == n && Writes(faults, m)
  }

  ghost predicate HasService(s: Stores, ms: seq<Manifest>, faults: Faults, n: string) {
    n in s.services || exists m :: m in ms && Accepted(s, ms, faults, m) && m.name == n
  }

  /** Everything that a written service names exists already or is itself written. */
  ghost predicate ReferencesWritten(s: Stores, ms: seq<Manifest>, faults: Faults) {
    forall m :: m in ms && Accepted(s, ms, faults, m) ==>
      && (forall n :: n in m.buckets ==> HasBucket(s, ms, faults, n))
      && (forall n :: n in m.databases ==> HasDatabase(s, ms, faults, n))
      && (forall n :: n in m.callers ==> HasService(s, ms, faults, n))
  }

  lemma ServiceAlone(s: Stores, ms: seq<Manifest>, faults: Faults, m: Manifest)
    requires m.Service?
    ensures Look(One(s, DesiredBy(ms), m, FaultOf(faults, m)).stores, ServiceNamed(m.name))
         == if Accepted(s, ms, faults, m) then Some(ServiceContent(ServiceAfter(s.services, m)))
            else Look(s, ServiceNamed(m.name))
  {
    hide Invalid, Known;
  }

  /** The services in the end: the written manifests' and the untouched initial ones. */
  lemma FinalServices(s: Stores, ms: seq<Manifest>, faults: Faults, n: string)
    requires Distinct(ms)
    ensures n in Applied(s, ms, faults).services <==> HasService(s, ms, faults, n)
    ensures forall m :: m in ms && Accepted(s, ms, faults, m) && m.name == n ==>
              n in Applied(s, ms, faults).services && Applied(s, ms, faults).services[n] == ServiceAfter(s.services, m)
    ensures n in Applied(s, ms, faults).services && (forall m :: m in ms && Accepted(s, ms, faults, m) ==> m.name != n) ==>
              n in s.services && Applied(s, ms, faults).services[n] == s.services[n]
  {
    hide One, Known, DesiredBy, StoresAfter, Invalid, ServiceAfter, Writes;
    var end, t := Applied(s, ms, faults), ServiceNamed(n);
    ManifestsAreIndependent(s, ms, faults, |ms|);
    if i :| 0 <= i < |ms| && t in Targets(ms[i]) {
      TargetIsService(ms[i], n);
      ServiceAlone(s, ms, faults, ms[i]);
      assert Look(end, t) == Look(One(s, DesiredBy(ms), ms[i], FaultOf(faults, ms[i])).stores, t);
      forall m | m in ms && Accepted(s, ms, faults, m) && m.name == n ensures m == ms[i] {
        assert t in Targets(m);
      }
    } else {
      assert Look(end, t) == Look(s, t);
      forall m | m in ms && Accepted(s, ms, faults, m) ensures m.name != n {
        var i :| 0 <= i < |ms| && ms[i] == m;
        assert t !in Targets(ms[i]);
      }
    }
  }

  lemma TargetIsService(m: Manifest, n: string)
    requires ServiceNamed(n) in Targets(m)
    ensures m.Service? && m.name == n
  {}

  /** The buckets in the end: a refused one is missing although it was asked for. */
  lemma FinalBuckets(s: Stores, ms: seq<Manifest>, faults: Faults, n: string)
    requires Distinct(ms)
    ensures n in Applied(s, ms, faults).buckets <==> HasBucket(s, ms, faults, n)
  {
    hide One, StoresAfter, Look, Writes;
    var end, t := Applied(s, ms, faults), BucketNamed(n);
    ManifestsAreIndependent(s, ms, faults, |ms|);
    LookBucket(s, n);
    LookBucket(end, n);
    if i :| 0 <= i < |ms| && t in Targets(ms[i]) {
      assert ms[i] == Bucket(n);
      BucketAlone(s, DesiredBy(ms), faults, n);
      LookBucket(One(s, DesiredBy(ms), ms[i], FaultOf(faults, ms[i])).stores, n);
      assert Look(end, t) == Look(One(s, DesiredBy(ms), ms[i], FaultOf(faults, ms[i])).stores, t);
    } else {
      assert Look(end, t) == Look(s, t);
      forall m | m in ms && m.Bucket? ensures m.name != n {
        var i :| 0 <= i < |ms| && ms[i] == m;
        assert t !in Targets(ms[i]);
      }
    }
  }

  lemma LookBucket(s: Stores, n: string)
    ensures Look(s, BucketNamed(n)).Some? <==> n in s.buckets
  {}

  lemma BucketAlone(s: Stores, d: Desired, faults: Faults, n: string)
    ensures n in One(s, d, Bucket(n), FaultOf(faults, Bucket(n))).stores.buckets
       <==> n in s.buckets || Writes(faults, Bucket(n))
  {}

  lemma FinalDatabases(s: Stores, ms: seq<Manifest>, faults: Faults, n: string)
    requires Distinct(ms)
    ensures n in Applied(s, ms, faults).databases <==> HasDatabase(s, ms, faults, n)
  {
    hide One, StoresAfter, Look, Writes;
    var end, t := Applied(s, ms, faults), DatabaseNamed(n);
    ManifestsAreIndependent(s, ms, faults, |ms|);
    LookDatabase(s, n);
    LookDatabase(end, n);
    if i :| 0 <= i < |ms| && t in Targets(ms[i]) {
      assert ms[i].Database? && ms[i].name == n;
      DatabaseAlone(s, DesiredBy(ms), faults, ms[i]);
      LookDatabase(One(s, DesiredBy(ms), ms[i], FaultOf(faults, ms[i])).stores, n);
      assert Look(end, t) == Look(One(s, DesiredBy(ms), ms[i], FaultOf(faults, ms[i])).stores, t);
      forall m | m in ms && m.Database? && m.name == n ensures m == ms[i] {
        assert t in Targets(m);
      }
    } else {
      assert Look(end, t) == Look(s, t);
      forall m | m in ms && m.Database? ensures m.name != n {
        var i :| 0 <= i < |ms| && ms[i] == m;
        assert t !in Targets(ms[i]);
      }
    }
  }

  lemma LookDatabase(s: Stores, n: string)
    ensures Look(s, DatabaseNamed(n)).Some? <==> n in s.databases
  {}

  lemma DatabaseAlone(s: Stores, d: Desired, faults: Faults, m: Manifest)
    requires m.Database?
    ensures m.name in One(s, d, m, FaultOf(faults, m)).stores.databases <==> m.name in s.databases || Writes(faults, m)
  {}

  /** Applying manifests to a closed store leaves it closed exactly when everything that a written service names exists
      already or is itself written: no bucket, database or caller whose own manifest was refused. */
  lemma StaysClosedIff(s: Stores, ms: seq<Manifest>, faults: Faults)
    requires Closed(s) && Distinct(ms)
    ensures Closed(Applied(s, ms, faults)) <==> ReferencesWritten(s, ms, faults)
  {
    hide Invalid, Applied, Known, DesiredBy, Distinct, HasBucket, HasDatabase, HasService;
    var end := Applied(s, ms, faults);
    forall n
      ensures n in end.buckets <==> HasBucket(s, ms, faults, n)
      ensures n in end.databases <==> HasDatabase(s, ms, faults, n)
      ensures n in end.services <==> HasService(s, ms, faults, n) {
      FinalBuckets(s, ms, faults, n);
      FinalDatabases(s, ms, faults, n);
      FinalServices(s, ms, faults, n);
    }
    if ReferencesWritten(s, ms, faults) {
      forall n | n in end.services ensures RefersInside(end.services[n], end) {
        ServiceRefersInside(s, ms, faults, n);
      }
    }
    if Closed(end) {
      forall m | m in ms && Accepted(s, ms, faults, m)
        ensures forall n :: n in m.buckets ==> HasBucket(s, ms, faults, n)
        ensures forall n :: n in m.databases ==> HasDatabase(s, ms, faults, n)
        ensures forall n :: n in m.callers ==> HasService(s, ms, faults, n) {
        FinalServices(s, ms, faults, m.name);
        assert RefersInside(end.services[m.name], end);
      }
    }
  }

  lemma ServiceRefersInside(s: Stores, ms: seq<Manifest>, faults: Faults, n: string)
    requires Closed(s) && Distinct(ms) && ReferencesWritten(s, ms, faults) && n in Applied(s, ms, faults).services
    requires forall x :: x in Applied(s, ms, faults).buckets <==> HasBucket(s, ms, faults, x)
    requires forall x :: x in Applied(s, ms, faults).databases <==> HasDatabase(s, ms, faults, x)
    requires forall x :: x in Applied(s, ms, faults).services <==> HasService(s, ms, faults, x)
    ensures RefersInside(Applied(s, ms, faults).services[n], Applied(s, ms, faults))
  {
    hide Invalid, Applied, Known, DesiredBy, Distinct, Accepted, HasBucket, HasDatabase;
    var end := Applied(s, ms, faults);
    forall m | m in ms && Accepted(s, ms, faults, m) ensures m.Service? {
      AcceptedIsService(s, ms, faults, m);
    }
    FinalServices(s, ms, faults, n);
    if m :| m in ms && Accepted(s, ms, faults, m) && m.name == n {
      assert end.services[n] == ServiceAfter(s.services, m);
      assert end.services[n].spec == SpecOf(m);
    } else {
      assert end.services[n] == s.services[n] && RefersInside(s.services[n], s);
      forall x ensures x in s.buckets ==> HasBucket(s, ms, faults, x)
               ensures x in s.databases ==> HasDatabase(s, ms, faults, x) {
        ExistingStays(s, ms, faults, x);
      }
    }
  }

  lemma AcceptedIsService(s: Stores, ms: seq<Manifest>, faults: Faults, m: Manifest)
    requires Accepted(s, ms, faults, m)
    ensures m.Service?
  {}

  lemma ExistingStays(s: Stores, ms: seq<Manifest>, faults: Faults, n: string)
    ensures n in s.buckets ==> HasBucket(s, ms, faults, n)
    ensures n in s.databases ==> HasDatabase(s, ms, faults, n)
  {}

  predicate IsError(r: Result) {
    r.action.Error?
  }

  ghost predicate NoErrors(s: Stores, ms: seq<Manifest>, faults: Faults) {
    forall i, r :: 0 <= i < |ms| && r in ResultsAt(s, ms, faults, i) ==> !IsError(r)
  }

  /** An exception always shows as an error. */
  lemma NoErrorNoFault(s: Stores, d: Desired, m: Manifest, fault: Option<Fault>)
    requires forall r :: r in One(s, d, m, fault).results ==> !IsError(r)
    ensures fault.None? && (m.Service? ==> Invalid(m, Known(s, d)).None?)
  {
    hide Invalid, Known, Partly, PutSecrets;
    var results := One(s, d, m, fault).results;
    if fault.Some? || m.Service? {
      assert |results| == 1 && results[0] in results;
    }
  }

  /** If no manifest is answered with an error, a closed store stays closed. */
  lemma NoErrorsStaysClosed(s: Stores, ms: seq<Manifest>, faults: Faults)
    requires Closed(s) && Distinct(ms) && NoErrors(s, ms, faults)
    ensures Closed(Applied(s, ms, faults))
  {
    hide Invalid, Closed, Distinct, Applied, One, ResultsAt, Known, DesiredBy;
    forall m | m in ms ensures m !in faults && (m.Service? ==> Accepted(s, ms, faults, m)) {
      var i :| 0 <= i < |ms| && ms[i] == m;
      ResultsAreIndependent(s, ms, faults, i);
      NoErrorNoFault(s, DesiredBy(ms), m, FaultOf(faults, m));
    }
    forall m | m in ms && Accepted(s, ms, faults, m)
      ensures forall n :: n in m.buckets ==> HasBucket(s, ms, faults, n)
      ensures forall n :: n in m.databases ==> HasDatabase(s, ms, faults, n)
      ensures forall n :: n in m.callers ==> HasService(s, ms, faults, n) {
      AcceptedRefers(s, ms, faults, m);
    }
    StaysClosedIff(s, ms, faults);
  }

  /** What a valid service names exists already or is asked for. */
  lemma AcceptedRefers(s: Stores, ms: seq<Manifest>, faults: Faults, m: Manifest)
    requires Accepted(s, ms, faults, m)
    ensures forall n :: n in m.buckets ==> n in s.buckets || exists x :: x in ms && x.Bucket? && x.name == n
    ensures forall n :: n in m.databases ==> n in s.databases || exists x :: x in ms && x.Database? && x.name == n
    ensures forall n :: n in m.callers ==> n in s.services || exists x :: x in ms && x.Service? && x.name == n
  {}

  /** With an error the store may open up: a service that names a refused one as its caller is applied all the same. */
  lemma RefusedCallerDangles()
    ensures var s := Stores(map[], map[], map[], {});
            var ms := [Service("a", "img", 1, map[], map[], [], [], ["b"]),
                       Service("b", "img", 1, map[], map[], ["missing"], [], [])];
            Closed(s) && Distinct(ms) && !Closed(Applied(s, ms, map[]))
  {
    var s := Stores(map[], map[], map[], {});
    var a := Service("a", "img", 1, map[], map[], [], [], ["b"]);
    var b := Service("b", "img", 1, map[], map[], ["missing"], [], []);
    var ms := [a, b];
    var d := DesiredBy(ms);
    assert b in ms;
    assert "b" in d.services;
    assert ["b"][1..] == [];
    assert Invalid(a, Known(s, d)) == None;
    assert Invalid(b, Known(s, d)) == Some(MissingBucket("missing"));
    assert multiset(ms) == multiset{a, b};
    StaysClosedIff(s, ms, map[]);
    assert a in ms && Accepted(s, ms, map[], a) && "b" in a.callers;
    assert forall other :: other in ms && Accepted(s, ms, map[], other) ==> other == a;
    assert !HasService(s, ms, map[], "b");
  }

  /** So is a service bound to a bucket that could not be created. */
  lemma RefusedBucketDangles(n: string)
    ensures var s := Stores(map[], map[], map[], {});
            var ms := [Bucket(n), Service("a", "img", 1, map[], map[], [n], [], [])];
            Closed(s) && Distinct(ms) && !Closed(Applied(s, ms, map[Bucket(n) := AfterWrites(0)]))
  {
    var s := Stores(map[], map[], map[], {});
    var a := Service("a", "img", 1, map[], map[], [n], [], []);
    var ms, faults := [Bucket(n), a], map[Bucket(n) := AfterWrites(0)];
    assert Bucket(n) in ms;
    assert [n][1..] == [] && n in DesiredBy(ms).buckets;
    assert Invalid(a, Known(s, DesiredBy(ms))) == None;
    assert multiset(ms) == multiset{Bucket(n), a};
    StaysClosedIff(s, ms, faults);
    assert a in ms && Accepted(s, ms, faults, a) && n in a.buckets;
    assert !HasBucket(s, ms, faults, n);
  }
}
