/** The proxy's request counters: recorded in memory, flushed to Redis, read back by the autoscaler's collector. */
module ProxyMetrics {
  import opened Wrappers
  import Headers
  import Autoscaling

  const BUCKET_SECONDS: int := 10

  /** A finished request. An empty service or failure reason is a missing one. */
  datatype Request = Request(service: string, status: int, failure: string, duration: real, time: real)

  datatype Kind =
    | Total | Rps | ByStatus | ByService | Failures
    | TsRequests | TsStatus | TsLatencySum | TsLatencyCount | TsErrors

  /** One counter in Redis: a key, given by its kind and time bucket, and a field of it. Plain keys have bucket 0, and the
      total has an empty field. */
  datatype Cell = Cell(kind: Kind, bucket: int, field: string)

  type Counts = map<string, int>
  type Series = map<int, Counts>

  function Count<K>(counts: map<K, int>, key: K): int {
    if key in counts then counts[key] else 0
  }

  function Bump<K>(counts: map<K, int>, key: K, amount: int): map<K, int> {
    counts[key := Count(counts, key) + amount]
  }

  function SeriesCount(series: Series, bucket: int, field: string): int {
    if bucket in series then Count(series[bucket], field) else 0
  }

  function SeriesBump(series: Series, bucket: int, field: string, amount: int): Series {
    series[bucket := Bump(if bucket in series then series[bucket] else map[], field, amount)]
  }

  /** What the proxy holds, or what one flush took. */
  datatype Buffer = Buffer(
    total: int, byService: Counts, byStatus: Counts, failures: Counts, lastDuration: map<string, real>, rps: Counts,
    tsRequests: Series, tsStatus: Series, tsLatencySum: Series, tsLatencyCount: Series, tsErrors: Series)

  const EMPTY: Buffer := Buffer(0, map[], map[], map[], map[], map[], map[], map[], map[], map[], map[])

  predicate Timed(kind: Kind) {
    kind.TsRequests? || kind.TsStatus? || kind.TsLatencySum? || kind.TsLatencyCount? || kind.TsErrors?
  }

  function Value(b: Buffer, c: Cell): int {
    match c.kind
    case Total => if c.bucket == 0 && c.field == "" then b.total else 0
    case Rps => if c.bucket == 0 then Count(b.rps, c.field) else 0
    case ByStatus => if c.bucket == 0 then Count(b.byStatus, c.field) else 0
    case ByService => if c.bucket == 0 then Count(b.byService, c.field) else 0
    case Failures => if c.bucket == 0 then Count(b.failures, c.field) else 0
    case TsRequests => SeriesCount(b.tsRequests, c.bucket, c.field)
    case TsStatus => SeriesCount(b.tsStatus, c.bucket, c.field)
    case TsLatencySum => SeriesCount(b.tsLatencySum, c.bucket, c.field)
    case TsLatencyCount => SeriesCount(b.tsLatencyCount, c.bucket, c.field)
    case TsErrors => SeriesCount(b.tsErrors, c.bucket, c.field)
  }

  function BucketOf(time: real): int {
    (time / BUCKET_SECONDS as real).Floor * BUCKET_SECONDS
  }

  /** `int(duration_ms * 100)`, which truncates toward zero. */
  function Hundredths(duration: real): int {
    if duration >= 0.0 then (duration * 100.0).Floor else -((-duration * 100.0).Floor)
  }

  function SeriesName(r: Request): string {
    if r.service != "" then r.service else "__unknown__"
  }

  /** How much one request adds to a counter. */
  function Contribution(r: Request, c: Cell): int {
    var timed := c.bucket == BucketOf(r.time);
    match c.kind
    case Total => if c.bucket == 0 && c.field == "" then 1 else 0
    case Rps => if c.bucket == 0 && r.service != "" && c.field == r.service then 1 else 0
    case ByStatus => if c.bucket == 0 && c.field == Headers.Decimal(r.status) then 1 else 0
    case ByService => if c.bucket == 0 && r.service != "" && c.field == r.service then 1 else 0
    case Failures => if c.bucket == 0 && r.failure != "" && c.field == r.failure then 1 else 0
    case TsRequests => if timed && c.field == SeriesName(r) then 1 else 0
    case TsStatus => if timed && c.field == Headers.Decimal(r.status) then 1 else 0
    case TsLatencySum => if timed && c.field == SeriesName(r) then Hundredths(r.duration) else 0
    case TsLatencyCount => if timed && c.field == SeriesName(r) then 1 else 0
    case TsErrors => if timed && r.status >= 500 && c.field == SeriesName(r) then 1 else 0
  }

  /** What a request contributes, in its own fields. A bucket is the multiple of ten seconds at or before a time. */
  lemma ContributionMeans(r: Request, c: Cell)
    ensures var n := Contribution(r, c);
            var now := c.bucket % 10 == 0 && c.bucket as real <= r.time < c.bucket as real + 10.0;
            var series := c.field == if r.service == "" then "__unknown__" else r.service;
            var status := c.field == Headers.Decimal(r.status);
            match c.kind
            case Total => n == if c.bucket == 0 && c.field == "" then 1 else 0
            case Rps => n == if c.bucket == 0 && c.field != "" && c.field == r.service then 1 else 0
            case ByStatus => n == if c.bucket == 0 && status then 1 else 0
            case ByService => n == if c.bucket == 0 && c.field != "" && c.field == r.service then 1 else 0
            case Failures => n == if c.bucket == 0 && c.field != "" && c.field == r.failure then 1 else 0
            case TsRequests => n == if now && series then 1 else 0
            case TsStatus => n == if now && status then 1 else 0
            case TsLatencySum => if now && series then Truncates(n, r.duration * 100.0) else n == 0
            case TsLatencyCount => n == if now && series then 1 else 0
            case TsErrors => n == if now && series && r.status >= 500 then 1 else 0
  {
    hide Headers.Decimal, BucketOf, Hundredths;
    BucketMeans(r.time, c.bucket);
    HundredthsMean(r.duration);
  }

  /** `n` is `x` without its fraction. */
  predicate Truncates(n: int, x: real) {
    if x >= 0.0 then n as real <= x < n as real + 1.0 else n as real - 1.0 < x <= n as real
  }

  lemma HundredthsMean(duration: real)
    ensures Truncates(Hundredths(duration), duration * 100.0)
  {}

  lemma BucketMeans(time: real, bucket: int)
    ensures bucket == BucketOf(time) <==> bucket % 10 == 0 && bucket as real <= time < bucket as real + 10.0
  {
    var b := BucketOf(time);
    var q := (time / 10.0).Floor;
    assert b == q * 10;
    assert q as real <= time / 10.0 < q as real + 1.0;
    assert b as real <= time < b as real + 10.0;
    if bucket % 10 == 0 && bucket as real <= time < bucket as real + 10.0 {
      assert -10 < bucket - b < 10;
      assert (bucket - b) % 10 == 0;
    }
  }

  /** A Redis server, as far as these counters go. */
  class Redis {
    var data: map<Cell, int>
    var durations: map<string, real>

    constructor ()
      ensures data == map[] && durations == map[]
    {
      data, durations := map[], map[];
    }
  }

  datatype Increment = Increment(cell: Cell, amount: int)

  /** What a pipeline of increments adds to one counter. */
  function Effect(pipe: seq<Increment>, c: Cell): int {
    if pipe == [] then 0
    else Effect(pipe[..|pipe| - 1], c) + if pipe[|pipe| - 1].cell == c then pipe[|pipe| - 1].amount else 0
  }

  function Executed(data: map<Cell, int>, pipe: seq<Increment>): map<Cell, int> {
    if pipe == [] then data
    else Bump(Executed(data, pipe[..|pipe| - 1]), pipe[|pipe| - 1].cell, pipe[|pipe| - 1].amount)
  }

  lemma {:induction false} ExecutedAdds(data: map<Cell, int>, pipe: seq<Increment>, c: Cell)
    ensures Count(Executed(data, pipe), c) == Count(data, c) + Effect(pipe, c)
  {
    if pipe != [] {
      ExecutedAdds(data, pipe[..|pipe| - 1], c);
    }
  }

  lemma EffectSnoc(pipe: seq<Increment>, i: Increment, c: Cell)
    ensures Effect(pipe + [i], c) == Effect(pipe, c) + if i.cell == c then i.amount else 0
  {
    assert (pipe + [i])[..|pipe|] == pipe;
  }

  /** Queue an increment for every field of a counter group, in any order. */
  method QueueCounts(pipe: seq<Increment>, counts: Counts, kind: Kind, bucket: int) returns (out: seq<Increment>)
    ensures forall c: Cell :: Effect(out, c)
              == Effect(pipe, c) + if c.kind == kind && c.bucket == bucket then Count(counts, c.field) else 0
  {
    hide Effect;
    out := pipe;
    var left := counts.Keys;
    while left != {}
      invariant left <= counts.Keys
      invariant forall c: Cell ::
          Effect(out, c) == Effect(pipe, c)
                            + if c.kind == kind && c.bucket == bucket && c.field !in left then Count(counts, c.field)
                              else 0
      decreases |left|
    {
      var field :| field in left;
      ghost var before := out;
      var increment := Increment(Cell(kind, bucket, field), counts[field]);
      out := out + [increment];
      forall c: Cell ensures Effect(out, c) == Effect(before, c) + if c == increment.cell then counts[field] else 0 {
        EffectSnoc(before, increment, c);
      }
      left := left - {field};
    }
  }

  lemma EmptyOrNot(buckets: set<int>)
    ensures buckets == {} || exists b: int :: b in buckets
  {
    if forall b: int :: b !in buckets {
      assert buckets == {};
    }
  }

  method QueueSeries(pipe: seq<Increment>, series: Series, kind: Kind) returns (out: seq<Increment>)
    ensures forall c: Cell :: Effect(out, c)
              == Effect(pipe, c) + if c.kind == kind then SeriesCount(series, c.bucket, c.field) else 0
  {
    hide Effect;
    out := pipe;
    var left: set<int> := series.Keys;
    while left != {}
      invariant left <= series.Keys
      invariant forall c: Cell ::
          Effect(out, c) == Effect(pipe, c)
                            + if c.kind == kind && c.bucket !in left then SeriesCount(series, c.bucket, c.field) else 0
      decreases |left|
    {
      EmptyOrNot(left);
      var bucket: int :| bucket in left;
      out := QueueCounts(out, series[bucket], kind, bucket);
      left := left - {bucket};
    }
  }

  /** The five time series. */
  method QueueAllSeries(pipe: seq<Increment>, b: Buffer) returns (out: seq<Increment>)
    ensures forall c: Cell :: Effect(out, c) == Effect(pipe, c) + if Timed(c.kind) then Value(b, c) else 0
  {
    hide Effect, SeriesCount;
    out := QueueSeries(pipe, b.tsRequests, TsRequests);
    out := QueueSeries(out, b.tsStatus, TsStatus);
    out := QueueSeries(out, b.tsLatencySum, TsLatencySum);
    out := QueueSeries(out, b.tsLatencyCount, TsLatencyCount);
    out := QueueSeries(out, b.tsErrors, TsErrors);
  }

  /** The pipeline of one flush adds to every counter what the flush took. */
  method Pipeline(b: Buffer) returns (pipe: seq<Increment>)
    ensures forall c: Cell :: Effect(pipe, c) == Value(b, c)
  {
    hide Effect;
    NoEffect();
    pipe := [Increment(Cell(Total, 0, ""), b.total)];
    forall c: Cell ensures Effect(pipe, c) == if c == Cell(Total, 0, "") then b.total else 0 {
      EffectSnoc([], pipe[0], c);
      assert [] + [pipe[0]] == pipe;
    }
    hide Count, SeriesCount;
    pipe := QueueCounts(pipe, b.rps, Rps, 0);
    pipe := QueueCounts(pipe, b.byStatus, ByStatus, 0);
    pipe := QueueCounts(pipe, b.byService, ByService, 0);
    pipe := QueueAllSeries(pipe, b);
    pipe := QueueCounts(pipe, b.failures, Failures, 0);
  }

  lemma NoEffect()
    ensures forall c: Cell :: Effect([], c) == 0
  {}

  /** `_ProxyMetrics.record`, on the buffer. */
  function Recorded(b: Buffer, r: Request): Buffer {
    var bucket, name, status := BucketOf(r.time), SeriesName(r), Headers.Decimal(r.status);
    Buffer(
      b.total + 1,
      if r.service != "" then Bump(b.byService, r.service, 1) else b.byService,
      Bump(b.byStatus, status, 1),
      if r.failure != "" then Bump(b.failures, r.failure, 1) else b.failures,
      if r.service != "" then b.lastDuration[r.service := r.duration] else b.lastDuration,
      if r.service != "" then Bump(b.rps, r.service, 1) else b.rps,
      SeriesBump(b.tsRequests, bucket, name, 1),
      SeriesBump(b.tsStatus, bucket, status, 1),
      SeriesBump(b.tsLatencySum, bucket, name, Hundredths(r.duration)),
      SeriesBump(b.tsLatencyCount, bucket, name, 1),
      if r.status >= 500 then SeriesBump(b.tsErrors, bucket, name, 1) else b.tsErrors)
  }

  lemma Bumped<K>(counts: map<K, int>, key: K, amount: int, other: K)
    ensures Count(Bump(counts, key, amount), other) == Count(counts, other) + if other == key then amount else 0
  {}

  lemma SeriesBumped(series: Series, bucket: int, field: string, amount: int, c: Cell)
    ensures SeriesCount(SeriesBump(series, bucket, field, amount), c.bucket, c.field)
         == SeriesCount(series, c.bucket, c.field) + if c.bucket == bucket && c.field == field then amount else 0
  {}

  /** Recording adds to every counter what the request contributes to it. */
  lemma RecordedAdds(b: Buffer, r: Request, c: Cell)
    ensures Value(Recorded(b, r), c) == Value(b, c) + Contribution(r, c)
  {
    if Timed(c.kind) {
      SeriesRecordedAdds(b, r, c);
    } else {
      PlainRecordedAdds(b, r, c);
    }
  }

  lemma RecordedAddsAll(b: Buffer, r: Request)
    ensures forall c: Cell :: Value(Recorded(b, r), c) == Value(b, c) + Contribution(r, c)
  {
    hide *;
    forall c: Cell ensures Value(Recorded(b, r), c) == Value(b, c) + Contribution(r, c) {
      RecordedAdds(b, r, c);
    }
  }

  lemma PlainRecordedAdds(b: Buffer, r: Request, c: Cell)
    requires !Timed(c.kind)
    ensures Value(Recorded(b, r), c) == Value(b, c) + Contribution(r, c)
  {
    hide BucketOf, Headers.Decimal, Hundredths, SeriesName, Bump, SeriesBump, Count, SeriesCount;
    match c.kind {
      case Total =>
      case Rps => Bumped(b.rps, r.service, 1, c.field);
      case ByStatus => Bumped(b.byStatus, Headers.Decimal(r.status), 1, c.field);
      case ByService => Bumped(b.byService, r.service, 1, c.field);
      case Failures => Bumped(b.failures, r.failure, 1, c.field);
      case _ =>
    }
  }

  lemma SeriesRecordedAdds(b: Buffer, r: Request, c: Cell)
    requires Timed(c.kind)
    ensures Value(Recorded(b, r), c) == Value(b, c) + Contribution(r, c)
  {
    hide Recorded, BucketOf, Headers.Decimal, Hundredths, SeriesName, SeriesCount;
    var bucket, name := BucketOf(r.time), SeriesName(r);
    RecordedSeries(b, r);
    hide SeriesBump;
    match c.kind {
      case TsRequests => SeriesBumped(b.tsRequests, bucket, name, 1, c);
      case TsStatus => SeriesBumped(b.tsStatus, bucket, Headers.Decimal(r.status), 1, c);
      case TsLatencySum => SeriesBumped(b.tsLatencySum, bucket, name, Hundredths(r.duration), c);
      case TsLatencyCount => SeriesBumped(b.tsLatencyCount, bucket, name, 1, c);
      case TsErrors => SeriesBumped(b.tsErrors, bucket, name, 1, c);
      case _ =>
    }
  }

  lemma RecordedSeries(b: Buffer, r: Request)
    ensures var bucket, name, after := BucketOf(r.time), SeriesName(r), Recorded(b, r);
            && after.tsRequests == SeriesBump(b.tsRequests, bucket, name, 1)
            && after.tsStatus == SeriesBump(b.tsStatus, bucket, Headers.Decimal(r.status), 1)
            && after.tsLatencySum == SeriesBump(b.tsLatencySum, bucket, name, Hundredths(r.duration))
            && after.tsLatencyCount == SeriesBump(b.tsLatencyCount, bucket, name, 1)
            && after.tsErrors == if r.status >= 500 then SeriesBump(b.tsErrors, bucket, name, 1) else b.tsErrors
  {
    hide BucketOf, SeriesName, SeriesBump, Headers.Decimal, Hundredths, Bump;
  }

  class Metrics {
    var total: int
    var byService: Counts
    var byStatus: Counts
    var failures: Counts
    var lastDuration: map<string, real>
    var rps: Counts
    var tsRequests: Series
    var tsStatus: Series
    var tsLatencySum: Series
    var tsLatencyCount: Series
    var tsErrors: Series

    function State(): Buffer
      reads this
    {
      Buffer(total, byService, byStatus, failures, lastDuration, rps,
             tsRequests, tsStatus, tsLatencySum, tsLatencyCount, tsErrors)
    }

    constructor ()
      ensures State() == EMPTY
    {
      total, byService, byStatus, failures, lastDuration, rps := 0, map[], map[], map[], map[], map[];
      tsRequests, tsStatus, tsLatencySum, tsLatencyCount, tsErrors := map[], map[], map[], map[], map[];
    }

    method Record(r: Request)
      modifies this
      ensures State() == Recorded(old(State()), r)
      ensures forall c: Cell :: Value(State(), c) == Value(old(State()), c) + Contribution(r, c)
      ensures lastDuration == if r.service == "" then old(lastDuration) else old(lastDuration)[r.service := r.duration]
    {
      hide BucketOf, Headers.Decimal, Hundredths, SeriesName, Bump, SeriesBump, Value, Contribution;
      RecordPlain(r);
      RecordSeries(r);
      RecordedAddsAll(old(State()), r);
    }

    /** The plain counters of a record. */
    method RecordPlain(r: Request)
      modifies this`total, this`byStatus, this`byService, this`lastDuration, this`rps, this`failures
      ensures total == old(total) + 1
      ensures byStatus == Bump(old(byStatus), Headers.Decimal(r.status), 1)
      ensures byService == if r.service != "" then Bump(old(byService), r.service, 1) else old(byService)
      ensures lastDuration == if r.service != "" then old(lastDuration)[r.service := r.duration] else old(lastDuration)
      ensures rps == if r.service != "" then Bump(old(rps), r.service, 1) else old(rps)
      ensures failures == if r.failure != "" then Bump(old(failures), r.failure, 1) else old(failures)
    {
      hide *;
      total := total + 1;
      byStatus := Bump(byStatus, Headers.Decimal(r.status), 1);
      if r.service != "" {
        byService := Bump(byService, r.service, 1);
        lastDuration := lastDuration[r.service := r.duration];
        rps := Bump(rps, r.service, 1);
      }
      if r.failure != "" {
        failures := Bump(failures, r.failure, 1);
      }
    }

    /** Its time series. */
    method RecordSeries(r: Request)
      modifies this`tsRequests, this`tsStatus, this`tsLatencySum, this`tsLatencyCount, this`tsErrors
      ensures var bucket, name, status := BucketOf(r.time), SeriesName(r), Headers.Decimal(r.status);
              && tsRequests == SeriesBump(old(tsRequests), bucket, name, 1)
              && tsStatus == SeriesBump(old(tsStatus), bucket, status, 1)
              && tsLatencySum == SeriesBump(old(tsLatencySum), bucket, name, Hundredths(r.duration))
              && tsLatencyCount == SeriesBump(old(tsLatencyCount), bucket, name, 1)
              && tsErrors == if r.status >= 500 then SeriesBump(old(tsErrors), bucket, name, 1) else old(tsErrors)
    {
      hide *;
      var bucket, name, status := BucketOf(r.time), SeriesName(r), Headers.Decimal(r.status);
      tsRequests := SeriesBump(tsRequests, bucket, name, 1);
      tsStatus := SeriesBump(tsStatus, bucket, status, 1);
      tsLatencySum := SeriesBump(tsLatencySum, bucket, name, Hundredths(r.duration));
      tsLatencyCount := SeriesBump(tsLatencyCount, bucket, name, 1);
      if r.status >= 500 {
        tsErrors := SeriesBump(tsErrors, bucket, name, 1);
      }
    }

    /** The part of a flush that runs under the lock. */
    method Take() returns (taken: Buffer)
      modifies this
      ensures taken == old(State()) && State() == EMPTY
    {
      taken := State();
      Clear();
    }

    method Clear()
      modifies this
      ensures State() == EMPTY
    {
      total, byService, byStatus, failures, lastDuration, rps := 0, map[], map[], map[], map[], map[];
      tsRequests, tsStatus, tsLatencySum, tsLatencyCount, tsErrors := map[], map[], map[], map[], map[];
    }

    /** A whole flush with nothing recorded in the middle of it. */
    method FlushTo(redis: Redis)
      requires Counting(State())
      modifies this, redis
      ensures State() == EMPTY
      ensures forall c: Cell :: Count(redis.data, c) == Count(old(redis.data), c) + Value(old(State()), c)
      ensures redis.durations == old(redis.durations) + old(lastDuration)
    {
      var taken := Take();
      if taken.total == 0 {
        return;
      }
      var pipe := Pipeline(taken);
      redis.data := Executed(redis.data, pipe);
      redis.durations := redis.durations + taken.lastDuration;
      forall c: Cell ensures Count(redis.data, c) == Count(old(redis.data), c) + Value(taken, c) {
        ExecutedAdds(old(redis.data), pipe, c);
      }
    }
  }

  /** The total tells whether anything was recorded at all. */
  predicate Counting(b: Buffer) {
    b.total >= 0 && (b.total == 0 ==> b == EMPTY)
  }

  lemma NothingCounted(c: Cell)
    ensures Value(EMPTY, c) == 0
  {}

  // ---- The whole pipeline, from request to autoscaler ----

  datatype Event =
    | Record(request: Request)
    | Take                        // the locked part of a flush
    | Execute(i: nat)             // one pipeline reaches Redis
    | Collect(service: string)    // the autoscaler's collector reads a service's counter

  datatype System = System(
    buffer: Buffer, inFlight: seq<Buffer>, redis: map<Cell, int>, recorded: seq<Request>,
    collected: seq<Autoscaling.Collection>)

  const FRESH: System := System(EMPTY, [], map[], [], [])

  function RpsCell(service: string): Cell {
    Cell(Rps, 0, service)
  }

  /** A pipeline for `b` has run. */
  ghost predicate Flushed(before: map<Cell, int>, after: map<Cell, int>, b: Buffer) {
    forall c: Cell :: Count(after, c) == Count(before, c) + Value(b, c)
  }

  ghost predicate Steps(s: System, e: Event, next: System) {
    match e
    case Record(r) => next == s.(buffer := Recorded(s.buffer, r), recorded := s.recorded + [r])
    case Take =>
      next == s.(buffer := EMPTY, inFlight := if s.buffer.total == 0 then s.inFlight else s.inFlight + [s.buffer])
    case Execute(i) =>
      && i < |s.inFlight|
      && Flushed(s.redis, next.redis, s.inFlight[i])
      && next == s.(redis := next.redis, inFlight := s.inFlight[..i] + s.inFlight[i + 1..])
    case Collect(service) =>
      next == s.(collected := s.collected + [Autoscaling.Collection(service, Count(s.redis, RpsCell(service)))])
  }

  /** A run: the states passed through, one more than the events. */
  ghost predicate IsRun(states: seq<System>, events: seq<Event>) {
    && |states| == |events| + 1
    && states[0] == FRESH
    && forall i :: 0 <= i < |events| ==> Steps(states[i], events[i], states[i + 1])
  }

  function InFlight(buffers: seq<Buffer>, c: Cell): int {
    if buffers == [] then 0 else InFlight(buffers[..|buffers| - 1], c) + Value(buffers[|buffers| - 1], c)
  }

  function Demand(requests: seq<Request>, c: Cell): int {
    if requests == [] then 0
    else Demand(requests[..|requests| - 1], c) + Contribution(requests[|requests| - 1], c)
  }

  ghost predicate Conserved(s: System) {
    && Counting(s.buffer)
    && forall c: Cell :: Demand(s.recorded, c) == Count(s.redis, c) + InFlight(s.inFlight, c) + Value(s.buffer, c)
  }

  lemma {:induction false} InFlightWithout(buffers: seq<Buffer>, i: nat, c: Cell)
    requires i < |buffers|
    ensures InFlight(buffers[..i] + buffers[i + 1..], c) == InFlight(buffers, c) - Value(buffers[i], c)
  {
    hide Value;
    var n := |buffers| - 1;
    var left := buffers[..i] + buffers[i + 1..];
    if i == n {
      assert left == buffers[..n];
    } else {
      InFlightWithout(buffers[..n], i, c);
      assert left[..n - 1] == buffers[..n][..i] + buffers[..n][i + 1..];
      assert left[n - 1] == buffers[n];
    }
  }

  lemma InFlightSnoc(buffers: seq<Buffer>, b: Buffer, c: Cell)
    ensures InFlight(buffers + [b], c) == InFlight(buffers, c) + Value(b, c)
  {
    hide Value;
    assert (buffers + [b])[..|buffers|] == buffers;
  }

  lemma DemandSnoc(requests: seq<Request>, r: Request, c: Cell)
    ensures Demand(requests + [r], c) == Demand(requests, c) + Contribution(r, c)
  {
    hide Contribution;
    assert (requests + [r])[..|requests|] == requests;
  }

  lemma StepConserves(s: System, e: Event, next: System)
    requires Conserved(s) && Steps(s, e, next)
    ensures Conserved(next)
  {
    hide Value, Contribution, Recorded, InFlight, Demand;
    if e.Record? {
      RecordedCounts(s.buffer, e.request);
    }
    forall c: Cell
      ensures Demand(next.recorded, c) == Count(next.redis, c) + InFlight(next.inFlight, c) + Value(next.buffer, c)
    {
      match e {
        case Record(r) =>
          RecordedAdds(s.buffer, r, c);
          DemandSnoc(s.recorded, r, c);
        case Take =>
          NothingCounted(c);
          InFlightSnoc(s.inFlight, s.buffer, c);
        case Execute(i) =>
          InFlightWithout(s.inFlight, i, c);
        case Collect(_) =>
      }
    }
  }

  lemma RecordedCounts(b: Buffer, r: Request)
    requires Counting(b)
    ensures Counting(Recorded(b, r))
  {}

  lemma StartConserves()
    ensures Conserved(FRESH)
  {
    forall c: Cell ensures Demand([], c) == Count(map[], c) + InFlight([], c) + Value(EMPTY, c) {
      NothingCounted(c);
    }
  }

  /** For every interleaving of records, flushes and pipeline executions, whatever their order: each counter's requests
      are all in Redis, in flight or buffered, and none is counted twice. */
  lemma {:induction false} RunConserves(states: seq<System>, events: seq<Event>, i: nat)
    requires IsRun(states, events) && i <= |events|
    ensures Conserved(states[i])
  {
    if i == 0 {
      StartConserves();
    } else {
      hide Conserved, Steps;
      RunConserves(states, events, i - 1);
      StepConserves(states[i - 1], events[i - 1], states[i]);
    }
  }

  /** Once nothing is buffered or in flight, Redis holds exactly what was recorded. */
  lemma DrainedIsExact(states: seq<System>, events: seq<Event>, i: nat, c: Cell)
    requires IsRun(states, events) && i <= |events|
    requires states[i].buffer.total == 0 && states[i].inFlight == []
    ensures Count(states[i].redis, c) == Demand(states[i].recorded, c)
  {
    hide Demand, Value;
    RunConserves(states, events, i);
    NothingCounted(c);
    assert InFlight([], c) == 0;
  }

  // ---- What the autoscaler reads ----

  /** No buffer holds a negative request count. */
  ghost predicate Sound(b: Buffer) {
    forall service :: Value(b, RpsCell(service)) >= 0
  }

  ghost predicate SoundSystem(s: System) {
    Sound(s.buffer) && forall i :: 0 <= i < |s.inFlight| ==> Sound(s.inFlight[i])
  }

  lemma StepSound(s: System, e: Event, next: System)
    requires SoundSystem(s) && Steps(s, e, next)
    ensures SoundSystem(next)
    ensures forall service :: Count(next.redis, RpsCell(service)) >= Count(s.redis, RpsCell(service))
  {
    hide Recorded;
    match e
    case Record(r) =>
      forall service ensures Value(next.buffer, RpsCell(service)) >= 0 {
        RecordedAdds(s.buffer, r, RpsCell(service));
      }
    case Take =>
    case Execute(i) =>
    case Collect(_) =>
  }

  lemma {:induction false} CountsSnoc(collections: seq<Autoscaling.Collection>, c: Autoscaling.Collection, service: string)
    ensures Autoscaling.CountsOf(collections + [c], service)
         == Autoscaling.CountsOf(collections, service) + if c.service == service then [c.count] else []
    decreases |collections|
  {
    if collections == [] {
      assert collections + [c] == [c];
      assert [c][1..] == [];
    } else {
      var more, last := collections + [c], if c.service == service then [c.count] else [];
      var first := if collections[0].service == service then [collections[0].count] else [];
      assert more[0] == collections[0] && more[1..] == collections[1..] + [c];
      CountsSnoc(collections[1..], c, service);
      var counts := Autoscaling.CountsOf(collections[1..], service);
      assert (first + counts) + last == first + (counts + last);
    }
  }

  ghost predicate ReadingsGrow(s: System, service: string) {
    var counts := Autoscaling.CountsOf(s.collected, service);
    && Autoscaling.Growing(counts)
    && (counts != [] ==> counts[|counts| - 1] <= Count(s.redis, RpsCell(service)))
  }

  lemma StepReadings(s: System, e: Event, next: System, service: string)
    requires ReadingsGrow(s, service) && Steps(s, e, next)
    requires Count(next.redis, RpsCell(service)) >= Count(s.redis, RpsCell(service))
    ensures ReadingsGrow(next, service)
  {
    hide Recorded, Value, Flushed, Autoscaling.CountsOf;
    if e.Collect? {
      CountsSnoc(s.collected, Autoscaling.Collection(e.service, Count(s.redis, RpsCell(e.service))), service);
    }
  }

  lemma {:induction false} RunReadingsGrow(states: seq<System>, events: seq<Event>, i: nat, service: string)
    requires IsRun(states, events) && i <= |events|
    ensures SoundSystem(states[i]) && ReadingsGrow(states[i], service)
  {
    if i == 0 {
      assert Sound(EMPTY);
    } else {
      hide Steps, SoundSystem, ReadingsGrow;
      RunReadingsGrow(states, events, i - 1, service);
      StepSound(states[i - 1], events[i - 1], states[i]);
      StepReadings(states[i - 1], events[i - 1], states[i], service);
    }
  }

  /** The requests per second handed to the autoscaler add up, over any run, to the growth of the service's counter between
      the collector's first and last reading. */
  lemma CollectorSeesGrowth(states: seq<System>, events: seq<Event>, i: nat, service: string)
    requires IsRun(states, events) && i <= |events|
    requires Autoscaling.CountsOf(states[i].collected, service) != []
    ensures var counts := Autoscaling.CountsOf(states[i].collected, service);
            Autoscaling.Deltas(map[], states[i].collected, service) == counts[|counts| - 1] - counts[0]
  {
    hide Steps, SoundSystem;
    RunReadingsGrow(states, events, i, service);
    Autoscaling.DeltasAreGrowthIff(states[i].collected, service);
  }
}
