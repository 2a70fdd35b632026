/** The cache in front of a store: entries expire after a time to live and the least recently touched ones are evicted. A
    cache operation is one step, so the store does not change between an operation's read of it and its clock reading. */
module CachedStore {
  import opened Wrappers

  datatype Entry<T> = Entry(key: string, value: T, expires: real)

  /** Where a key is held, or the number of entries. */
  function Position<T>(entries: seq<Entry<T>>, key: string): (p: nat)
    ensures p <= |entries|
    ensures forall i :: 0 <= i < p ==> entries[i].key != key
    ensures p < |entries| ==> entries[p].key == key
  {
    if entries == [] || entries[0].key == key then 0 else 1 + Position(entries[1..], key)
  }

  function Lookup<T>(entries: seq<Entry<T>>, key: string): Option<Entry<T>> {
    var p := Position(entries, key);
    if p < |entries| then Some(entries[p]) else None
  }

  /** `entries.pop(key, None)`. */
  function Drop<T>(entries: seq<Entry<T>>, key: string): seq<Entry<T>> {
    var p := Position(entries, key);
    if p < |entries| then entries[..p] + entries[p + 1..] else entries
  }

  /** The entries after a look at `key`: an expired entry is dropped, a fresh one becomes the most recent. */
  function Looked<T>(entries: seq<Entry<T>>, key: string, now: real): seq<Entry<T>> {
    match Lookup(entries, key)
    case None => entries
    case Some(e) => if e.expires <= now then Drop(entries, key) else Drop(entries, key) + [e]
  }

  function Fresh<T>(entries: seq<Entry<T>>, key: string, now: real): (r: Option<Entry<T>>)
  {
    match Lookup(entries, key)
    case None => None
    case Some(e) => if e.expires <= now then None else Some(e)
  }

  function Evicted<T>(entries: seq<Entry<T>>, max: nat): seq<Entry<T>> {
    if |entries| > max then entries[|entries| - max..] else entries
  }

  function Remembered<T>(entries: seq<Entry<T>>, e: Entry<T>, max: nat): seq<Entry<T>> {
    Evicted(Drop(entries, e.key) + [e], max)
  }

  function Stored<T>(store: map<string, T>, key: string): Option<T> {
    if key in store then Some(store[key]) else None
  }

  datatype Cache<T> = Cache(store: map<string, T>, entries: seq<Entry<T>>)

  /** The operations of the cache, and writes to the backing store by others. */
  datatype Op<T> =
    | Get(key: string) | Put(key: string, value: T) | Delete(key: string) | Exists(key: string) | List
    | OutsidePut(key: string, value: T) | OutsideDelete(key: string)

  datatype Answer<T> = Value(item: Option<T>) | Truth(holds: bool) | Items(items: map<string, T>) | Nothing

  /** An operation with its two clock readings. */
  datatype Event<T> = Event(op: Op<T>, looked: real, remembered: real)

  datatype Settings = Settings(ttl: real, max: nat)

  function Entered<T>(key: string, item: T, e: Event<T>, s: Settings): Entry<T> {
    Entry(key, item, e.remembered + s.ttl)
  }

  function Next<T>(c: Cache<T>, e: Event<T>, s: Settings): Cache<T> {
    match e.op
    case Get(key) =>
      var entries := Looked(c.entries, key, e.looked);
      if Fresh(c.entries, key, e.looked).Some? || key !in c.store then c.(entries := entries)
      else c.(entries := Remembered(entries, Entered(key, c.store[key], e, s), s.max))
    case Put(key, value) => Cache(c.store[key := value], Remembered(c.entries, Entered(key, value, e, s), s.max))
    case Delete(key) => Cache(c.store - {key}, Drop(c.entries, key))
    case Exists(key) => c.(entries := Looked(c.entries, key, e.looked))
    case List => c
    case OutsidePut(key, value) => c.(store := c.store[key := value])
    case OutsideDelete(key) => c.(store := c.store - {key})
  }

  function Reply<T>(c: Cache<T>, e: Event<T>): Answer<T> {
    match e.op
    case Get(key) =>
      var cached := Fresh(c.entries, key, e.looked);
      Value(if cached.Some? then Some(cached.value.value) else Stored(c.store, key))
    case Exists(key) => Truth(Fresh(c.entries, key, e.looked).Some? || key in c.store)
    case List => Items(c.store)
    case _ => Nothing
  }

  /** The cache of `cached_store.py`, over a store held as a map. */
  class TTLStoreCache<T> {
    var store: map<string, T>
    var entries: seq<Entry<T>>
    const ttl: real
    const max: nat

    ghost function State(): Cache<T>
      reads this
    {
      Cache(store, entries)
    }

    ghost function Limits(): Settings {
      Settings(ttl, max)
    }

    constructor (backing: map<string, T>, ttlSeconds: real, maxEntries: nat)
      requires ttlSeconds > 0.0 && maxEntries >= 1
      ensures State() == Cache(backing, []) && Limits() == Settings(ttlSeconds, maxEntries)
    {
      store, entries, ttl, max := backing, [], ttlSeconds, maxEntries;
    }

    /** The checks made before a cache exists. */
    static method Create(backing: map<string, T>, ttlSeconds: real, maxEntries: int) returns (r: Option<TTLStoreCache<T>>)
      ensures r.Some? <==> ttlSeconds > 0.0 && maxEntries >= 1
      ensures r.Some? ==> fresh(r.value) && r.value.State() == Cache(backing, [])
                          && r.value.Limits() == Settings(ttlSeconds, maxEntries)
    {
      if ttlSeconds <= 0.0 || maxEntries < 1 {
        return None;
      }
      var cache := new TTLStoreCache(backing, ttlSeconds, maxEntries);
      return Some(cache);
    }

    method FreshEntry(key: string, now: real) returns (r: Option<Entry<T>>)
      modifies this`entries
      ensures r == Fresh(old(entries), key, now)
      ensures entries == Looked(old(entries), key, now)
    {
      var entry := Lookup(entries, key);
      if entry.None? {
        return None;
      }
      if entry.value.expires <= now {
        entries := Drop(entries, key);
        return None;
      }
      entries := Drop(entries, key) + [entry.value];
      return entry;
    }

    method Remember(key: string, item: T, now: real)
      modifies this`entries
      ensures entries == Remembered(old(entries), Entry(key, item, now + ttl), max)
    {
      entries := Drop(entries, key) + [Entry(key, item, now + ttl)];
      ghost var all := entries;
      while |entries| > max
        invariant Evicted(entries, max) == Evicted(all, max)
      {
        hide Evicted, Drop;
        EvictOne(entries, max);
        entries := entries[1..];
      }
    }

    method Get(key: string, now: real, later: real) returns (item: Option<T>)
      modifies this
      ensures State() == Next(old(State()), Event(Op.Get(key), now, later), Limits())
      ensures Value(item) == Reply(old(State()), Event(Op.Get(key), now, later))
    {
      var cached := FreshEntry(key, now);
      if cached.Some? {
        return Some(cached.value.value);
      }
      item := Stored(store, key);
      if item.Some? {
        Remember(key, item.value, later);
      }
    }

    method Put(key: string, item: T, now: real, later: real)
      modifies this
      ensures State() == Next(old(State()), Event(Op.Put(key, item), now, later), Limits())
    {
      hide Remembered;
      store := store[key := item];
      Remember(key, item, later);
    }

    method List() returns (items: map<string, T>)
      ensures items == store
    {
      return store;
    }

    method Delete(key: string, now: real, later: real)
      modifies this
      ensures State() == Next(old(State()), Event(Op.Delete(key), now, later), Limits())
    {
      store := store - {key};
      entries := Drop(entries, key);
    }

    method Exists(key: string, now: real, later: real) returns (found: bool)
      modifies this
      ensures State() == Next(old(State()), Event(Op.Exists(key), now, later), Limits())
      ensures Truth(found) == Reply(old(State()), Event(Op.Exists(key), now, later))
    {
      var cached := FreshEntry(key, now);
      if cached.Some? {
        return true;
      }
      return key in store;
    }
  }

  lemma EvictOne<T>(entries: seq<Entry<T>>, max: nat)
    requires |entries| > max
    ensures Evicted(entries[1..], max) == Evicted(entries, max)
  {}

  // ---- Runs, with what an observer could have written down ----

  /** The contents of the store at one moment. */
  datatype Moment<T> = Moment(time: real, store: map<string, T>)

  /** A cache together with the moments its store went through, the keys touched (answered from the cache or entered into
      it) in order, what was last entered under each key and not deleted since, and the latest clock reading. */
  datatype Run<T> = Run(cache: Cache<T>, log: seq<Moment<T>>, touched: seq<string>, entered: map<string, Entry<T>>,
                        now: real)

  function Touches<T>(c: Cache<T>, e: Event<T>): Option<string> {
    match e.op
    case Get(key) => if Fresh(c.entries, key, e.looked).Some? || key in c.store then Some(key) else None
    case Put(key, _) => Some(key)
    case Exists(key) => if Fresh(c.entries, key, e.looked).Some? then Some(key) else None
    case _ => None
  }

  function Enters<T>(c: Cache<T>, e: Event<T>, s: Settings): Option<Entry<T>> {
    match e.op
    case Get(key) =>
      if Fresh(c.entries, key, e.looked).None? && key in c.store then Some(Entered(key, c.store[key], e, s)) else None
    case Put(key, value) => Some(Entered(key, value, e, s))
    case _ => None
  }

  function Advance<T>(r: Run<T>, e: Event<T>, s: Settings): Run<T> {
    var next := Next(r.cache, e, s);
    var touched := Touches(r.cache, e);
    var entered := Enters(r.cache, e, s);
    Run(next,
        r.log + [Moment(e.remembered, next.store)],
        if touched.Some? then r.touched + [touched.value] else r.touched,
        if entered.Some? then r.entered[entered.value.key := entered.value]
        else if e.op.Delete? then r.entered - {e.op.key}
        else r.entered,
        e.remembered)
  }

  function Start<T>(store: map<string, T>, now: real): Run<T> {
    Run(Cache(store, []), [Moment(now, store)], [], map[], now)
  }

  function After<T>(r: Run<T>, events: seq<Event<T>>, s: Settings): Run<T>
    decreases |events|
  {
    if events == [] then r else After(Advance(r, events[0], s), events[1..], s)
  }

  /** The clock never goes back. */
  predicate Monotone<T>(now: real, events: seq<Event<T>>)
    decreases |events|
  {
    events == []
    || (now <= events[0].looked <= events[0].remembered && Monotone(events[0].remembered, events[1..]))
  }

  // ---- Recency ----

  /** Index of the last touch of a key, or -1. */
  function LastTouch(touched: seq<string>, key: string): (i: int)
    ensures -1 <= i < |touched|
    ensures i >= 0 ==> touched[i] == key
    ensures forall j :: i < j < |touched| ==> touched[j] != key
  {
    if touched == [] then -1
    else if touched[|touched| - 1] == key then |touched| - 1
    else LastTouch(touched[..|touched| - 1], key)
  }

  /** The keys touched since the last touch of `key`. */
  function Since(touched: seq<string>, key: string): set<string> {
    set i | LastTouch(touched, key) < i < |touched| :: touched[i]
  }

  /** The entries are in the order of their last touches, so no key is held twice. */
  ghost predicate ByRecency<T>(entries: seq<Entry<T>>, touched: seq<string>) {
    && (forall i :: 0 <= i < |entries| ==> LastTouch(touched, entries[i].key) >= 0)
    && (forall i, j :: 0 <= i < j < |entries| ==>
          LastTouch(touched, entries[i].key) < LastTouch(touched, entries[j].key))
  }

  /** An entry is what was last entered under its key, and what was entered is still held while it has not expired and
      fewer than `max` other keys were touched since its own last touch. */
  ghost predicate Retained<T>(entries: seq<Entry<T>>, touched: seq<string>, entered: map<string, Entry<T>>, now: real,
                              max: nat)
  {
    && (forall i :: 0 <= i < |entries| ==>
          entries[i].key in entered && entered[entries[i].key] == entries[i])
    && (forall key :: key in entered ==>
          && entered[key].key == key
          && (entered[key].expires > now && |Since(touched, key)| < max ==> entered[key] in entries))
  }

  ghost predicate Bounded<T>(entries: seq<Entry<T>>, touched: seq<string>, entered: map<string, Entry<T>>, now: real,
                             max: nat)
  {
    |entries| <= max && ByRecency(entries, touched) && Retained(entries, touched, entered, now, max)
  }

  lemma TouchOne(touched: seq<string>, key: string, k: string)
    ensures LastTouch(touched + [key], k) == if k == key then |touched| else LastTouch(touched, k)
    ensures Since(touched + [key], k) == if k == key then {} else Since(touched, k) + {key}
  {
    var more := touched + [key];
    assert more[..|more| - 1] == touched;
    if k != key {
      assert forall i :: LastTouch(touched, k) < i < |more| ==> more[i] in Since(touched, k) + {key};
      assert more[|touched|] == key;
      forall x | x in Since(touched, k) ensures x in Since(more, k) {
        var i :| LastTouch(touched, k) < i < |touched| && touched[i] == x;
        assert more[i] == x;
      }
    }
  }

  lemma DropIndexes<T>(entries: seq<Entry<T>>, key: string)
    ensures var p, rest := Position(entries, key), Drop(entries, key);
            && |rest| == (if p < |entries| then |entries| - 1 else |entries|)
            && forall i :: 0 <= i < |rest| ==> rest[i] == entries[if i < p then i else i + 1]
  {
    hide Position;
    var p, rest := Position(entries, key), Drop(entries, key);
    if p < |entries| {
      var before, after := entries[..p], entries[p + 1..];
      assert rest == before + after;
      forall i | 0 <= i < |rest| ensures rest[i] == entries[if i < p then i else i + 1] {
        assert rest[i] == if i < p then before[i] else after[i - p];
      }
    } else {
      assert rest == entries;
    }
  }

  lemma DropByRecency<T>(entries: seq<Entry<T>>, touched: seq<string>, key: string)
    requires ByRecency(entries, touched)
    ensures ByRecency(Drop(entries, key), touched)
    ensures |Drop(entries, key)| == if Lookup(entries, key).Some? then |entries| - 1 else |entries|
  {
    hide LastTouch, Drop;
    DropIndexes(entries, key);
  }

  lemma DropMembers<T>(entries: seq<Entry<T>>, touched: seq<string>, key: string)
    requires ByRecency(entries, touched)
    ensures forall i :: 0 <= i < |Drop(entries, key)| ==>
              Drop(entries, key)[i] in entries && Drop(entries, key)[i].key != key
    ensures forall e :: e in entries && e.key != key ==> e in Drop(entries, key)
  {
    hide LastTouch, Drop;
    DropIndexes(entries, key);
    var p, rest := Position(entries, key), Drop(entries, key);
    forall i | 0 <= i < |rest| ensures rest[i] in entries && rest[i].key != key {
      var k := if i < p then i else i + 1;
      assert entries[k] == rest[i];
      assert k > p ==> LastTouch(touched, entries[p].key) < LastTouch(touched, entries[k].key);
    }
    forall e | e in entries && e.key != key ensures e in rest {
      var i :| 0 <= i < |entries| && entries[i] == e;
      assert rest[if i < p then i else i - 1] == e;
    }
  }

  lemma AppendTouched<T>(entries: seq<Entry<T>>, touched: seq<string>, e: Entry<T>)
    requires ByRecency(entries, touched) && forall i :: 0 <= i < |entries| ==> entries[i].key != e.key
    ensures ByRecency(entries + [e], touched + [e.key])
  {
    hide LastTouch;
    var more := entries + [e];
    forall i | 0 <= i < |more| ensures LastTouch(touched + [e.key], more[i].key)
                                    == if i < |entries| then LastTouch(touched, entries[i].key) else |touched| {
      TouchOne(touched, e.key, more[i].key);
    }
    forall i | 0 <= i < |entries| ensures LastTouch(touched, entries[i].key) < |touched| {
      LastTouchBound(touched, entries[i].key);
    }
  }

  lemma LastTouchBound(touched: seq<string>, key: string)
    ensures -1 <= LastTouch(touched, key) < |touched|
  {}

  /** As many keys were touched since the oldest entry as there are younger entries. */
  lemma TouchedSinceOldest<T>(entries: seq<Entry<T>>, touched: seq<string>)
    requires entries != [] && ByRecency(entries, touched)
    ensures |Since(touched, entries[0].key)| >= |entries| - 1
  {
    var younger := set i | 1 <= i < |entries| :: entries[i].key;
    DistinctKeys(entries, touched);
    forall key | key in younger ensures key in Since(touched, entries[0].key) {
      var i :| 1 <= i < |entries| && entries[i].key == key;
      assert touched[LastTouch(touched, key)] == key;
    }
    SmallerSet(younger, Since(touched, entries[0].key));
  }

  lemma {:induction false} DistinctKeys<T>(entries: seq<Entry<T>>, touched: seq<string>)
    requires entries != [] && ByRecency(entries, touched)
    ensures |set i | 1 <= i < |entries| :: entries[i].key| == |entries| - 1
    decreases |entries|
  {
    hide LastTouch;
    var younger := set i | 1 <= i < |entries| :: entries[i].key;
    if |entries| > 1 {
      var rest := entries[1..];
      DistinctKeys(rest, touched);
      var youngest := set i | 1 <= i < |rest| :: rest[i].key;
      assert younger == youngest + {entries[1].key} by {
        assert forall i :: 1 <= i < |rest| ==> rest[i] == entries[i + 1];
        forall key | key in younger ensures key in youngest + {entries[1].key} {
          var i :| 1 <= i < |entries| && entries[i].key == key;
          assert i > 1 ==> rest[i - 1].key == key;
        }
      }
      assert entries[1].key !in youngest;
    } else {
      assert younger == {};
    }
  }

  lemma {:induction false} SmallerSet(a: set<string>, b: set<string>)
    requires a <= b
    ensures |a| <= |b|
  {
    assert b == a + (b - a);
  }

  lemma SinceGrows(touched: seq<string>, key: string, k: string)
    requires k != key
    ensures |Since(touched, k)| <= |Since(touched + [key], k)|
  {
    TouchOne(touched, key, k);
    SmallerSet(Since(touched, k), Since(touched + [key], k));
  }

  lemma LookupMeaning<T>(entries: seq<Entry<T>>, key: string)
    ensures Lookup(entries, key).None? <==> forall e :: e in entries ==> e.key != key
    ensures Lookup(entries, key).Some? ==> Lookup(entries, key).value in entries && Lookup(entries, key).value.key == key
  {
    var p := Position(entries, key);
    if p < |entries| {
      assert entries[p] in entries;
    }
  }

  lemma ExpireKeeps<T>(entries: seq<Entry<T>>, touched: seq<string>, entered: map<string, Entry<T>>, now: real,
                       max: nat, key: string)
    requires Bounded(entries, touched, entered, now, max)
    requires Lookup(entries, key).Some? && Lookup(entries, key).value.expires <= now
    ensures Bounded(Drop(entries, key), touched, entered, now, max)
  {
    hide LastTouch, Drop, Since, Lookup;
    var rest := Drop(entries, key);
    DropByRecency(entries, touched, key);
    DropMembers(entries, touched, key);
    LookupMeaning(entries, key);
    var i :| 0 <= i < |entries| && entries[i] == Lookup(entries, key).value;
    assert entered[key] == entries[i];
  }

  lemma DeleteKeeps<T>(entries: seq<Entry<T>>, touched: seq<string>, entered: map<string, Entry<T>>, now: real,
                       max: nat, key: string)
    requires Bounded(entries, touched, entered, now, max)
    ensures Bounded(Drop(entries, key), touched, entered - {key}, now, max)
  {
    hide LastTouch, Drop, Since, Lookup;
    var rest := Drop(entries, key);
    DropByRecency(entries, touched, key);
    DropMembers(entries, touched, key);
  }

  lemma TouchKeeps<T>(entries: seq<Entry<T>>, touched: seq<string>, entered: map<string, Entry<T>>, now: real,
                      max: nat, key: string)
    requires Bounded(entries, touched, entered, now, max) && Lookup(entries, key).Some?
    ensures Bounded(Drop(entries, key) + [Lookup(entries, key).value], touched + [key], entered, now, max)
  {
    hide LastTouch, Drop, Since, Lookup, ByRecency;
    var e := Lookup(entries, key).value;
    var rest := Drop(entries, key);
    DropByRecency(entries, touched, key);
    DropMembers(entries, touched, key);
    LookupMeaning(entries, key);
    AppendTouched(rest, touched, e);
    var more := rest + [e];
    forall i | 0 <= i < |more| ensures more[i] in entries {
      assert i < |rest| ==> more[i] == rest[i];
    }
    forall k | k in entered && entered[k].expires > now && |Since(touched + [key], k)| < max ensures entered[k] in more {
      if k == key {
        var i :| 0 <= i < |entries| && entries[i] == e;
        assert entered[k] == e;
      } else {
        SinceGrows(touched, key, k);
        assert entered[k] in rest;
      }
    }
  }

  lemma EnterKeeps<T>(entries: seq<Entry<T>>, touched: seq<string>, entered: map<string, Entry<T>>, now: real,
                      max: nat, e: Entry<T>)
    requires Bounded(entries, touched, entered, now, max) && max >= 1
    ensures Bounded(Remembered(entries, e, max), touched + [e.key], entered[e.key := e], now, max)
  {
    hide LastTouch, Drop, Since, Lookup, ByRecency;
    var rest := Drop(entries, e.key);
    DropByRecency(entries, touched, e.key);
    DropMembers(entries, touched, e.key);
    AppendTouched(rest, touched, e);
    var more, touches, now1 := rest + [e], touched + [e.key], entered[e.key := e];
    var kept := Remembered(entries, e, max);
    KeptByRecency(more, touches, max);
    forall i | 0 <= i < |kept| ensures kept[i].key in now1 && now1[kept[i].key] == kept[i] {
      var k := i + |more| - |kept|;
      assert kept[i] == more[k];
      assert k < |rest| ==> more[k] == rest[k];
    }
    forall k | k in now1 && now1[k].expires > now && |Since(touches, k)| < max ensures now1[k] in kept {
      if k == e.key {
        assert more[|more| - 1] == e;
      } else {
        SinceGrows(touched, e.key, k);
        assert now1[k] in rest;
      }
      assert now1[k] in more;
      if |more| > max {
        TouchedSinceOldest(more, touches);
        assert now1[k] != more[0];
        assert kept == more[1..];
      }
    }
  }

  lemma KeptByRecency<T>(entries: seq<Entry<T>>, touched: seq<string>, max: nat)
    requires ByRecency(entries, touched)
    ensures ByRecency(Evicted(entries, max), touched) && |Evicted(entries, max)| <= max
  {
    hide LastTouch;
  }

  lemma TimePasses<T>(entries: seq<Entry<T>>, touched: seq<string>, entered: map<string, Entry<T>>, now: real,
                      later: real, max: nat)
    requires Bounded(entries, touched, entered, now, max) && now <= later
    ensures Bounded(entries, touched, entered, later, max)
  {
    hide LastTouch, Since, ByRecency;
  }

  // ---- Every run ----

  ghost predicate Good<T>(r: Run<T>, s: Settings) {
    s.ttl > 0.0 && s.max >= 1 && Bounded(r.cache.entries, r.touched, r.entered, r.now, s.max)
  }

  lemma LookCases<T>(entries: seq<Entry<T>>, key: string, now: real)
    ensures Fresh(entries, key, now).Some? ==>
              && Lookup(entries, key).Some?
              && Fresh(entries, key, now) == Lookup(entries, key)
              && Lookup(entries, key).value.expires > now
              && Looked(entries, key, now) == Drop(entries, key) + [Lookup(entries, key).value]
    ensures Lookup(entries, key).None? ==> Fresh(entries, key, now).None? && Looked(entries, key, now) == entries
    ensures Fresh(entries, key, now).None? && Lookup(entries, key).Some? ==>
              Lookup(entries, key).value.expires <= now && Looked(entries, key, now) == Drop(entries, key)
  {}

  lemma LookKeeps<T>(r: Run<T>, s: Settings, key: string, looked: real, later: real)
    requires Good(r, s) && r.now <= looked <= later
    ensures Bounded(Looked(r.cache.entries, key, looked),
                    if Fresh(r.cache.entries, key, looked).Some? then r.touched + [key] else r.touched,
                    r.entered, later, s.max)
  {
    hide Bounded, Looked, Fresh, Lookup, Drop;
    LookCases(r.cache.entries, key, looked);
    TimePasses(r.cache.entries, r.touched, r.entered, r.now, later, s.max);
    if Fresh(r.cache.entries, key, looked).Some? {
      TouchKeeps(r.cache.entries, r.touched, r.entered, later, s.max, key);
    } else if Lookup(r.cache.entries, key).Some? {
      ExpireKeeps(r.cache.entries, r.touched, r.entered, later, s.max, key);
    }
  }

  lemma AdvanceKeeps<T>(r: Run<T>, e: Event<T>, s: Settings)
    requires Good(r, s) && r.now <= e.looked <= e.remembered
    ensures Good(Advance(r, e, s), s)
  {
    hide Bounded, Looked, Fresh, Lookup, Drop, Remembered;
    TimePasses(r.cache.entries, r.touched, r.entered, r.now, e.remembered, s.max);
    match e.op {
      case Get(key) =>
        LookKeeps(r, s, key, e.looked, e.remembered);
        if Fresh(r.cache.entries, key, e.looked).None? && key in r.cache.store {
          EnterKeeps(Looked(r.cache.entries, key, e.looked), r.touched, r.entered, e.remembered, s.max,
                     Entered(key, r.cache.store[key], e, s));
        }
      case Put(key, value) =>
        EnterKeeps(r.cache.entries, r.touched, r.entered, e.remembered, s.max, Entered(key, value, e, s));
      case Delete(key) =>
        DeleteKeeps(r.cache.entries, r.touched, r.entered, e.remembered, s.max, key);
      case Exists(key) =>
        LookKeeps(r, s, key, e.looked, e.remembered);
      case _ =>
    }
  }

  /** On every run the cache holds at most `max` entries, in the order of their last touches. */
  lemma {:induction false} RunKeeps<T>(r: Run<T>, events: seq<Event<T>>, s: Settings)
    requires Good(r, s) && Monotone(r.now, events)
    ensures Good(After(r, events, s), s)
    decreases |events|
  {
    hide Good, Advance;
    if events != [] {
      AdvanceKeeps(r, events[0], s);
      AdvanceTime(r, events[0], s);
      RunKeeps(Advance(r, events[0], s), events[1..], s);
    }
  }

  lemma AdvanceTime<T>(r: Run<T>, e: Event<T>, s: Settings)
    ensures Advance(r, e, s).now == e.remembered
  {}

  lemma StartIsGood<T>(store: map<string, T>, now: real, s: Settings)
    requires s.ttl > 0.0 && s.max >= 1
    ensures Good(Start(store, now), s)
  {}

  lemma SizeAndOrder<T>(store: map<string, T>, now: real, events: seq<Event<T>>, s: Settings)
    requires s.ttl > 0.0 && s.max >= 1 && Monotone(now, events)
    ensures var r := After(Start(store, now), events, s);
            |r.cache.entries| <= s.max && ByRecency(r.cache.entries, r.touched)
  {
    hide ByRecency, After, Retained;
    StartIsGood(store, now, s);
    RunKeeps(Start(store, now), events, s);
  }

  /** A key that was entered, not deleted since, has not expired and had fewer than `max` other keys touched since its own
      last touch is answered from the cache, with the value entered. */
  lemma RetainedKeyHits<T>(store: map<string, T>, now: real, events: seq<Event<T>>, s: Settings, key: string,
                           looked: real, later: real)
    requires s.ttl > 0.0 && s.max >= 1 && Monotone(now, events)
    requires var r := After(Start(store, now), events, s);
             && r.now <= looked
             && key in r.entered
             && r.entered[key].expires > looked
             && |Since(r.touched, key)| < s.max
    ensures var r := After(Start(store, now), events, s);
            && Fresh(r.cache.entries, key, looked) == Some(r.entered[key])
            && Reply(r.cache, Event(Op.Get(key), looked, later)) == Value(Some(r.entered[key].value))
  {
    hide ByRecency, After, Since, Lookup;
    StartIsGood(store, now, s);
    RunKeeps(Start(store, now), events, s);
    var r := After(Start(store, now), events, s);
    LookupMeaning(r.cache.entries, key);
    assert r.entered[key] in r.cache.entries;
    var e := Lookup(r.cache.entries, key).value;
    var i :| 0 <= i < |r.cache.entries| && r.cache.entries[i] == e;
    assert e == r.entered[key];
  }

  // ---- Staleness ----

  ghost predicate SeenAt<T>(log: seq<Moment<T>>, key: string, value: T, time: real) {
    exists m :: 0 <= m < |log| && log[m].time == time && Stored(log[m].store, key) == Some(value)
  }

  /** The store held `value` under `key` at some moment after `from` and no later than `to`. */
  ghost predicate SeenWithin<T>(log: seq<Moment<T>>, key: string, value: T, from: real, to: real) {
    exists m :: 0 <= m < |log| && from < log[m].time <= to && Stored(log[m].store, key) == Some(value)
  }

  /** Every entry is a copy of what the store held when the entry was made. */
  ghost predicate Witnessed<T>(r: Run<T>, s: Settings) {
    && (forall i :: 0 <= i < |r.cache.entries| ==>
          var e := r.cache.entries[i]; SeenAt(r.log, e.key, e.value, e.expires - s.ttl))
    && forall m :: 0 <= m < |r.log| ==> r.log[m].time <= r.now
  }

  /** Where the entries come from. */
  // ---- How long a value that was put is served ----

  /** The keys other than `key` that get, put or exists is asked for. */
  function OtherKeys<T>(events: seq<Event<T>>, key: string): set<string> {
    if events == [] then {} else Asked(events[0], key) + OtherKeys(events[1..], key)
  }

  function Asked<T>(e: Event<T>, key: string): set<string> {
    match e.op
    case Get(k) => if k == key then {} else {k}
    case Put(k, _) => if k == key then {} else {k}
    case Exists(k) => if k == key then {} else {k}
    case _ => {}
  }

  /** Nobody puts or deletes the key through the cache. */
  ghost predicate LeavesKey<T>(events: seq<Event<T>>, key: string) {
    forall e :: e in events ==> !(e.op.Put? && e.op.key == key) && !(e.op.Delete? && e.op.key == key)
  }

  /** The key still stands as it was entered, with room to spare. */
  ghost predicate Standing<T>(r: Run<T>, s: Settings, key: string, entry: Entry<T>, others: set<string>) {
    Good(r, s) && key in r.entered && r.entered[key] == entry && Since(r.touched, key) <= others
  }

  lemma StandingIsFresh<T>(r: Run<T>, s: Settings, key: string, entry: Entry<T>, others: set<string>, looked: real)
    requires Standing(r, s, key, entry, others) && |others| < s.max && r.now <= looked < entry.expires
    ensures Fresh(r.cache.entries, key, looked) == Some(entry)
  {
    hide ByRecency, Since, Lookup;
    SmallerSet(Since(r.touched, key), others);
    LookupMeaning(r.cache.entries, key);
    assert r.entered[key] in r.cache.entries;
    var e := Lookup(r.cache.entries, key).value;
    var i :| 0 <= i < |r.cache.entries| && r.cache.entries[i] == e;
    assert e == r.entered[key];
  }

  lemma StandsOn<T>(r: Run<T>, e: Event<T>, s: Settings, key: string, entry: Entry<T>, others: set<string>)
    requires Standing(r, s, key, entry, others) && |others| < s.max && r.now <= e.looked <= e.remembered < entry.expires
    requires LeavesKey([e], key) && key !in others
    ensures Standing(Advance(r, e, s), s, key, entry, others + Asked(e, key))
  {
    AdvanceKeeps(r, e, s);
    StandingIsFresh(r, s, key, entry, others, e.looked);
    assert e in [e];
    StaysEntered(r, e, s, key);
    TouchesAsked(r, e, s, key);
    hide Good, Advance, Fresh, Since, Asked;
  }

  lemma StaysEntered<T>(r: Run<T>, e: Event<T>, s: Settings, key: string)
    requires key in r.entered && Fresh(r.cache.entries, key, e.looked).Some?
    requires !(e.op.Put? && e.op.key == key) && !(e.op.Delete? && e.op.key == key)
    ensures key in Advance(r, e, s).entered && Advance(r, e, s).entered[key] == r.entered[key]
  {
    hide Fresh, Next;
  }

  lemma TouchesAsked<T>(r: Run<T>, e: Event<T>, s: Settings, key: string)
    ensures Since(Advance(r, e, s).touched, key) <= Since(r.touched, key) + Asked(e, key)
  {
    hide Fresh, Next, Since;
    var touched := Touches(r.cache, e);
    if touched.Some? {
      TouchOne(r.touched, touched.value, key);
    }
  }

  lemma {:induction false} StandsThrough<T>(
    r: Run<T>, events: seq<Event<T>>, s: Settings, key: string, entry: Entry<T>, others: set<string>)
    requires Standing(r, s, key, entry, others) && Monotone(r.now, events) && LeavesKey(events, key) && key !in others
    requires |others + OtherKeys(events, key)| < s.max && EndsAt(r.now, events) < entry.expires
    ensures var end := After(r, events, s);
            Standing(end, s, key, entry, others + OtherKeys(events, key)) && end.now == EndsAt(r.now, events)
    decreases |events|
  {
    hide Standing, Advance, Asked;
    if events == [] {
      assert others + {} == others;
    } else {
      var e, rest := events[0], events[1..];
      var more := others + Asked(e, key);
      assert e in events && forall x :: x in rest ==> x in events;
      assert more + OtherKeys(rest, key) == others + OtherKeys(events, key);
      SmallerSet(others, others + OtherKeys(events, key));
      EndsLater(e.remembered, rest);
      AdvanceTime(r, e, s);
      StandsOn(r, e, s, key, entry, others);
      AskedOthers(e, key);
      StandsThrough(Advance(r, e, s), rest, s, key, entry, more);
    }
  }

  lemma AskedOthers<T>(e: Event<T>, key: string)
    ensures key !in Asked(e, key)
  {}

  /** The time of the last event. */
  function EndsAt<T>(now: real, events: seq<Event<T>>): real
    decreases |events|
  {
    if events == [] then now else EndsAt(events[0].remembered, events[1..])
  }

  lemma {:induction false} EndsLater<T>(now: real, events: seq<Event<T>>)
    requires Monotone(now, events)
    ensures EndsAt(now, events) >= now
    decreases |events|
  {
    if events != [] {
      EndsLater(events[0].remembered, events[1..]);
    }
  }

  /** A value put at any time is served, and its key exists, for the whole time to live, whatever others do to the store,
      unless it is put again or deleted, or `max` other keys are asked for. */
  lemma PutIsServed<T>(store: map<string, T>, now: real, events: seq<Event<T>>, put: Event<T>, more: seq<Event<T>>,
                       s: Settings, key: string, value: T, looked: real, later: real)
    requires s.ttl > 0.0 && s.max >= 1 && Monotone(now, events)
    requires put.op == Put(key, value) && Monotone(After(Start(store, now), events, s).now, [put] + more)
    requires LeavesKey(more, key) && |OtherKeys(more, key)| < s.max
    requires EndsAt(put.remembered, more) <= looked < put.remembered + s.ttl
    ensures var r := After(Advance(After(Start(store, now), events, s), put, s), more, s);
            && Reply(r.cache, Event(Op.Get(key), looked, later)) == Value(Some(value))
            && Reply(r.cache, Event(Op.Exists(key), looked, later)) == Truth(true)
  {
    hide After, Good, Since;
    var r0 := After(Start(store, now), events, s);
    StartIsGood(store, now, s);
    RunKeeps(Start(store, now), events, s);
    assert ([put] + more)[1..] == more;
    AdvanceKeeps(r0, put, s);
    var r1 := Advance(r0, put, s);
    var entry := Entry(key, value, put.remembered + s.ttl);
    TouchOne(r0.touched, key, key);
    assert Standing(r1, s, key, entry, {});
    assert {} + OtherKeys(more, key) == OtherKeys(more, key);
    StandsThrough(r1, more, s, key, entry, {});
    StandingIsFresh(After(r1, more, s), s, key, entry, OtherKeys(more, key), looked);
  }

  lemma NextEntries<T>(c: Cache<T>, e: Event<T>, s: Settings, i: nat)
    requires i < |Next(c, e, s).entries|
    ensures Next(c, e, s).entries[i] in c.entries || Enters(c, e, s) == Some(Next(c, e, s).entries[i])
  {
    hide Position;
    match e.op {
      case Get(key) =>
        LookEntries(c.entries, key, e.looked);
        if Enters(c, e, s).Some? {
          RememberedEntries(Looked(c.entries, key, e.looked), Enters(c, e, s).value, s.max);
        }
      case Put(key, value) => RememberedEntries(c.entries, Enters(c, e, s).value, s.max);
      case Delete(key) =>
      case Exists(key) => LookEntries(c.entries, key, e.looked);
      case _ =>
    }
  }

  lemma LookEntries<T>(entries: seq<Entry<T>>, key: string, now: real)
    ensures forall i :: 0 <= i < |Looked(entries, key, now)| ==> Looked(entries, key, now)[i] in entries
  {
    hide Position;
  }

  lemma RememberedEntries<T>(entries: seq<Entry<T>>, e: Entry<T>, max: nat)
    ensures forall i :: 0 <= i < |Remembered(entries, e, max)| ==>
              Remembered(entries, e, max)[i] in entries || Remembered(entries, e, max)[i] == e
  {
    hide Position;
  }

  lemma SeenLater<T>(log: seq<Moment<T>>, more: seq<Moment<T>>, key: string, value: T, time: real)
    requires SeenAt(log, key, value, time)
    ensures SeenAt(log + more, key, value, time)
  {
    var m :| 0 <= m < |log| && log[m].time == time && Stored(log[m].store, key) == Some(value);
    assert (log + more)[m] == log[m];
  }

  lemma EnteredIsStored<T>(c: Cache<T>, e: Event<T>, s: Settings)
    requires Enters(c, e, s).Some?
    ensures var x := Enters(c, e, s).value;
            Stored(Next(c, e, s).store, x.key) == Some(x.value) && x.expires == e.remembered + s.ttl
  {
    hide Looked, Remembered, Fresh;
  }

  lemma AdvanceWitnessed<T>(r: Run<T>, e: Event<T>, s: Settings)
    requires Witnessed(r, s) && r.now <= e.looked <= e.remembered
    ensures Witnessed(Advance(r, e, s), s)
  {
    hide SeenAt, Next, Enters, Stored;
    var next := Advance(r, e, s);
    var now := Moment(e.remembered, next.cache.store);
    forall i | 0 <= i < |next.cache.entries|
      ensures var x := next.cache.entries[i]; SeenAt(next.log, x.key, x.value, x.expires - s.ttl) {
      var x := next.cache.entries[i];
      NextEntries(r.cache, e, s, i);
      if x in r.cache.entries {
        var k :| 0 <= k < |r.cache.entries| && r.cache.entries[k] == x;
        SeenLater(r.log, [now], x.key, x.value, x.expires - s.ttl);
      } else {
        EnteredIsStored(r.cache, e, s);
        SeenNow(r.log, now, x.key, x.value);
      }
    }
  }

  lemma SeenNow<T>(log: seq<Moment<T>>, now: Moment<T>, key: string, value: T)
    requires Stored(now.store, key) == Some(value)
    ensures SeenAt(log + [now], key, value, now.time)
  {
    assert (log + [now])[|log|] == now;
  }

  lemma {:induction false} RunWitnessed<T>(r: Run<T>, events: seq<Event<T>>, s: Settings)
    requires Witnessed(r, s) && Monotone(r.now, events)
    ensures Witnessed(After(r, events, s), s)
    decreases |events|
  {
    hide Witnessed, Advance;
    if events != [] {
      AdvanceWitnessed(r, events[0], s);
      AdvanceTime(r, events[0], s);
      RunWitnessed(Advance(r, events[0], s), events[1..], s);
    }
  }

  /** With any outside writes in between, a value got at time `looked` is in the store now or was in it at some moment in
      (looked - ttl, looked]; an absent answer is current. */
  lemma BoundedStaleness<T>(store: map<string, T>, now: real, events: seq<Event<T>>, s: Settings, key: string,
                            looked: real, later: real)
    requires s.ttl > 0.0 && Monotone(now, events)
    requires After(Start(store, now), events, s).now <= looked
    ensures var r := After(Start(store, now), events, s);
            var reply := Reply(r.cache, Event(Op.Get(key), looked, later));
            && reply.Value?
            && (reply.item.None? ==> key !in r.cache.store)
            && (reply.item.Some? ==>
                  || Stored(r.cache.store, key) == reply.item
                  || SeenWithin(r.log, key, reply.item.value, looked - s.ttl, looked))
  {
    hide After, SeenAt, SeenWithin, Lookup;
    RunWitnessed(Start(store, now), events, s);
    var r := After(Start(store, now), events, s);
    LookupMeaning(r.cache.entries, key);
    var cached := Fresh(r.cache.entries, key, looked);
    if cached.Some? {
      SeenIsWithin(r, s, cached.value, looked);
    }
  }

  lemma SeenIsWithin<T>(r: Run<T>, s: Settings, e: Entry<T>, looked: real)
    requires Witnessed(r, s) && e in r.cache.entries && e.expires > looked >= r.now
    ensures SeenWithin(r.log, e.key, e.value, looked - s.ttl, looked)
  {
    var i :| 0 <= i < |r.cache.entries| && r.cache.entries[i] == e;
    assert SeenAt(r.log, e.key, e.value, e.expires - s.ttl);
  }

  /** The same for `exists`: a negative answer is current, a positive one was true at some moment in the same bound. */
  lemma ExistsStaleness<T>(store: map<string, T>, now: real, events: seq<Event<T>>, s: Settings, key: string,
                           looked: real, later: real)
    requires s.ttl > 0.0 && Monotone(now, events)
    requires After(Start(store, now), events, s).now <= looked
    ensures var r := After(Start(store, now), events, s);
            var reply, from := Reply(r.cache, Event(Op.Exists(key), looked, later)), looked - s.ttl;
            && reply.Truth?
            && (!reply.holds ==> key !in r.cache.store)
            && (reply.holds ==>
                  || key in r.cache.store
                  || exists value :: SeenWithin(r.log, key, value, from, looked))
  {
    hide After, SeenAt, SeenWithin, Lookup;
    RunWitnessed(Start(store, now), events, s);
    var r := After(Start(store, now), events, s);
    LookupMeaning(r.cache.entries, key);
    var cached := Fresh(r.cache.entries, key, looked);
    if cached.Some? {
      SeenIsWithin(r, s, cached.value, looked);
    }
  }

  // ---- Transparency ----

  /** Every entry agrees with the store. */
  ghost predicate Coherent<T>(c: Cache<T>) {
    forall i :: 0 <= i < |c.entries| ==> Stored(c.store, c.entries[i].key) == Some(c.entries[i].value)
  }

  function BareNext<T>(store: map<string, T>, op: Op<T>): map<string, T> {
    match op
    case Put(key, value) => store[key := value]
    case Delete(key) => store - {key}
    case OutsidePut(key, value) => store[key := value]
    case OutsideDelete(key) => store - {key}
    case _ => store
  }

  function BareReply<T>(store: map<string, T>, op: Op<T>): Answer<T> {
    match op
    case Get(key) => Value(Stored(store, key))
    case Exists(key) => Truth(key in store)
    case List => Items(store)
    case _ => Nothing
  }

  function BareReplies<T>(store: map<string, T>, events: seq<Event<T>>): seq<Answer<T>>
    decreases |events|
  {
    if events == [] then []
    else [BareReply(store, events[0].op)] + BareReplies(BareNext(store, events[0].op), events[1..])
  }

  function Replies<T>(c: Cache<T>, events: seq<Event<T>>, s: Settings): seq<Answer<T>>
    decreases |events|
  {
    if events == [] then [] else [Reply(c, events[0])] + Replies(Next(c, events[0], s), events[1..], s)
  }

  /** No outside write meets a key that the cache holds. */
  predicate Undisturbed<T>(c: Cache<T>, events: seq<Event<T>>, s: Settings)
    decreases |events|
  {
    events == []
    || (&& (events[0].op.OutsidePut? || events[0].op.OutsideDelete? ==> Lookup(c.entries, events[0].op.key).None?)
        && Undisturbed(Next(c, events[0], s), events[1..], s))
  }

  lemma CoherentReply<T>(c: Cache<T>, e: Event<T>)
    requires Coherent(c)
    ensures Reply(c, e) == BareReply(c.store, e.op)
  {
    if e.op.Get? || e.op.Exists? {
      LookupMeaning(c.entries, e.op.key);
    }
  }

  lemma NextStore<T>(c: Cache<T>, e: Event<T>, s: Settings)
    ensures Next(c, e, s).store == BareNext(c.store, e.op)
  {}

  lemma CoherentNext<T>(r: Run<T>, e: Event<T>, s: Settings)
    requires Coherent(r.cache) && Good(r, s)
    requires e.op.OutsidePut? || e.op.OutsideDelete? ==> Lookup(r.cache.entries, e.op.key).None?
    ensures Coherent(Next(r.cache, e, s))
  {
    hide Next, Enters, Lookup, LastTouch, Since;
    var c := r.cache;
    var next := Next(c, e, s);
    NextStore(c, e, s);
    if e.op.Put? || e.op.Delete? {
      NextDisplaces(r, e, s);
    } else if e.op.OutsidePut? || e.op.OutsideDelete? {
      LookupMeaning(c.entries, e.op.key);
    }
    forall i | 0 <= i < |next.entries| ensures Stored(next.store, next.entries[i].key) == Some(next.entries[i].value) {
      NextEntries(c, e, s, i);
      if Enters(c, e, s) == Some(next.entries[i]) {
        EnteredIsStored(c, e, s);
      } else {
        var k :| 0 <= k < |c.entries| && c.entries[k] == next.entries[i];
      }
    }
  }

  /** A write through the cache displaces the entry that was held under its key. */
  lemma NextDisplaces<T>(r: Run<T>, e: Event<T>, s: Settings)
    requires Good(r, s) && (e.op.Put? || e.op.Delete?)
    ensures var next := Next(r.cache, e, s);
            forall i :: 0 <= i < |next.entries| ==>
              next.entries[i].key != e.op.key || Enters(r.cache, e, s) == Some(next.entries[i])
  {
    hide LastTouch, Since, Drop;
    DropMembers(r.cache.entries, r.touched, e.op.key);
  }

  /** A cache whose keys nobody else writes answers exactly like the bare store. */
  lemma {:induction false} TransparentFrom<T>(r: Run<T>, events: seq<Event<T>>, s: Settings)
    requires Good(r, s) && Coherent(r.cache) && Monotone(r.now, events) && Undisturbed(r.cache, events, s)
    ensures Replies(r.cache, events, s) == BareReplies(r.cache.store, events)
    decreases |events|
  {
    hide Good, Coherent, Next, Reply, BareReply, BareNext, Lookup;
    if events != [] {
      var e := events[0];
      var next := Advance(r, e, s);
      CoherentReply(r.cache, e);
      NextStore(r.cache, e, s);
      CoherentNext(r, e, s);
      AdvanceKeeps(r, e, s);
      TransparentFrom(next, events[1..], s);
    }
  }

  lemma Transparent<T>(store: map<string, T>, now: real, events: seq<Event<T>>, s: Settings)
    requires s.ttl > 0.0 && s.max >= 1 && Monotone(now, events)
    requires forall i :: 0 <= i < |events| ==> !events[i].op.OutsidePut? && !events[i].op.OutsideDelete?
    ensures Replies(Cache(store, []), events, s) == BareReplies(store, events)
  {
    hide Replies, BareReplies;
    StartIsGood(store, now, s);
    NobodyDisturbs(Cache(store, []), events, s);
    TransparentFrom(Start(store, now), events, s);
  }

  lemma {:induction false} NobodyDisturbs<T>(c: Cache<T>, events: seq<Event<T>>, s: Settings)
    requires forall i :: 0 <= i < |events| ==> !events[i].op.OutsidePut? && !events[i].op.OutsideDelete?
    ensures Undisturbed(c, events, s)
    decreases |events|
  {
    hide Next, Lookup;
    if events != [] {
      NobodyDisturbs(Next(c, events[0], s), events[1..], s);
    }
  }
}
