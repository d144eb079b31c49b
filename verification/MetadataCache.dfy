/**
  The metadata cache: answers of the engine adapters, kept for a while and dropped per target.

  The cache is compared with the log of everything the adapters answered and of every
  invalidation; the hash of the request properties is a parameter.
*/
module MetadataCache {
  import opened Outcomes

  datatype Operation = Catalogs | Schemas | Objects | Describe(object: string)

  datatype Request = Request(
    identity: string, target: string, engine: string, properties: map<string, string>,
    catalog: Option<string>, schema: Option<string>, pattern: Option<string>)

  datatype CacheKey = CacheKey(
    identity: string, target: string, engine: string,
    catalog: Option<string>, schema: Option<string>, pattern: Option<string>, properties: int, operation: Operation)

  type Answer = seq<string>

  datatype CachedValue = CatalogList(a: Answer) | SchemaList(a: Answer) | ObjectList(a: Answer) | ColumnList(a: Answer)

  datatype CacheEntry = CacheEntry(inserted: int, value: CachedValue)

  type Hash = map<string, string> -> int

  function KeyOf(hash: Hash, q: Request, op: Operation): CacheKey {
    CacheKey(q.identity, q.target, q.engine, q.catalog, q.schema, q.pattern, hash(q.properties), op)
  }

  function Wrap(op: Operation, answer: Answer): CachedValue {
    match op
    case Catalogs => CatalogList(answer)
    case Schemas => SchemaList(answer)
    case Objects => ObjectList(answer)
    case Describe(_) => ColumnList(answer)
  }

  /** The variant each operation looks for in the cache. */
  predicate Suits(op: Operation, value: CachedValue) {
    match op
    case Catalogs => value.CatalogList?
    case Schemas => value.SchemaList?
    case Objects => value.ObjectList?
    case Describe(_) => value.ColumnList?
  }

  function Fresh(cache: map<CacheKey, CacheEntry>, now: int, ttl: nat): map<CacheKey, CacheEntry> {
    map key | key in cache && now - cache[key].inserted <= ttl :: cache[key]
  }

  // ---- the service, with the log of what happened ----

  datatype Event = Answered(request: Request, op: Operation, answer: Answer, at: int) | Invalidated(target: string)

  datatype State = State(clock: int, cache: map<CacheKey, CacheEntry>, log: seq<Event>)

  /** What the adapter says if it is asked, and how long it takes. */
  datatype Reply = Reply(result: Result<Answer, string>, delay: nat)

  /** A request: the answer, and whether it came from the cache. */
  function Ask(hash: Hash, ttl: nat, engines: set<string>, s: State, q: Request, op: Operation, reply: Reply)
    : (State, Result<Answer, string>, bool)
  {
    var key := KeyOf(hash, q, op);
    var cache := Fresh(s.cache, s.clock, ttl);
    if key in cache && Suits(op, cache[key].value) then (s.(cache := cache), Ok(cache[key].value.a), true)
    else if q.engine !in engines then (s.(cache := cache), Err("adapter_not_found"), false)
    else if reply.result.Err? then (s.(cache := cache, clock := s.clock + reply.delay), reply.result, false)
    else
      var now := s.clock + reply.delay;
      var answer := reply.result.value;
      (State(now, cache[key := CacheEntry(now, Wrap(op, answer))], s.log + [Answered(q, op, answer, now)]),
       Ok(answer), false)
  }

  function InvalidateTarget(s: State, target: string): State {
    s.(cache := map key | key in s.cache && key.target != target :: s.cache[key], log := s.log + [Invalidated(target)])
  }

  class MetadataService {
    const ttl: nat
    const engines: set<string>
    const hash: Hash
    var clock: int
    var cache: map<CacheKey, CacheEntry>
    ghost var log: seq<Event>

    ghost function View(): State
      reads this
    {
      State(clock, cache, log)
    }

    constructor (hash: Hash, ttl: nat, engines: set<string>, now: int)
      ensures View() == State(now, map[], []) && this.hash == hash && this.ttl == ttl && this.engines == engines
    {
      this.hash, this.ttl, this.engines := hash, ttl, engines;
      clock, cache, log := now, map[], [];
    }

    method Lookup(q: Request, op: Operation, reply: Reply) returns (r: Result<Answer, string>, hit: bool)
      modifies this
      ensures (View(), r, hit) == Ask(hash, ttl, engines, old(View()), q, op, reply)
    {
      var key := KeyOf(hash, q, op);
      cache := map k | k in cache && clock - cache[k].inserted <= ttl :: cache[k];
      if key in cache && Suits(op, cache[key].value) {
        return Ok(cache[key].value.a), true;
      }
      hit := false;
      if q.engine !in engines {
        return Err("adapter_not_found"), false;
      }
      clock := clock + reply.delay;
      r := reply.result;
      if r.Ok? {
        cache := cache[key := CacheEntry(clock, Wrap(op, r.value))];
        log := log + [Answered(q, op, r.value, clock)];
      }
    }

    method Invalidate(target: string)
      modifies this
      ensures View() == InvalidateTarget(old(View()), target)
    {
      cache := map key | key in cache && key.target != target :: cache[key];
      log := log + [Invalidated(target)];
    }
  }

  // ---- runs ----

  datatype Action = Query(q: Request, op: Operation, reply: Reply) | Forget(target: string) | Tick(elapsed: nat)

  function Next(hash: Hash, ttl: nat, engines: set<string>, s: State, a: Action): State {
    match a
    case Query(q, op, reply) => Ask(hash, ttl, engines, s, q, op, reply).0
    case Forget(target) => InvalidateTarget(s, target)
    case Tick(elapsed) => s.(clock := s.clock + elapsed)
  }

  function Run(hash: Hash, ttl: nat, engines: set<string>, s: State, actions: seq<Action>): State {
    if actions == [] then s
    else Next(hash, ttl, engines, Run(hash, ttl, engines, s, actions[..|actions| - 1]), actions[|actions| - 1])
  }

  /** The latest answer for a key that no invalidation of its target has followed. */
  function Latest(hash: Hash, log: seq<Event>, key: CacheKey): (r: Option<Event>)
    ensures r.Some? ==> r.value.Answered? && KeyOf(hash, r.value.request, r.value.op) == key
    ensures r.Some? ==> r.value in log
  {
    if log == [] then None
    else
      var last := log[|log| - 1];
      if last.Answered? && KeyOf(hash, last.request, last.op) == key then Some(last)
      else if last.Invalidated? && last.target == key.target then None
      else Latest(hash, log[..|log| - 1], key)
  }

  lemma LatestAppend(hash: Hash, log: seq<Event>, e: Event, key: CacheKey)
    ensures Latest(hash, log + [e], key) ==
      if e.Answered? && KeyOf(hash, e.request, e.op) == key then Some(e)
      else if e.Invalidated? && e.target == key.target then None
      else Latest(hash, log, key)
  {
    assert (log + [e])[..|log|] == log;
  }

  /** One cached entry is the latest answer; a latest answer that is still fresh is cached. */
  ghost predicate KeyInv(hash: Hash, ttl: nat, s: State, key: CacheKey) {
    var latest := Latest(hash, s.log, key);
    && (key in s.cache ==> latest.Some? && s.cache[key] == CacheEntry(latest.value.at, Wrap(key.operation, latest.value.answer)))
    && (latest.Some? && s.clock - latest.value.at <= ttl ==> key in s.cache)
    && (latest.Some? ==> latest.value.at <= s.clock)
  }

  ghost predicate Inv(hash: Hash, ttl: nat, s: State) {
    forall key :: KeyInv(hash, ttl, s, key)
  }

  /** Dropping what has outlived the TTL, and letting time pass, keeps the correspondence. */
  lemma PurgeKeepsKeyInv(hash: Hash, ttl: nat, s: State, key: CacheKey, delay: nat)
    requires KeyInv(hash, ttl, s, key)
    ensures KeyInv(hash, ttl, s.(cache := Fresh(s.cache, s.clock, ttl), clock := s.clock + delay), key)
  {
  }

  lemma StoreKeepsKeyInv(hash: Hash, ttl: nat, s: State, key: CacheKey, q: Request, op: Operation, answer: Answer)
    requires KeyInv(hash, ttl, s, key)
    ensures KeyInv(hash, ttl, State(s.clock, s.cache[KeyOf(hash, q, op) := CacheEntry(s.clock, Wrap(op, answer))],
                                    s.log + [Answered(q, op, answer, s.clock)]), key)
  {
    LatestAppend(hash, s.log, Answered(q, op, answer, s.clock), key);
  }

  lemma ForgetKeepsKeyInv(hash: Hash, ttl: nat, s: State, key: CacheKey, target: string)
    requires KeyInv(hash, ttl, s, key)
    ensures KeyInv(hash, ttl, InvalidateTarget(s, target), key)
  {
    LatestAppend(hash, s.log, Invalidated(target), key);
  }

  /** A request purges, may take time, and may store one answer. */
  lemma AskShape(hash: Hash, ttl: nat, engines: set<string>, s: State, q: Request, op: Operation, reply: Reply)
    ensures
      var after := Ask(hash, ttl, engines, s, q, op, reply).0;
      var purged := s.(cache := Fresh(s.cache, s.clock, ttl), clock := s.clock + reply.delay);
      || after == purged.(clock := s.clock + 0)
      || after == purged
      || (reply.result.Ok? && var answer := reply.result.value;
          after == State(purged.clock, purged.cache[KeyOf(hash, q, op) := CacheEntry(purged.clock, Wrap(op, answer))],
                         purged.log + [Answered(q, op, answer, purged.clock)]))
  {
  }

  lemma NextKeepsKeyInv(hash: Hash, ttl: nat, engines: set<string>, s: State, a: Action, key: CacheKey)
    requires KeyInv(hash, ttl, s, key)
    ensures KeyInv(hash, ttl, Next(hash, ttl, engines, s, a), key)
  {
    match a
    case Query(q, op, reply) =>
      AskShape(hash, ttl, engines, s, q, op, reply);
      PurgeKeepsKeyInv(hash, ttl, s, key, 0);
      PurgeKeepsKeyInv(hash, ttl, s, key, reply.delay);
      if reply.result.Ok? {
        var purged := s.(cache := Fresh(s.cache, s.clock, ttl), clock := s.clock + reply.delay);
        StoreKeepsKeyInv(hash, ttl, purged, key, q, op, reply.result.value);
      }
    case Forget(target) => ForgetKeepsKeyInv(hash, ttl, s, key, target);
    case Tick(_) =>
  }

  lemma {:induction false} ReachableInv(hash: Hash, ttl: nat, engines: set<string>, start: int, actions: seq<Action>)
    ensures Inv(hash, ttl, Run(hash, ttl, engines, State(start, map[], []), actions))
  {
    if actions != [] {
      var front := actions[..|actions| - 1];
      ReachableInv(hash, ttl, engines, start, front);
      var s := Run(hash, ttl, engines, State(start, map[], []), front);
      var t := Next(hash, ttl, engines, s, actions[|actions| - 1]);
      forall key ensures KeyInv(hash, ttl, t, key) {
        assert KeyInv(hash, ttl, s, key);
        NextKeepsKeyInv(hash, ttl, engines, s, actions[|actions| - 1], key);
      }
    }
  }

  /**
    The cache agrees with the adapter, over every sequential run and for an injective hash: a
    request is served from the cache exactly when the latest answer to the very same request,
    not followed by an invalidation of its target, is at most one TTL old, and then that answer
    is returned; otherwise the adapter's own reply is, if the engine is known. An answer is served
    from the cache at once. Every cached entry has the variant its operation looks for.
  */
  lemma CacheAgreesWithAdapter(hash: Hash, ttl: nat, engines: set<string>, start: int, actions: seq<Action>,
                               q: Request, op: Operation, reply: Reply, again: Reply)
    requires forall p, p' :: hash(p) == hash(p') ==> p == p'
    ensures
      var s := Run(hash, ttl, engines, State(start, map[], []), actions);
      var (after, r, hit) := Ask(hash, ttl, engines, s, q, op, reply);
      var latest := Latest(hash, s.log, KeyOf(hash, q, op));
      && (hit <==> latest.Some? && s.clock - latest.value.at <= ttl)
      && (latest.Some? ==> latest.value.request == q && latest.value.op == op)
      && (hit ==> r == Ok(latest.value.answer))
      && (!hit ==> r == if q.engine in engines then reply.result else Err("adapter_not_found"))
      && (r.Ok? ==> Ask(hash, ttl, engines, after, q, op, again).1 == r && Ask(hash, ttl, engines, after, q, op, again).2)
      && (forall key :: key in s.cache ==> Suits(key.operation, s.cache[key].value))
  {
    ReachableInv(hash, ttl, engines, start, actions);
    var s := Run(hash, ttl, engines, State(start, map[], []), actions);
    assert KeyInv(hash, ttl, s, KeyOf(hash, q, op));
    forall key | key in s.cache ensures Suits(key.operation, s.cache[key].value) {
      assert KeyInv(hash, ttl, s, key);
    }
  }
}
