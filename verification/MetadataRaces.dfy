/**
  The metadata cache with several requests under way: a lookup that misses asks the adapter and
  stores the answer later, and other lookups and invalidations may come in between.
*/
module MetadataRaces {
  import opened Outcomes
  import opened MetadataCache

  /** A request that missed; `asked` is how much had been logged by then. */
  datatype Fetch = Fetch(request: Request, op: Operation, asked: nat)

  datatype Entry = Entered(fetch: Fetch, answer: Answer, at: int) | Dropped(target: string)

  datatype Service = Service(clock: int, cache: map<CacheKey, CacheEntry>, pending: map<nat, Fetch>, log: seq<Entry>)

  /** The answer the cache gives, after dropping what has outlived the TTL. */
  function Cached(hash: Hash, ttl: nat, s: Service, q: Request, op: Operation): Option<Answer> {
    var cache, key := Fresh(s.cache, s.clock, ttl), KeyOf(hash, q, op);
    if key in cache && Suits(op, cache[key].value) then Some(cache[key].value.a) else None
  }

  datatype Move =
    | Begin(id: nat, q: Request, op: Operation)
    | Complete(id: nat, result: Result<Answer, string>)
    | Discard(target: string)
    | Pass(elapsed: nat)

  function Apply(hash: Hash, ttl: nat, engines: set<string>, s: Service, m: Move): Service {
    match m
    case Begin(id, q, op) =>
      var purged := s.(cache := Fresh(s.cache, s.clock, ttl));
      if id in s.pending || Cached(hash, ttl, s, q, op).Some? || q.engine !in engines then purged
      else purged.(pending := s.pending[id := Fetch(q, op, |s.log|)])
    case Complete(id, result) =>
      if id !in s.pending then s
      else if result.Err? then s.(pending := s.pending - {id})
      else Insert(hash, s.(pending := s.pending - {id}), s.pending[id], result.value)
    case Discard(target) =>
      s.(cache := map key | key in s.cache && key.target != target :: s.cache[key], log := s.log + [Dropped(target)])
    case Pass(elapsed) => s.(clock := s.clock + elapsed)
  }

  function Insert(hash: Hash, s: Service, f: Fetch, answer: Answer): Service {
    s.(cache := s.cache[KeyOf(hash, f.request, f.op) := CacheEntry(s.clock, Wrap(f.op, answer))],
       log := s.log + [Entered(f, answer, s.clock)])
  }

  function Play(hash: Hash, ttl: nat, engines: set<string>, s: Service, moves: seq<Move>): Service {
    if moves == [] then s
    else Apply(hash, ttl, engines, Play(hash, ttl, engines, s, moves[..|moves| - 1]), moves[|moves| - 1])
  }

  function Idle(start: int): Service {
    Service(start, map[], map[], [])
  }

  // ---- the same cache as in sequential runs ----

  function EventOf(e: Entry): Event {
    match e
    case Entered(f, answer, at) => Answered(f.request, f.op, answer, at)
    case Dropped(target) => Invalidated(target)
  }

  function Events(log: seq<Entry>): seq<Event> {
    seq(|log|, i requires 0 <= i < |log| => EventOf(log[i]))
  }

  function View(s: Service): State {
    State(s.clock, s.cache, Events(s.log))
  }

  lemma EventsAppend(log: seq<Entry>, e: Entry)
    ensures Events(log + [e]) == Events(log) + [EventOf(e)]
  {
  }

  /** The latest stored answer for a key that no invalidation of its target has followed. */
  function Standing(hash: Hash, log: seq<Entry>, key: CacheKey): (r: Option<Entry>)
    ensures r.Some? ==> r.value.Entered?
  {
    if log == [] then None
    else
      var last := log[|log| - 1];
      if last.Entered? && KeyOf(hash, last.fetch.request, last.fetch.op) == key then Some(last)
      else if last.Dropped? && last.target == key.target then None
      else Standing(hash, log[..|log| - 1], key)
  }

  lemma StandingAppend(hash: Hash, log: seq<Entry>, e: Entry, key: CacheKey)
    ensures Standing(hash, log + [e], key) ==
      if e.Entered? && KeyOf(hash, e.fetch.request, e.fetch.op) == key then Some(e)
      else if e.Dropped? && e.target == key.target then None
      else Standing(hash, log, key)
  {
    assert (log + [e])[..|log|] == log;
  }

  lemma {:induction false} StandingIsLatest(hash: Hash, log: seq<Entry>, key: CacheKey)
    ensures Latest(hash, Events(log), key) ==
      if Standing(hash, log, key).Some? then Some(EventOf(Standing(hash, log, key).value)) else None
  {
    if log != [] {
      var n := |log| - 1;
      assert log == log[..n] + [log[n]];
      StandingIsLatest(hash, log[..n], key);
      EventsAppend(log[..n], log[n]);
      LatestAppend(hash, Events(log[..n]), EventOf(log[n]), key);
    }
  }

  lemma MoveKeepsKeyInv(hash: Hash, ttl: nat, engines: set<string>, s: Service, m: Move, key: CacheKey)
    requires KeyInv(hash, ttl, View(s), key)
    ensures KeyInv(hash, ttl, View(Apply(hash, ttl, engines, s, m)), key)
  {
    match m
    case Begin(_, _, _) => PurgeKeepsKeyInv(hash, ttl, View(s), key, 0);
    case Complete(id, result) =>
      if id in s.pending && result.Ok? {
        var f := s.pending[id];
        EventsAppend(s.log, Entered(f, result.value, s.clock));
        StoreKeepsKeyInv(hash, ttl, View(s), key, f.request, f.op, result.value);
      }
    case Discard(target) =>
      EventsAppend(s.log, Dropped(target));
      ForgetKeepsKeyInv(hash, ttl, View(s), key, target);
    case Pass(_) =>
  }

  lemma {:induction false} PlayKeepsKeyInv(hash: Hash, ttl: nat, engines: set<string>, start: int, moves: seq<Move>, key: CacheKey)
    ensures KeyInv(hash, ttl, View(Play(hash, ttl, engines, Idle(start), moves)), key)
  {
    if moves == [] {
      assert Events([]) == [];
    } else {
      var front := moves[..|moves| - 1];
      PlayKeepsKeyInv(hash, ttl, engines, start, front, key);
      MoveKeepsKeyInv(hash, ttl, engines, Play(hash, ttl, engines, Idle(start), front), moves[|moves| - 1], key);
    }
  }

  /**
    Under every interleaving a request is served from the cache exactly when the answer stored last
    for its key, not followed by an invalidation of its target, is at most one TTL old, and then that
    answer is returned.
  */
  lemma HitsAreStanding(hash: Hash, ttl: nat, engines: set<string>, start: int, moves: seq<Move>, q: Request, op: Operation)
    ensures
      var s := Play(hash, ttl, engines, Idle(start), moves);
      var standing := Standing(hash, s.log, KeyOf(hash, q, op));
      Cached(hash, ttl, s, q, op) ==
        if standing.Some? && s.clock - standing.value.at <= ttl then Some(standing.value.answer) else None
  {
    var s := Play(hash, ttl, engines, Idle(start), moves);
    PlayKeepsKeyInv(hash, ttl, engines, start, moves, KeyOf(hash, q, op));
    StandingIsLatest(hash, s.log, KeyOf(hash, q, op));
  }

  /** A request whose steps nothing separates is the sequential one. */
  lemma UninterruptedIsSequential(hash: Hash, ttl: nat, engines: set<string>, s: Service, id: nat, q: Request, op: Operation, reply: Reply)
    requires id !in s.pending && Cached(hash, ttl, s, q, op).None? && q.engine in engines
    ensures
      var begun := Apply(hash, ttl, engines, s, Begin(id, q, op));
      var done := Apply(hash, ttl, engines, Apply(hash, ttl, engines, begun, Pass(reply.delay)), Complete(id, reply.result));
      View(done) == Ask(hash, ttl, engines, View(s), q, op, reply).0 && done.pending == s.pending
  {
    if reply.result.Ok? {
      EventsAppend(s.log, Entered(Fetch(q, op, |s.log|), reply.result.value, s.clock + reply.delay));
    }
  }

  // ---- what an invalidation achieves ----

  /** From the state `s` on, every hit for `target` was requested when at least `n` events had been logged. */
  ghost predicate OnlyNewHits(hash: Hash, ttl: nat, engines: set<string>, s: Service, target: string, n: nat) {
    forall moves: seq<Move>, q: Request, op: Operation ::
      q.target == target && Cached(hash, ttl, Play(hash, ttl, engines, s, moves), q, op).Some? ==>
        NewHit(hash, Play(hash, ttl, engines, s, moves), KeyOf(hash, q, op), n)
  }

  predicate NewHit(hash: Hash, s: Service, key: CacheKey, n: nat) {
    var standing := Standing(hash, s.log, key);
    standing.Some? && standing.value.fetch.asked >= n
  }

  /** No request for `target` is waiting for its adapter. */
  predicate NoneUnderWay(s: Service, target: string) {
    forall id :: id in s.pending ==> s.pending[id].request.target != target
  }

  /** Every answer for `target` that stands or is under way was requested late enough. */
  ghost predicate AllNew(hash: Hash, s: Service, target: string, n: nat) {
    && n <= |s.log|
    && (forall id :: id in s.pending && s.pending[id].request.target == target ==> s.pending[id].asked >= n)
    && (forall key: CacheKey :: key.target == target && Standing(hash, s.log, key).Some? ==> NewHit(hash, s, key, n))
  }

  lemma MoveKeepsAllNew(hash: Hash, ttl: nat, engines: set<string>, s: Service, m: Move, target: string, n: nat)
    requires AllNew(hash, s, target, n)
    ensures AllNew(hash, Apply(hash, ttl, engines, s, m), target, n)
  {
    var t := Apply(hash, ttl, engines, s, m);
    forall key: CacheKey | key.target == target && Standing(hash, t.log, key).Some? ensures NewHit(hash, t, key, n) {
      if t.log != s.log {
        StandingAppend(hash, s.log, t.log[|s.log|], key);
      }
    }
  }

  lemma {:induction false} PlayKeepsAllNew(hash: Hash, ttl: nat, engines: set<string>, s: Service, moves: seq<Move>, target: string, n: nat)
    requires AllNew(hash, s, target, n)
    ensures AllNew(hash, Play(hash, ttl, engines, s, moves), target, n)
  {
    if moves != [] {
      var front := moves[..|moves| - 1];
      PlayKeepsAllNew(hash, ttl, engines, s, front, target, n);
      MoveKeepsAllNew(hash, ttl, engines, Play(hash, ttl, engines, s, front), moves[|moves| - 1], target, n);
    }
  }

  lemma {:induction false} AskedBefore(hash: Hash, ttl: nat, engines: set<string>, start: int, moves: seq<Move>, id: nat)
    ensures
      var s := Play(hash, ttl, engines, Idle(start), moves);
      id in s.pending ==> s.pending[id].asked <= |s.log|
  {
    if moves != [] {
      AskedBefore(hash, ttl, engines, start, moves[..|moves| - 1], id);
    }
  }

  /** An answer that was under way is stored after the invalidation and served from then on. */
  lemma LateAnswerIsServed(hash: Hash, ttl: nat, engines: set<string>, s: Service, id: nat, answer: Answer, n: nat)
    requires id in s.pending && s.pending[id].asked < n
    ensures
      var f := s.pending[id];
      var t := Play(hash, ttl, engines, s, [Complete(id, Ok(answer))]);
      && Cached(hash, ttl, t, f.request, f.op) == Some(answer)
      && !NewHit(hash, t, KeyOf(hash, f.request, f.op), n)
  {
    var f := s.pending[id];
    assert Play(hash, ttl, engines, s, []) == s;
    StandingAppend(hash, s.log, Entered(f, answer, s.clock), KeyOf(hash, f.request, f.op));
  }

  /**
    Exactly what an invalidation achieves, from every reachable state: all later hits for the target
    are answers requested after it if and only if no request for that target was under way.
  */
  lemma InvalidationHoldsExactly(hash: Hash, ttl: nat, engines: set<string>, start: int, moves: seq<Move>, target: string)
    ensures
      var s := Play(hash, ttl, engines, Idle(start), moves);
      var t := Apply(hash, ttl, engines, s, Discard(target));
      OnlyNewHits(hash, ttl, engines, t, target, |t.log|) <==> NoneUnderWay(s, target)
  {
    var s := Play(hash, ttl, engines, Idle(start), moves);
    var t := Apply(hash, ttl, engines, s, Discard(target));
    if NoneUnderWay(s, target) {
      forall more: seq<Move>, q: Request, op: Operation
        | q.target == target && Cached(hash, ttl, Play(hash, ttl, engines, t, more), q, op).Some?
        ensures NewHit(hash, Play(hash, ttl, engines, t, more), KeyOf(hash, q, op), |t.log|)
      {
        HitIsNew(hash, ttl, engines, start, moves, target, more, q, op);
      }
    } else {
      var id :| id in s.pending && s.pending[id].request.target == target;
      AskedBefore(hash, ttl, engines, start, moves, id);
      LateAnswerIsServed(hash, ttl, engines, t, id, [], |t.log|);
      var f := s.pending[id];
      var late := Play(hash, ttl, engines, t, [Complete(id, Ok([]))]);
      assert Cached(hash, ttl, late, f.request, f.op).Some? && !NewHit(hash, late, KeyOf(hash, f.request, f.op), |t.log|);
    }
  }

  lemma NewAfterInvalidation(hash: Hash, ttl: nat, engines: set<string>, s: Service, target: string)
    requires NoneUnderWay(s, target)
    ensures var t := Apply(hash, ttl, engines, s, Discard(target)); AllNew(hash, t, target, |t.log|)
  {
    forall key: CacheKey | key.target == target ensures Standing(hash, s.log + [Dropped(target)], key).None? {
      StandingAppend(hash, s.log, Dropped(target), key);
    }
  }

  lemma {:induction false} PlayConcat(hash: Hash, ttl: nat, engines: set<string>, s: Service, a: seq<Move>, b: seq<Move>)
    ensures Play(hash, ttl, engines, s, a + b) == Play(hash, ttl, engines, Play(hash, ttl, engines, s, a), b)
  {
    if b == [] {
      assert a + b == a;
    } else {
      var n := |b| - 1;
      assert (a + b)[..|a + b| - 1] == a + b[..n];
      PlayConcat(hash, ttl, engines, s, a, b[..n]);
    }
  }

  lemma HitIsNew(hash: Hash, ttl: nat, engines: set<string>, start: int, moves: seq<Move>, target: string, more: seq<Move>, q: Request, op: Operation)
    requires NoneUnderWay(Play(hash, ttl, engines, Idle(start), moves), target) && q.target == target
    requires
      var t := Apply(hash, ttl, engines, Play(hash, ttl, engines, Idle(start), moves), Discard(target));
      Cached(hash, ttl, Play(hash, ttl, engines, t, more), q, op).Some?
    ensures
      var t := Apply(hash, ttl, engines, Play(hash, ttl, engines, Idle(start), moves), Discard(target));
      NewHit(hash, Play(hash, ttl, engines, t, more), KeyOf(hash, q, op), |t.log|)
  {
    var s := Play(hash, ttl, engines, Idle(start), moves);
    var t := Apply(hash, ttl, engines, s, Discard(target));
    NewAfterInvalidation(hash, ttl, engines, s, target);
    PlayKeepsAllNew(hash, ttl, engines, t, more, target, |t.log|);
    assert (moves + [Discard(target)])[..|moves|] == moves;
    PlayConcat(hash, ttl, engines, Idle(start), moves + [Discard(target)], more);
    HitsAreStanding(hash, ttl, engines, start, moves + [Discard(target)] + more, q, op);
  }
}
