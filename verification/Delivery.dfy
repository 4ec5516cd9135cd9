/** Subscription delivery and its stale fallback (src/routes/subscriptions.ts). */
module Delivery {
  import opened Wrappers
  import opened JsonTree

  const SUB_CACHE_TTL_MS := 24 * 60 * 60 * 1000
  const SUB_CACHE_WRITE_INTERVAL_MS := 300000

  datatype Subscription = Subscription(id: string, token: string, active: bool)

  /** The `subcache:` entry of a path. */
  datatype CacheEntry = CacheEntry(tokenHash: string, active: bool, config: Json, expireAt: int)

  datatype Response =
    | Fresh(config: Json)
    | Stale(config: Json)
    | Unauthorized
    | NotFound
    | Forbidden
    | TooMany
    | ServerError
    | Unavailable

  /** How producing a document went: rendered, refused by the engine, without configs, or D1 lost on the way. */
  datatype Outcome = Produced(config: Json) | Failed | KvLost | D1Lost

  /**
   * What the surroundings do during one request: the row lookup, the limiter, the rendering, and whether
   * a cache read, write or delete succeeds.
   */
  datatype Surroundings = Surroundings(
    row: Option<Option<Subscription>>,
    limited: bool,
    outcome: Outcome,
    cacheRead: bool,
    cacheWrite: bool,
    cacheDelete: bool
  )

  /** A document delivered with status 200. */
  datatype Sent = Sent(path: string, token: string, config: Json, at: int)

  predicate Live(cache: map<string, CacheEntry>, path: string, now: int) {
    path in cache && now < cache[path].expireAt
  }

  class Endpoint {
    var cache: map<string, CacheEntry>
    var writeAt: map<string, int>
    /** Every fresh delivery so far. */
    ghost var log: seq<Sent>
    const hash: string -> string

    constructor (hash: string -> string)
      ensures Valid() && log == [] && cache == map[] && this.hash == hash
    {
      this.hash := hash;
      cache, writeAt, log := map[], map[], [];
    }

    /** Each cache entry repeats a logged delivery, made one cache lifetime before it expires. */
    ghost predicate Valid()
      reads this
    {
      forall path | path in cache :: Backed(cache[path], path, log, hash)
    }

    /** Written at most once per interval and path; a failed write still counts. */
    method WriteDeliveryCache(path: string, token: string, active: bool, config: Json, now: int, ok: bool)
      modifies this`cache, this`writeAt
      ensures writeAt == if Throttled(old(writeAt), path, now) then old(writeAt) else old(writeAt)[path := now]
      ensures cache == if Throttled(old(writeAt), path, now) || !ok then old(cache)
                       else old(cache)[path := CacheEntry(hash(token), active, config, now + SUB_CACHE_TTL_MS)]
    {
      var last := if path in writeAt then writeAt[path] else 0;
      if now - last < SUB_CACHE_WRITE_INTERVAL_MS { return; }
      writeAt := writeAt[path := now];
      if ok {
        cache := cache[path := CacheEntry(hash(token), active, config, now + SUB_CACHE_TTL_MS)];
      }
    }

    method ServeStaleDelivery(path: string, token: string, now: int, readable: bool) returns (config: Option<Json>)
      ensures config == StaleConfig(cache, path, hash(token), now, readable)
    {
      if !readable || path !in cache || cache[path].expireAt <= now { return None; }
      var entry := cache[path];
      if !entry.active { return None; }
      if entry.tokenHash == "" || entry.tokenHash != hash(token) { return None; }
      config := Some(entry.config);
    }

    method Deliver(path: string, token: string, now: int, s: Surroundings) returns (r: Response)
      requires Valid()
      modifies this
      ensures Valid()
      ensures (r, cache, writeAt) == DeliverSpec(old(cache), old(writeAt), path, token, now, s, hash)
      ensures log == if r.Fresh? then old(log) + [Sent(path, token, r.config, now)] else old(log)
      ensures r.Stale? ==> exists sent | sent in old(log) ::
        sent.path == path && hash(sent.token) == hash(token) && sent.config == r.config && now < sent.at + SUB_CACHE_TTL_MS
    {
      if token == "" { return Unauthorized; }
      if s.row.None? {
        var stale := ServeStaleDelivery(path, token, now, s.cacheRead);
        return if stale.Some? then Stale(stale.value) else Unavailable;
      }
      if s.row.value.None? { return NotFound; }
      var sub := s.row.value.value;
      if token != sub.token { return Unauthorized; }
      if !sub.active {
        if s.cacheDelete {
          cache := cache - {path};
        }
        return Forbidden;
      }
      if s.limited { return TooMany; }
      if s.outcome.D1Lost? {
        var stale := ServeStaleDelivery(path, token, now, s.cacheRead);
        return if stale.Some? then Stale(stale.value) else Unavailable;
      }
      if s.outcome.KvLost? { return Unavailable; }
      if s.outcome.Failed? { return ServerError; }
      WriteDeliveryCache(path, token, sub.active, s.outcome.config, now, s.cacheWrite);
      log := log + [Sent(path, token, s.outcome.config, now)];
      assert log[|log| - 1] in log;
      r := Fresh(s.outcome.config);
    }
  }

  ghost predicate Backed(entry: CacheEntry, path: string, log: seq<Sent>, hash: string -> string) {
    exists sent | sent in log ::
      && sent.path == path && hash(sent.token) == entry.tokenHash && sent.config == entry.config
      && entry.expireAt == sent.at + SUB_CACHE_TTL_MS
  }

  predicate Throttled(writeAt: map<string, int>, path: string, now: int) {
    now - (if path in writeAt then writeAt[path] else 0) < SUB_CACHE_WRITE_INTERVAL_MS
  }

  function StaleConfig(cache: map<string, CacheEntry>, path: string, tokenHash: string, now: int, readable: bool)
    : Option<Json>
  {
    if readable && Live(cache, path, now) && cache[path].active && cache[path].tokenHash != "" && cache[path].tokenHash == tokenHash
    then Some(cache[path].config) else None
  }

  /** What a request answers and leaves in the cache and in the write times. */
  function DeliverSpec(cache: map<string, CacheEntry>, writeAt: map<string, int>, path: string, token: string, now: int,
                       s: Surroundings, hash: string -> string): (Response, map<string, CacheEntry>, map<string, int>)
  {
    var stale := StaleConfig(cache, path, hash(token), now, s.cacheRead);
    var fallback := if stale.Some? then Stale(stale.value) else Unavailable;
    if token == "" then (Unauthorized, cache, writeAt)
    else match s.row
      case None => (fallback, cache, writeAt)
      case Some(None) => (NotFound, cache, writeAt)
      case Some(Some(sub)) =>
        if token != sub.token then (Unauthorized, cache, writeAt)
        else if !sub.active then (Forbidden, if s.cacheDelete then cache - {path} else cache, writeAt)
        else if s.limited then (TooMany, cache, writeAt)
        else match s.outcome
          case D1Lost => (fallback, cache, writeAt)
          case KvLost => (Unavailable, cache, writeAt)
          case Failed => (ServerError, cache, writeAt)
          case Produced(config) =>
            if Throttled(writeAt, path, now) then (Fresh(config), cache, writeAt)
            else (Fresh(config),
              if s.cacheWrite then cache[path := CacheEntry(hash(token), true, config, now + SUB_CACHE_TTL_MS)] else cache,
              writeAt[path := now])
  }

  // ---- Runs ----------------------------------------------------------------

  datatype Request = Request(path: string, token: string, now: int, around: Surroundings)

  datatype State = State(cache: map<string, CacheEntry>, writeAt: map<string, int>)

  function Next(st: State, q: Request, hash: string -> string): (State, Response) {
    var d := DeliverSpec(st.cache, st.writeAt, q.path, q.token, q.now, q.around, hash);
    (State(d.1, d.2), d.0)
  }

  function Responses(st: State, run: seq<Request>, hash: string -> string): seq<Response>
    decreases |run|
  {
    if run == [] then [] else
      var step := Next(st, run[0], hash);
      [step.1] + Responses(step.0, run[1..], hash)
  }

  /** What a fresh delivery leaves in the log. */
  function LogOf(q: Request, r: Response): seq<Sent> {
    if r.Fresh? then [Sent(q.path, q.token, r.config, q.now)] else []
  }

  ghost predicate CacheBacked(st: State, log: seq<Sent>, hash: string -> string) {
    forall path | path in st.cache :: Backed(st.cache[path], path, log, hash)
  }

  lemma NextBacked(st: State, q: Request, hash: string -> string, log: seq<Sent>)
    requires CacheBacked(st, log, hash)
    ensures CacheBacked(Next(st, q, hash).0, log + LogOf(q, Next(st, q, hash).1), hash)
  {
    var t, r := Next(st, q, hash).0, Next(st, q, hash).1;
    var log' := log + LogOf(q, r);
    forall path | path in t.cache ensures Backed(t.cache[path], path, log', hash) {
      if path in st.cache && t.cache[path] == st.cache[path] {
        var sent :| sent in log && sent.path == path && hash(sent.token) == st.cache[path].tokenHash
          && sent.config == st.cache[path].config && st.cache[path].expireAt == sent.at + SUB_CACHE_TTL_MS;
        assert sent in log';
      } else {
        assert Sent(q.path, q.token, r.config, q.now) in log';
      }
    }
  }

  /** Some earlier request of the run was answered 200 with this document, for this path and token hash, within 24 hours. */
  ghost predicate DeliveredBefore(run: seq<Request>, responses: seq<Response>, k: nat, config: Json, hash: string -> string)
    requires k < |run| == |responses|
  {
    exists j: nat | j < k ::
      && responses[j] == Fresh(config) && run[j].path == run[k].path
      && hash(run[j].token) == hash(run[k].token) && run[k].now < run[j].now + SUB_CACHE_TTL_MS
  }

  lemma {:induction false} ResponsesCount(st: State, run: seq<Request>, hash: string -> string)
    ensures |Responses(st, run, hash)| == |run|
    decreases |run|
  {
    if run != [] { ResponsesCount(Next(st, run[0], hash).0, run[1..], hash); }
  }

  /** A logged delivery that a request may repeat. */
  ghost predicate Repeatable(sent: Sent, q: Request, config: Json, hash: string -> string) {
    && sent.path == q.path && hash(sent.token) == hash(q.token)
    && sent.config == config && q.now < sent.at + SUB_CACHE_TTL_MS
  }

  lemma StaleIsBacked(st: State, q: Request, hash: string -> string, log: seq<Sent>) returns (sent: Sent)
    requires CacheBacked(st, log, hash) && Next(st, q, hash).1.Stale?
    ensures sent in log && Repeatable(sent, q, Next(st, q, hash).1.config, hash)
  {
    var entry := st.cache[q.path];
    sent :| sent in log && sent.path == q.path && hash(sent.token) == entry.tokenHash && sent.config == entry.config
      && entry.expireAt == sent.at + SUB_CACHE_TTL_MS;
  }

  lemma {:induction false} StaleRepeatsLog(st: State, run: seq<Request>, hash: string -> string, log: seq<Sent>, k: nat)
    requires CacheBacked(st, log, hash) && k < |run|
    requires |Responses(st, run, hash)| == |run| && Responses(st, run, hash)[k].Stale?
    ensures var rs := Responses(st, run, hash);
      || (exists sent | sent in log :: Repeatable(sent, run[k], rs[k].config, hash))
      || DeliveredBefore(run, rs, k, rs[k].config, hash)
    decreases |run|
  {
    var step := Next(st, run[0], hash);
    var rs := Responses(st, run, hash);
    if k == 0 {
      var sent := StaleIsBacked(st, run[0], hash, log);
    } else {
      NextBacked(st, run[0], hash, log);
      ResponsesCount(step.0, run[1..], hash);
      var log' := log + LogOf(run[0], step.1);
      StaleRepeatsLog(step.0, run[1..], hash, log', k - 1);
      assert rs[1..] == Responses(step.0, run[1..], hash) && rs[0] == step.1;
      if sent :| sent in log' && Repeatable(sent, run[k], rs[k].config, hash) {
        if sent !in log {
          assert sent == Sent(run[0].path, run[0].token, step.1.config, run[0].now);
        }
      } else {
        LaterDelivery(run, rs, k, hash);
      }
    }
  }

  lemma LaterDelivery(run: seq<Request>, rs: seq<Response>, k: nat, hash: string -> string)
    requires 0 < k < |run| == |rs| && rs[k].Stale?
    requires DeliveredBefore(run[1..], rs[1..], k - 1, rs[k].config, hash)
    ensures DeliveredBefore(run, rs, k, rs[k].config, hash)
  {
    var j: nat :| j < k - 1 && rs[1..][j] == Fresh(rs[k].config) && run[1..][j].path == run[1..][k - 1].path
      && hash(run[1..][j].token) == hash(run[1..][k - 1].token) && run[1..][k - 1].now < run[1..][j].now + SUB_CACHE_TTL_MS;
    assert rs[j + 1] == rs[1..][j] && run[j + 1] == run[1..][j] && run[1..][k - 1] == run[k];
  }

  ghost predicate Injective(hash: string -> string) {
    forall a: string, b: string :: hash(a) == hash(b) ==> a == b
  }

  /** From an empty cache, a stale response repeats a document delivered less than 24 hours before for the same path and token. */
  lemma StaleRepeatsDelivery(run: seq<Request>, hash: string -> string, k: nat) returns (j: nat)
    requires Injective(hash) && k < |run|
    requires |Responses(State(map[], map[]), run, hash)| == |run| && Responses(State(map[], map[]), run, hash)[k].Stale?
    ensures var rs := Responses(State(map[], map[]), run, hash);
            && j < k && rs[j] == Fresh(rs[k].config) && run[j].path == run[k].path
            && run[j].token == run[k].token && run[k].now < run[j].now + 24 * 60 * 60 * 1000
  {
    var rs := Responses(State(map[], map[]), run, hash);
    StaleRepeatsLog(State(map[], map[]), run, hash, [], k);
    j :| j < k && rs[j] == Fresh(rs[k].config) && run[j].path == run[k].path
      && hash(run[j].token) == hash(run[k].token) && run[k].now < run[j].now + SUB_CACHE_TTL_MS;
  }

  /** Without an entry for the path, no stale response is given for it before the next fresh delivery. */
  lemma {:induction false} NoEntryNoStale(st: State, run: seq<Request>, hash: string -> string, path: string, k: nat)
    requires path !in st.cache && k < |run| && run[k].path == path
    requires |Responses(st, run, hash)| == |run|
    requires forall j | 0 <= j < k && run[j].path == path :: !Responses(st, run, hash)[j].Fresh?
    ensures !Responses(st, run, hash)[k].Stale?
    decreases |run|
  {
    var step := Next(st, run[0], hash);
    ResponsesHead(st, run, hash);
    if k == 0 {
      NoEntryStep(st, run[0], hash, path);
    } else {
      var rs, later := Responses(st, run, hash), Responses(step.0, run[1..], hash);
      assert run[0].path == path ==> !rs[0].Fresh?;
      NoEntryStep(st, run[0], hash, path);
      ResponsesCount(step.0, run[1..], hash);
      assert forall j | 0 <= j < k - 1 :: later[j] == rs[j + 1] && run[1..][j] == run[j + 1];
      NoEntryNoStale(step.0, run[1..], hash, path, k - 1);
    }
  }

  lemma ResponsesHead(st: State, run: seq<Request>, hash: string -> string)
    requires run != []
    ensures var step := Next(st, run[0], hash);
            Responses(st, run, hash) == [step.1] + Responses(step.0, run[1..], hash)
  {
  }

  lemma NoEntryStep(st: State, q: Request, hash: string -> string, path: string)
    requires path !in st.cache
    ensures q.path == path ==> !Next(st, q, hash).1.Stale?
    ensures q.path != path || !Next(st, q, hash).1.Fresh? ==> path !in Next(st, q, hash).0.cache
  {
  }

  /** After a 403 whose cache delete completed, no stale response for that path until a later fresh delivery. */
  lemma DisabledIsNotServedStale(st: State, off: Request, run: seq<Request>, hash: string -> string, k: nat)
    requires Next(st, off, hash).1 == Forbidden && off.around.cacheDelete
    requires k < |run| && run[k].path == off.path
    requires var rs := Responses(Next(st, off, hash).0, run, hash);
      |rs| == |run| && forall j | 0 <= j < k && run[j].path == off.path :: !rs[j].Fresh?
    ensures !Responses(Next(st, off, hash).0, run, hash)[k].Stale?
  {
    NoEntryNoStale(Next(st, off, hash).0, run, hash, off.path, k);
  }

  // ---- Each response, by its cause -----------------------------------------

  /** A token is presented, the subscription is found, and the token is its own. */
  predicate Presented(token: string, s: Surroundings) {
    token != "" && s.row != None && s.row.value != None && token == s.row.value.value.token
  }

  /** The subscription is active too, and the limiter lets the request pass. */
  predicate Admitted(token: string, s: Surroundings) {
    Presented(token, s) && s.row.value.value.active && !s.limited
  }

  /** D1 is lost at the row lookup or, for an admitted request, later on. */
  predicate Lost(token: string, s: Surroundings) {
    token != "" && (s.row == None || (Admitted(token, s) && s.outcome == D1Lost))
  }

  /** A readable entry of the path that has not expired, was active, and was delivered to this token. */
  predicate Repeats(cache: map<string, CacheEntry>, path: string, token: string, now: int, s: Surroundings,
                    hash: string -> string, config: Json)
  {
    && s.cacheRead && path in cache && cache[path].active && cache[path].config == config
    && cache[path].tokenHash == hash(token) != "" && now < cache[path].expireAt
  }

  /** Exactly when each response is given. */
  lemma ResponseMeans(cache: map<string, CacheEntry>, writeAt: map<string, int>, path: string, token: string, now: int,
                      s: Surroundings, hash: string -> string, config: Json)
    ensures var r := DeliverSpec(cache, writeAt, path, token, now, s, hash).0;
            && (r == Fresh(config) <==> Admitted(token, s) && s.outcome == Produced(config))
            && (r == Stale(config) <==> Lost(token, s) && Repeats(cache, path, token, now, s, hash, config))
            && (r == Unauthorized <==>
                  token == "" || (s.row != None && s.row.value != None && token != s.row.value.value.token))
            && (r == NotFound <==> token != "" && s.row == Some(None))
            && (r == Forbidden <==> Presented(token, s) && !s.row.value.value.active)
            && (r == TooMany <==> Presented(token, s) && s.row.value.value.active && s.limited)
            && (r == ServerError <==> Admitted(token, s) && s.outcome == Failed)
            && (r == Unavailable <==>
                  || (Admitted(token, s) && s.outcome == KvLost)
                  || (Lost(token, s) && !exists stale :: Repeats(cache, path, token, now, s, hash, stale)))
  {
    var r := DeliverSpec(cache, writeAt, path, token, now, s, hash).0;
    if path in cache && Repeats(cache, path, token, now, s, hash, cache[path].config) {
      assert StaleConfig(cache, path, hash(token), now, s.cacheRead) == Some(cache[path].config);
    } else {
      assert StaleConfig(cache, path, hash(token), now, s.cacheRead) == None;
    }
  }

  /**
   * What each request does to the cache: a fresh delivery, five minutes after the last, stores its document for
   * 24 hours under the token's hash; a disabled subscription loses its entry; nothing else changes.
   */
  lemma CacheMeans(cache: map<string, CacheEntry>, writeAt: map<string, int>, path: string, token: string, now: int,
                   s: Surroundings, hash: string -> string, other: string)
    ensures var (r, after, times) := DeliverSpec(cache, writeAt, path, token, now, s, hash);
            var due := r.Fresh? && now - (if path in writeAt then writeAt[path] else 0) >= 5 * 60 * 1000;
            && (due && s.cacheWrite ==>
                  path in after && after[path] == CacheEntry(hash(token), true, r.config, now + 24 * 60 * 60 * 1000))
            && (r == Forbidden && s.cacheDelete ==> path !in after)
            && (other != path || !((due && s.cacheWrite) || (r == Forbidden && s.cacheDelete)) ==>
                  ((other in after <==> other in cache) && (other in cache ==> after[other] == cache[other])))
            && times == if due then writeAt[path := now] else writeAt
  {
  }
}
