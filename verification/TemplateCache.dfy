/** The shared template cache (src/engine/registry.ts) and the routes that write templates. */
module TemplateCache {
  import opened Wrappers
  import opened JsonTree

  const CACHE_TTL_MS := 30000

  datatype Template = Template(category: string, content: string)

  type Table = map<string, Template>

  /** `valid`: the row passes the schema; `parse`: JSON.parse, None where it throws. */
  datatype Parsing = Parsing(valid: Template -> bool, parse: string -> Option<Json>)

  datatype Cache = Cache(templates: Table, parsed: map<string, Json>, loadedAt: int)

  const EMPTY_CACHE := Cache(map[], map[], 0)

  predicate AllValid(db: Table, p: Parsing) {
    forall id | id in db :: p.valid(db[id])
  }

  predicate StillFresh(c: Cache, now: int) {
    c.loadedAt != 0 && now - c.loadedAt < CACHE_TTL_MS
  }

  // ---- Writing templates ---------------------------------------------------

  /** The two route files; only the overall templates have their text checked. */
  datatype Route = Protocols | Overalls

  predicate InRoute(route: Route, category: string) {
    (category == "protocol") == route.Protocols?
  }

  datatype Reply = NotFound | Broken | Document(tree: Json) | BadJson | DuplicateId | Written

  /** A render reads the template's document; `Seed` is one upsert of the seed route, which does not invalidate. */
  datatype Request =
    | Render(id: string)
    | Create(route: Route, id: string, template: Template)
    | Update(route: Route, id: string, content: Option<string>, others: bool)
    | Drop(route: Route, id: string)
    | Seed(id: string, template: Template)

  predicate Unparsable(route: Route, content: string, p: Parsing) {
    route.Overalls? && p.parse(content).None?
  }

  /** The table after a write, the reply, and whether the cache is dropped. */
  function Write(db: Table, request: Request, p: Parsing): (Table, Reply, bool)
    requires !request.Render?
  {
    match request
    case Create(route, id, template) =>
      if Unparsable(route, template.content, p) then (db, BadJson, false)
      else if id in db then (db, DuplicateId, false)
      else (db[id := template], Written, true)
    case Update(route, id, content, others) =>
      if id !in db || !InRoute(route, db[id].category) then (db, NotFound, false)
      else if content.Some? && Unparsable(route, content.value, p) then (db, BadJson, false)
      else if content.None? && !others then (db, Written, false)
      else (db[id := db[id].(content := content.GetOr(db[id].content))], Written, true)
    case Drop(route, id) =>
      if id !in db || !InRoute(route, db[id].category) then (db, NotFound, false) else (db - {id}, Written, true)
    case Seed(id, template) => (db[id := template], Written, false)
  }

  /** The template of an id, as the table has it. */
  function TemplateOf(db: Table, id: string): Option<Template> {
    if id in db then Some(db[id]) else None
  }

  /** A template is created once, and an overall template only with readable text. */
  lemma CreateMeans(db: Table, route: Route, id: string, template: Template, p: Parsing, other: string)
    ensures var (after, r, dropped) := Write(db, Create(route, id, template), p);
            var unreadable := route == Overalls && p.parse(template.content) == None;
            && (r == BadJson <==> unreadable) && (r == DuplicateId <==> !unreadable && id in db)
            && (r == Written <==> !unreadable && id !in db) && (dropped <==> r == Written)
            && TemplateOf(after, other) == if r == Written && other == id then Some(template) else TemplateOf(db, other)
  {
  }

  /** An update changes the text only of a template of its own kind that exists, to readable text for an overall template. */
  lemma UpdateMeans(db: Table, route: Route, id: string, content: Option<string>, others: bool, p: Parsing, other: string)
    ensures var (after, r, dropped) := Write(db, Update(route, id, content, others), p);
            var known := id in db && (db[id].category == "protocol" <==> route == Protocols);
            var unreadable := route == Overalls && content != None && p.parse(content.value) == None;
            && (r == NotFound <==> !known) && (r == BadJson <==> known && unreadable)
            && (r == Written <==> known && !unreadable) && (dropped <==> r == Written && (content != None || others))
            && TemplateOf(after, other) ==
                 if r == Written && content != None && other == id then Some(Template(db[id].category, content.value))
                 else TemplateOf(db, other)
  {
  }

  /** A template is deleted by the route of its kind; seeding writes over whatever is there and keeps the cache. */
  lemma DropAndSeedMean(db: Table, route: Route, id: string, template: Template, p: Parsing, other: string)
    ensures var (after, r, dropped) := Write(db, Drop(route, id), p);
            var known := id in db && (db[id].category == "protocol" <==> route == Protocols);
            && r == (if known then Written else NotFound) && dropped == known
            && TemplateOf(after, other) == if known && other == id then None else TemplateOf(db, other)
    ensures var (after, r, dropped) := Write(db, Seed(id, template), p);
            && r == Written && !dropped
            && TemplateOf(after, other) == if other == id then Some(template) else TemplateOf(db, other)
  {
  }

  /** A render without a cache: the readable document of a template in a table of valid rows. */
  lemma RenderMeans(db: Table, id: string, p: Parsing, tree: Json)
    ensures var r := DirectStep(db, Render(id), p).1;
            && (r == Broken <==> (exists k | k in db :: !p.valid(db[k])) || (id in db && p.parse(db[id].content) == None))
            && (r == NotFound <==> id !in db && forall k | k in db :: p.valid(db[k]))
            && (r == Document(tree) <==>
                  id in db && p.parse(db[id].content) == Some(tree) && forall k | k in db :: p.valid(db[k]))
  {
  }

  class Registry {
    var db: Table
    var cache: Cache
    const p: Parsing
    /** The table as it was at `cache.loadedAt`. */
    ghost var loaded: Table

    constructor (p: Parsing)
      ensures db == map[] && cache == EMPTY_CACHE && this.p == p && forall now :: Valid(now)
    {
      this.p := p;
      db, cache, loaded := map[], EMPTY_CACHE, map[];
    }

    /** A fresh cache is the table of its load time, with parses of its rows. */
    ghost predicate Valid(now: int)
      reads this
    {
      StillFresh(cache, now) ==> cache.templates == loaded && AllValid(loaded, p) && ParsesOf(cache, p)
    }

    /** Reloads unless the cache is fresh; a row that fails the schema stops the load half way. */
    method LoadAll(now: int) returns (ok: bool)
      requires Valid(now)
      modifies this`cache, this`loaded
      ensures Valid(now)
      ensures StillFresh(old(cache), now) ==> ok && cache == old(cache) && loaded == old(loaded)
      ensures !StillFresh(old(cache), now) ==> ok == AllValid(db, p)
      ensures !StillFresh(old(cache), now) && ok ==> cache == Cache(db, map[], now) && loaded == db
      ensures ok && now != 0 ==> cache.templates == loaded && now - cache.loadedAt < CACHE_TTL_MS
      ensures !ok ==> cache.loadedAt == old(cache).loadedAt && cache.parsed == map[]
    {
      if cache.loadedAt != 0 && now - cache.loadedAt < CACHE_TTL_MS { return true; }
      cache := cache.(templates := map[], parsed := map[]);
      var rest := db.Keys;
      while rest != {}
        invariant rest <= db.Keys
        invariant cache == Cache(map id | id in db && id !in rest :: db[id], map[], old(cache).loadedAt)
        invariant forall id | id in db && id !in rest :: p.valid(db[id])
        decreases rest
      {
        var id :| id in rest;
        if !p.valid(db[id]) { return false; }
        cache := cache.(templates := cache.templates[id := db[id]]);
        rest := rest - {id};
      }
      assert cache.templates == db;
      cache := cache.(loadedAt := now);
      loaded := db;
      ok := true;
    }

    /** The parsed document of a cached template, parsed at most once per load. */
    method Parsed(id: string) returns (r: Reply)
      modifies this`cache
      ensures (cache, r) == ParsedSpec(old(cache), id, p)
    {
      if id in cache.parsed { return Document(cache.parsed[id]); }
      if id !in cache.templates { return NotFound; }
      var tree := p.parse(cache.templates[id].content);
      if tree.None? { return Broken; }
      cache := cache.(parsed := cache.parsed[id := tree.value]);
      r := Document(tree.value);
    }

    method InvalidateTemplateCache()
      modifies this`cache
      ensures cache == EMPTY_CACHE
    {
      cache := EMPTY_CACHE;
    }

    method Rendered(id: string, now: int) returns (r: Reply, ghost half: Table)
      requires Valid(now)
      modifies this`cache, this`loaded
      ensures Valid(now)
      ensures (db, cache, r) == CachedStep(db, old(cache), Render(id), now, half, p)
    {
      var ok := LoadAll(now);
      half := cache.templates;
      if !ok { return Broken, half; }
      r := Parsed(id);
    }

    method WriteTemplate(request: Request) returns (r: Reply)
      requires !request.Render?
      modifies this`db, this`cache
      ensures var w := Write(old(db), request, p);
              db == w.0 && r == w.1 && cache == if w.2 then EMPTY_CACHE else old(cache)
    {
      match request {
        case Create(route, id, template) =>
          if Unparsable(route, template.content, p) { return BadJson; }
          if id in db { return DuplicateId; }
          db := db[id := template];
          InvalidateTemplateCache();
        case Update(route, id, content, others) =>
          if id !in db || !InRoute(route, db[id].category) { return NotFound; }
          if content.Some? {
            if Unparsable(route, content.value, p) { return BadJson; }
            db := db[id := db[id].(content := content.value)];
          }
          if content.Some? || others { InvalidateTemplateCache(); }
          assert content.None? ==> db[id := db[id]] == db;
        case Drop(route, id) =>
          if id !in db || !InRoute(route, db[id].category) { return NotFound; }
          db := db - {id};
          InvalidateTemplateCache();
        case Seed(id, template) =>
          db := db[id := template];
      }
      r := Written;
    }

    method Serve(request: Request, now: int) returns (r: Reply)
      requires Valid(now)
      modifies this
      ensures Valid(now)
      ensures exists half :: (db, cache, r) == CachedStep(old(db), old(cache), request, now, half, p)
    {
      ghost var table, before := db, cache;
      if request.Render? {
        ghost var half;
        r, half := Rendered(request.id, now);
        assert (db, cache, r) == CachedStep(table, before, request, now, half, p);
      } else {
        r := WriteTemplate(request);
        assert (db, cache, r) == CachedStep(table, before, request, now, map[], p);
      }
    }
  }

  ghost predicate ParsesOf(c: Cache, p: Parsing) {
    forall id | id in c.parsed :: id in c.templates && p.parse(c.templates[id].content) == Some(c.parsed[id])
  }

  function ParsedSpec(c: Cache, id: string, p: Parsing): (Cache, Reply) {
    if id in c.parsed then (c, Document(c.parsed[id]))
    else if id !in c.templates then (c, NotFound)
    else
      var tree := p.parse(c.templates[id].content);
      if tree.None? then (c, Broken) else (c.(parsed := c.parsed[id := tree.value]), Document(tree.value))
  }

  /** `half`: what an aborted load leaves in the template map. */
  function CachedStep(db: Table, c: Cache, request: Request, now: int, half: Table, p: Parsing): (Table, Cache, Reply) {
    if request.Render? then
      if !StillFresh(c, now) && !AllValid(db, p) then (db, Cache(half, map[], c.loadedAt), Broken)
      else
        var r := ParsedSpec(if StillFresh(c, now) then c else Cache(db, map[], now), request.id, p);
        (db, r.0, r.1)
    else
      var w := Write(db, request, p);
      (w.0, if w.2 then EMPTY_CACHE else c, w.1)
  }

  /** The same service without a cache: every render reads and parses the table. */
  function DirectStep(db: Table, request: Request, p: Parsing): (Table, Reply) {
    if request.Render? then
      (db, if !AllValid(db, p) then Broken else if request.id !in db then NotFound
           else match p.parse(db[request.id].content) case None => Broken case Some(tree) => Document(tree))
    else
      var w := Write(db, request, p);
      (w.0, w.1)
  }

  // ---- Runs ----------------------------------------------------------------

  datatype Timed = Timed(request: Request, now: int, half: Table)

  ghost predicate ClockNeverGoesBack(run: seq<Timed>) {
    forall i, j | 0 <= i <= j < |run| :: run[i].now <= run[j].now
  }

  /** Table and cache before step `k`; the process starts with an empty cache. */
  function StateAt(db: Table, run: seq<Timed>, k: nat, p: Parsing): (Table, Cache)
    requires k <= |run|
  {
    if k == 0 then (db, EMPTY_CACHE) else
      var s, t := StateAt(db, run, k - 1, p), run[k - 1];
      var next := CachedStep(s.0, s.1, t.request, t.now, t.half, p);
      (next.0, next.1)
  }

  function ReplyAt(db: Table, run: seq<Timed>, k: nat, p: Parsing): Reply
    requires k < |run|
  {
    var s := StateAt(db, run, k, p);
    CachedStep(s.0, s.1, run[k].request, run[k].now, run[k].half, p).2
  }

  /** The table before step `k` of the service without a cache. */
  function TableAt(db: Table, run: seq<Timed>, k: nat, p: Parsing): Table
    requires k <= |run|
  {
    if k == 0 then db else DirectStep(TableAt(db, run, k - 1, p), run[k - 1].request, p).0
  }

  lemma {:induction false} TablesAgree(db: Table, run: seq<Timed>, k: nat, p: Parsing)
    requires k <= |run|
    ensures StateAt(db, run, k, p).0 == TableAt(db, run, k, p)
  {
    if k > 0 { TablesAgree(db, run, k - 1, p); }
  }

  /** If this step changed the table, it seeded. */
  ghost predicate AtMostSeeds(db: Table, run: seq<Timed>, i: nat, p: Parsing)
    requires i < |run|
  {
    TableAt(db, run, i + 1, p) != TableAt(db, run, i, p) ==> run[i].request.Seed?
  }

  /** From step `j` up to step `k` the table changed only by seeding. */
  ghost predicate OnlySeeded(db: Table, run: seq<Timed>, j: nat, k: nat, p: Parsing)
    requires k <= |run|
  {
    forall i: nat | j <= i < k :: AtMostSeeds(db, run, i, p)
  }

  /** The cache was loaded at step `j`, holds the table of that moment with its parses, and was only seeded past since. */
  ghost predicate LoadedAt(db: Table, run: seq<Timed>, c: Cache, j: nat, k: nat, p: Parsing)
    requires k <= |run|
  {
    && j < k && c.loadedAt == run[j].now && c.templates == TableAt(db, run, j, p)
    && AllValid(c.templates, p) && ParsesOf(c, p) && OnlySeeded(db, run, j, k, p)
  }

  lemma StaysLoaded(db: Table, run: seq<Timed>, j: nat, k: nat, now: int, p: Parsing)
    requires 0 < k <= |run| && run[k - 1].now <= now && StillFresh(StateAt(db, run, k - 1, p).1, run[k - 1].now)
    requires StillFresh(StateAt(db, run, k, p).1, now) && LoadedAt(db, run, StateAt(db, run, k - 1, p).1, j, k - 1, p)
    ensures LoadedAt(db, run, StateAt(db, run, k, p).1, j, k, p)
  {
    var s := StateAt(db, run, k - 1, p);
    TablesAgree(db, run, k - 1, p);
    FreshAfterStep(s.0, s.1, run[k - 1], now, p);
    OneMoreSeeded(db, run, j, k, p);
  }

  lemma JustLoaded(db: Table, run: seq<Timed>, k: nat, now: int, p: Parsing)
    requires 0 < k <= |run| && run[k - 1].now <= now && !StillFresh(StateAt(db, run, k - 1, p).1, run[k - 1].now)
    requires StillFresh(StateAt(db, run, k, p).1, now)
    ensures LoadedAt(db, run, StateAt(db, run, k, p).1, k - 1, k, p)
  {
    var s := StateAt(db, run, k - 1, p);
    TablesAgree(db, run, k - 1, p);
    FreshAfterStep(s.0, s.1, run[k - 1], now, p);
  }

  /** A cache that counts as fresh holds the table of an earlier step, and its parses. */
  lemma {:induction false} CacheOrigin(db: Table, run: seq<Timed>, k: nat, now: int, p: Parsing) returns (j: nat)
    requires k <= |run| && ClockNeverGoesBack(run) && forall i | 0 <= i < k :: run[i].now <= now
    requires StillFresh(StateAt(db, run, k, p).1, now)
    ensures LoadedAt(db, run, StateAt(db, run, k, p).1, j, k, p)
  {
    if StillFresh(StateAt(db, run, k - 1, p).1, run[k - 1].now) {
      j := CacheOrigin(db, run, k - 1, run[k - 1].now, p);
      StaysLoaded(db, run, j, k, now, p);
    } else {
      j := k - 1;
      JustLoaded(db, run, k, now, p);
    }
  }

  lemma OneMoreSeeded(db: Table, run: seq<Timed>, j: nat, k: nat, p: Parsing)
    requires j < k <= |run| && OnlySeeded(db, run, j, k - 1, p)
    requires run[k - 1].request.Seed? || TableAt(db, run, k, p) == TableAt(db, run, k - 1, p)
    ensures OnlySeeded(db, run, j, k, p)
  {
  }

  /** A cache that is fresh after a step was loaded in it, or was fresh before and the table was at most seeded. */
  lemma FreshAfterStep(db: Table, c: Cache, t: Timed, now: int, p: Parsing)
    requires t.now <= now && StillFresh(CachedStep(db, c, t.request, t.now, t.half, p).1, now)
    ensures var next := CachedStep(db, c, t.request, t.now, t.half, p);
            && (t.request.Seed? || next.0 == db)
            && if StillFresh(c, t.now)
               then next.1.loadedAt == c.loadedAt && next.1.templates == c.templates
                    && (ParsesOf(c, p) ==> ParsesOf(next.1, p))
               else next.1.loadedAt == t.now && next.1.templates == db && AllValid(db, p) && ParsesOf(next.1, p)
  {
  }

  /**
   * Whoever writes templates: a render's reply is the one that reading the table afresh gave at step `j`, less
   * than 30 s before, and since then the table changed only by seeding.
   */
  lemma RenderedFrom(db: Table, run: seq<Timed>, k: nat, p: Parsing) returns (j: nat)
    requires k < |run| && ClockNeverGoesBack(run) && run[k].request.Render?
    ensures j <= k && run[k].now - run[j].now < 30000 && OnlySeeded(db, run, j, k, p)
    ensures ReplyAt(db, run, k, p) == DirectStep(TableAt(db, run, j, p), run[k].request, p).1
  {
    TablesAgree(db, run, k, p);
    if StillFresh(StateAt(db, run, k, p).1, run[k].now) {
      j := CacheOrigin(db, run, k, run[k].now, p);
    } else {
      j := k;
    }
  }

  /**
   * Caching cannot be told from reading afresh, 30 s after the last seeding; so never, when all template
   * writes go through the routes that invalidate.
   */
  lemma CachedRenderingIsFresh(db: Table, run: seq<Timed>, k: nat, p: Parsing)
    requires k < |run| && ClockNeverGoesBack(run)
    requires forall i | 0 <= i < k && run[i].request.Seed? :: run[k].now - run[i].now >= 30000
    ensures ReplyAt(db, run, k, p) == DirectStep(TableAt(db, run, k, p), run[k].request, p).1
  {
    TablesAgree(db, run, k, p);
    if run[k].request.Render? {
      var j := RenderedFrom(db, run, k, p);
      SameTable(db, run, j, k, p);
    }
  }

  lemma {:induction false} SameTable(db: Table, run: seq<Timed>, j: nat, k: nat, p: Parsing)
    requires j <= k <= |run| && OnlySeeded(db, run, j, k, p)
    requires forall i | j <= i < k :: !run[i].request.Seed?
    ensures TableAt(db, run, j, p) == TableAt(db, run, k, p)
  {
    if j < k {
      assert AtMostSeeds(db, run, k - 1, p);
      SameTable(db, run, j, k - 1, p);
    }
  }

  /**
   * A template that is rendered, then seeded, whether it was there before or not: the next render shows what was
   * seeded exactly when 30 s have passed since the first, or when the document was the same.
   */
  lemma SeedWriteIsSeen(db: Table, id: string, template: Template, first: int, seeded: int, next: int, p: Parsing)
    requires 0 < first <= seeded <= next && AllValid(db, p) && p.valid(template)
    ensures var run := [Timed(Render(id), first, map[]), Timed(Seed(id, template), seeded, map[]), Timed(Render(id), next, map[])];
            ReplyAt(db, run, 2, p) == DirectStep(db[id := template], Render(id), p).1
            <==> next - first >= 30000 || (id in db && p.parse(db[id].content) == p.parse(template.content))
  {
    var run := [Timed(Render(id), first, map[]), Timed(Seed(id, template), seeded, map[]), Timed(Render(id), next, map[])];
    var c1 := CachedStep(db, EMPTY_CACHE, Render(id), first, map[], p).1;
    assert StateAt(db, run, 0, p) == (db, EMPTY_CACHE);
    assert StateAt(db, run, 1, p) == (db, c1);
    assert StateAt(db, run, 2, p) == (db[id := template], c1);
  }
}
