/** The lazily purged table behaves as a map whose entries vanish at their expiry instant. */
module KvRefinement {
  import opened Wrappers
  import opened JsonTree
  import opened SqliteKv

  datatype Entry = Entry(value: string, metadata: Option<Json>, expireAt: Option<int>)

  type Store = map<string, Entry>

  predicate Gone(e: Entry, now: int) {
    e.expireAt.Some? && e.expireAt.value <= now
  }

  /** The entries that exist at an instant. */
  function Alive(m: Store, now: int): Store {
    map k | k in m && !Gone(m[k], now) :: m[k]
  }

  // ---- Listing a map in key order ------------------------------------------

  ghost predicate IsLeast(m: string, s: set<string>) {
    m in s && forall k | k in s && k != m :: Less(m, k)
  }

  lemma {:induction false} LeastExists(s: set<string>)
    requires s != {}
    ensures exists m :: IsLeast(m, s)
  {
    var x :| x in s;
    var rest := s - {x};
    if rest == {} {
      assert s == {x};
      assert IsLeast(x, s);
    } else {
      LeastExists(rest);
      var m :| IsLeast(m, rest);
      LessTotal(x, m);
      if Less(x, m) {
        forall k | k in s && k != x ensures Less(x, k) {
          if k != m { LessTransitive(x, m, k); }
        }
        assert IsLeast(x, s);
      } else {
        assert IsLeast(m, s);
      }
    }
  }

  ghost function Ascending(s: set<string>): (r: seq<string>)
  {
    if s == {} then [] else
      LeastExists(s);
      var m :| IsLeast(m, s);
      [m] + Ascending(s - {m})
  }

  function Names(rows: seq<Row>): seq<string> {
    seq(|rows|, i requires 0 <= i < |rows| => rows[i].key)
  }

  lemma AscendingStep(s: set<string>, least: string)
    requires IsLeast(least, s)
    ensures Ascending(s) == [least] + Ascending(s - {least})
  {
    LeastExists(s);
    var m :| IsLeast(m, s) && Ascending(s) == [m] + Ascending(s - {m});
    LessTotal(m, least);
  }

  function KeySet(rows: seq<Row>): set<string> {
    set row | row in rows :: row.key
  }

  lemma HeadIsLeast(rows: seq<Row>)
    requires Sorted(rows) && rows != []
    ensures IsLeast(rows[0].key, KeySet(rows))
    ensures KeySet(rows) - {rows[0].key} == KeySet(rows[1..])
  {
    var head, tail := rows[0], rows[1..];
    assert head in rows;
    forall k | k in KeySet(rows) && k != head.key ensures Less(head.key, k) {
      var i :| 0 <= i < |rows| && rows[i].key == k;
    }
    forall row | row in tail ensures row in rows && row.key != head.key {
      var i :| 0 <= i < |tail| && tail[i] == row;
      assert rows[i + 1] == row;
      LessTotal(head.key, row.key);
    }
    forall row | row in rows && row.key != head.key ensures row in tail {
      assert rows == [head] + tail;
    }
  }

  /** Distinct keys in ascending order are the ascending listing of their set. */
  lemma {:induction false} SortedIsAscending(rows: seq<Row>)
    requires Sorted(rows)
    ensures Names(rows) == Ascending(KeySet(rows))
  {
    if rows == [] {
      assert KeySet(rows) == {};
    } else {
      HeadIsLeast(rows);
      AscendingStep(KeySet(rows), rows[0].key);
      SortedIsAscending(rows[1..]);
      NamesCons(rows);
    }
  }

  lemma NamesCons(rows: seq<Row>)
    requires rows != []
    ensures Names(rows) == [rows[0].key] + Names(rows[1..])
  {
  }

  // ---- The ideal store -----------------------------------------------------

  function EntryKey(m: Store, name: string): Key
    requires name in m
  {
    Key(name, if m[name].expireAt.Some? then Some(m[name].expireAt.value / 1000) else None, m[name].metadata)
  }

  function KeysInRange(m: Store, prefix: string, cursor: Option<string>): set<string> {
    set k | k in m && InRange(k, prefix, cursor)
  }

  function PageKeys(m: Store, names: seq<string>): seq<Key> {
    seq(|names|, i requires 0 <= i < |names| =>
      if names[i] in m then EntryKey(m, names[i]) else Key(names[i], None, None))
  }

  function NamesPage(m: Store, names: seq<string>, limit: nat): ListResult
    requires limit >= 1
  {
    var page := Take(names, limit);
    ListResult(PageKeys(m, page), |page| < limit, if |page| < limit then None else Some(page[|page| - 1]))
  }

  ghost function IdealPage(m: Store, prefix: string, cursor: Option<string>, limit: nat): ListResult
    requires limit >= 1
  {
    NamesPage(m, Ascending(KeysInRange(m, prefix, cursor)), limit)
  }

  /** Entries past their expiry are gone before the request is looked at. */
  ghost function IdealStep(m: Store, request: Request, now: int): (Store, Reply) {
    var live := Alive(m, now);
    match request
    case Get(key) => (live, Value(if key in live then Some(live[key].value) else None))
    case Put(key, value, ttl, metadata) =>
      if ttl.Some? && ttl.value <= 0 then (live, BadTtl) else
        (live[key := Entry(value, metadata, if ttl.Some? then Some(now + ttl.value * 1000) else None)], Stored)
    case Delete(key) => (live - {key}, Deleted)
    case List(prefix, limit, cursor) =>
      var from := match prefix case None => "" case Some(p) => p;
      var after := match cursor case None => None case Some(c) => if c == "" then None else Some(c);
      var most := if limit == None || limit.value > 1000 then 1000 else if limit.value < 1 then 1 else limit.value;
      (live, Listed(IdealPage(live, from, after, most)))
  }

  // ---- Refinement ----------------------------------------------------------

  function EntryOf(row: Row): Entry {
    Entry(row.value, row.metadata, row.expireAt)
  }

  ghost predicate Holds(rows: seq<Row>, m: Store) {
    && (forall row | row in rows :: row.key in m && m[row.key] == EntryOf(row))
    && (forall k | k in m :: exists row :: row in rows && row.key == k)
  }

  /** The table, once expired rows are ignored, holds the live entries of the map. */
  ghost predicate Refines(rows: seq<Row>, m: Store, now: int) {
    Sorted(rows) && Holds(Purge(rows, now), Alive(m, now))
  }

  lemma {:induction false} PurgeTwice(rows: seq<Row>, earlier: int, now: int)
    requires earlier <= now
    ensures Purge(Purge(rows, earlier), now) == Purge(rows, now)
  {
    if rows != [] {
      PurgeTwice(rows[1..], earlier, now);
    }
  }

  lemma RefinesLater(rows: seq<Row>, m: Store, earlier: int, now: int)
    requires Refines(rows, m, earlier) && earlier <= now
    ensures Refines(rows, m, now)
  {
    PurgeSorted(rows, earlier);
    PurgeSorted(rows, now);
    forall k | k in Alive(m, now) ensures exists row :: row in Purge(rows, now) && row.key == k {
      assert k in Alive(m, earlier);
      var row :| row in Purge(rows, earlier) && row.key == k;
      assert row in Purge(rows, now);
    }
  }

  lemma GetAgrees(rows: seq<Row>, m: Store, key: string, now: int)
    requires Refines(rows, m, now)
    ensures LazyStep(rows, Get(key), now).1 == IdealStep(m, Get(key), now).1
  {
    PurgeSorted(rows, now);
    var row := Find(rows, key);
    if row.Some? && !Expired(row.value, now) {
      assert row.value in Purge(rows, now);
    } else if key in Alive(m, now) {
      var r :| r in Purge(rows, now) && r.key == key;
      FindIs(rows, r);
    }
  }

  /** Rows of the purged table after an upsert: the new one unless expired, and the others. */
  lemma PurgedUpsert(rows: seq<Row>, row: Row, now: int)
    requires Sorted(rows)
    ensures Sorted(Upsert(rows, row))
    ensures forall r :: r in Purge(Upsert(rows, row), now)
                   <==> !Expired(r, now) && (r == row || (r in Purge(rows, now) && r.key != row.key))
  {
    PurgeSorted(rows, now);
    UpsertSorted(rows, row);
    PurgeSorted(Upsert(rows, row), now);
  }

  lemma PutRefines(rows: seq<Row>, m: Store, row: Row, now: int)
    requires Refines(rows, m, now)
    ensures Refines(Upsert(rows, row), Alive(m, now)[row.key := EntryOf(row)], now)
  {
    PurgedUpsert(rows, row, now);
    var kept, live := Purge(rows, now), Alive(m, now);
    var kept', live' := Purge(Upsert(rows, row), now), Alive(live[row.key := EntryOf(row)], now);
    forall r | r in kept' ensures r.key in live' && live'[r.key] == EntryOf(r) {
      assert r != row ==> r in kept && live[r.key] == EntryOf(r);
    }
    forall k | k in live' ensures exists r :: r in kept' && r.key == k {
      if k == row.key {
        assert row in kept';
      } else {
        var r :| r in kept && r.key == k;
        assert r in kept';
      }
    }
  }

  lemma PurgedRemove(rows: seq<Row>, key: string, now: int)
    requires Sorted(rows)
    ensures Sorted(Remove(rows, key))
    ensures forall r :: r in Purge(Remove(rows, key), now) <==> r in Purge(rows, now) && r.key != key
  {
    PurgeSorted(rows, now);
    RemoveSorted(rows, key);
    PurgeSorted(Remove(rows, key), now);
  }

  lemma DeleteRefines(rows: seq<Row>, m: Store, key: string, now: int)
    requires Refines(rows, m, now)
    ensures Refines(Remove(rows, key), Alive(m, now) - {key}, now)
  {
    PurgedRemove(rows, key, now);
    var kept, live := Purge(rows, now), Alive(m, now);
    var kept', live' := Purge(Remove(rows, key), now), Alive(live - {key}, now);
    forall r | r in kept' ensures r.key in live' && live'[r.key] == EntryOf(r) {
      assert r in kept && live[r.key] == EntryOf(r);
    }
    forall k | k in live' ensures exists r :: r in kept' && r.key == k {
      var r :| r in kept && r.key == k;
      assert r in kept';
    }
  }

  lemma ListAgrees(rows: seq<Row>, m: Store, prefix: string, cursor: Option<string>, limit: nat)
    requires Sorted(rows) && Holds(rows, m) && limit >= 1
    ensures PageOf(Matching(rows, prefix, cursor), limit) == IdealPage(m, prefix, cursor, limit)
  {
    var hits := Matching(rows, prefix, cursor);
    MatchingSorted(rows, prefix, cursor);
    SortedIsAscending(hits);
    MatchingKeys(rows, m, prefix, cursor);
    SamePage(hits, m, limit, Ascending(KeysInRange(m, prefix, cursor)));
  }

  lemma SamePage(hits: seq<Row>, m: Store, limit: nat, names: seq<string>)
    requires Names(hits) == names && limit >= 1
    requires forall row | row in hits :: row.key in m && m[row.key] == EntryOf(row)
    ensures PageOf(hits, limit) == NamesPage(m, names, limit)
  {
    TakeRows(hits, limit);
    PageAgrees(Take(hits, limit), m, limit, names);
    SameCursor(hits, limit, names);
  }

  lemma SameCursor(hits: seq<Row>, limit: nat, names: seq<string>)
    requires Names(hits) == names && limit >= 1
    ensures |Take(hits, limit)| == |Take(names, limit)|
    ensures |Take(hits, limit)| >= limit ==> Take(hits, limit)[limit - 1].key == Take(names, limit)[limit - 1]
  {
  }

  lemma TakeRows(hits: seq<Row>, limit: nat)
    ensures Names(Take(hits, limit)) == Take(Names(hits), limit)
    ensures forall row | row in Take(hits, limit) :: row in hits
  {
  }

  lemma PageAgrees(page: seq<Row>, m: Store, limit: nat, names: seq<string>)
    requires Names(page) == Take(names, limit) && limit >= 1
    requires forall row | row in page :: row.key in m && m[row.key] == EntryOf(row)
    ensures ToKeys(page) == PageKeys(m, Take(names, limit))
  {
    forall i | 0 <= i < |page| ensures ToKeys(page)[i] == PageKeys(m, Take(names, limit))[i] {
      assert page[i] in page;
      assert Take(names, limit)[i] == Names(page)[i] == page[i].key;
    }
  }

  lemma MatchingKeys(rows: seq<Row>, m: Store, prefix: string, cursor: Option<string>)
    requires Holds(rows, m)
    ensures KeySet(Matching(rows, prefix, cursor)) == KeysInRange(m, prefix, cursor)
  {
    var hits := Matching(rows, prefix, cursor);
    forall k | k in m && InRange(k, prefix, cursor) ensures k in KeySet(hits) {
      var row :| row in rows && row.key == k;
      assert row in hits;
    }
  }

  /** One request: equal replies, and the stores still agree. */
  lemma StepRefines(rows: seq<Row>, m: Store, request: Request, now: int)
    requires Refines(rows, m, now)
    ensures LazyStep(rows, request, now).1 == IdealStep(m, request, now).1
    ensures Refines(LazyStep(rows, request, now).0, IdealStep(m, request, now).0, now)
  {
    StillRefines(rows, m, now);
    match request {
      case Get(key) => GetAgrees(rows, m, key, now);
      case Put(key, value, ttl, metadata) =>
        var expireAt := if ttl.Some? then Some(now + ttl.value * 1000) else None;
        PutRefines(rows, m, Row(key, value, metadata, expireAt), now);
      case Delete(key) => DeleteRefines(rows, m, key, now);
      case List(prefix, limit, cursor) => ListRefines(rows, m, prefix, limit, cursor, now);
    }
  }

  lemma ListRefines(rows: seq<Row>, m: Store, prefix: Option<string>, limit: Option<int>, cursor: Option<string>, now: int)
    requires Refines(rows, m, now) && Sorted(Purge(rows, now))
    ensures LazyStep(rows, List(prefix, limit, cursor), now).1 == IdealStep(m, List(prefix, limit, cursor), now).1
  {
    ListAgrees(Purge(rows, now), Alive(m, now), PrefixOf(prefix), StartAfter(cursor), ClampLimit(limit));
  }

  /** Dropping what has expired, on either side, keeps the two in agreement. */
  lemma StillRefines(rows: seq<Row>, m: Store, now: int)
    requires Refines(rows, m, now)
    ensures Refines(rows, Alive(m, now), now) && Refines(Purge(rows, now), Alive(m, now), now)
    ensures Sorted(Purge(rows, now))
  {
    assert Alive(Alive(m, now), now) == Alive(m, now);
    PurgeSorted(rows, now);
    PurgeTwice(rows, now, now);
  }

  datatype Timed = Timed(request: Request, now: int)

  function LazyRun(rows: seq<Row>, run: seq<Timed>): seq<Reply>
    decreases |run|
  {
    if run == [] then [] else
      var step := LazyStep(rows, run[0].request, run[0].now);
      [step.1] + LazyRun(step.0, run[1..])
  }

  ghost function IdealRun(m: Store, run: seq<Timed>): seq<Reply>
    decreases |run|
  {
    if run == [] then [] else
      var step := IdealStep(m, run[0].request, run[0].now);
      [step.1] + IdealRun(step.0, run[1..])
  }

  ghost predicate ClockNeverGoesBack(run: seq<Timed>, start: int) {
    && (run != [] ==> start <= run[0].now)
    && forall i | 0 < i < |run| :: run[i - 1].now <= run[i].now
  }

  /** Whatever the requests and however they interleave, no reply tells the two stores apart. */
  lemma {:induction false} LazyPurgingIsInvisible(rows: seq<Row>, m: Store, run: seq<Timed>, start: int)
    requires Refines(rows, m, start) && ClockNeverGoesBack(run, start)
    ensures LazyRun(rows, run) == IdealRun(m, run)
    decreases |run|
  {
    if run != [] {
      var now := run[0].now;
      RefinesLater(rows, m, start, now);
      StepRefines(rows, m, run[0].request, now);
      assert forall i | 0 < i < |run[1..]| :: run[1..][i - 1] == run[i] && run[1..][i] == run[i + 1];
      LazyPurgingIsInvisible(LazyStep(rows, run[0].request, now).0, IdealStep(m, run[0].request, now).0, run[1..], now);
    }
  }

  lemma EmptyStoresAgree(start: int)
    ensures Refines([], map[], start)
  {
  }
}
