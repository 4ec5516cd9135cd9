/** The SQLite-backed key-value store (src/node/kv-sqlite.ts). */
module SqliteKv {
  import opened Wrappers
  import opened JsonTree

  /** A table row; `expireAt` is in milliseconds, None never expires. */
  datatype Row = Row(key: string, value: string, metadata: Option<Json>, expireAt: Option<int>)

  /** An entry of a list reply; `expiration` is in seconds. */
  datatype Key = Key(name: string, expiration: Option<int>, metadata: Option<Json>)

  datatype ListResult = ListResult(keys: seq<Key>, complete: bool, cursor: Option<string>)

  const DEFAULT_LIST_LIMIT := 1000
  const LAST_CODE_POINT: char := '\U{10FFFF}'

  // ---- Key order -----------------------------------------------------------

  /** Code point order, which is also the byte order of UTF-8. */
  predicate Less(a: string, b: string) {
    b != "" && (a == "" || a[0] < b[0] || (a[0] == b[0] && Less(a[1..], b[1..])))
  }

  /** The first difference decides: a smaller code point, or the end of the text. */
  lemma {:induction false} LessMeans(common: string, a: string, b: string)
    requires a == "" || b == "" || a[0] != b[0]
    ensures Less(common + a, common + b) <==> b != "" && (a == "" || a[0] as int < b[0] as int)
  {
    if common == "" {
      assert common + a == a && common + b == b;
    } else {
      assert (common + a)[1..] == common[1..] + a && (common + b)[1..] == common[1..] + b;
      LessMeans(common[1..], a, b);
    }
  }

  lemma {:induction false} LessTransitive(a: string, b: string, c: string)
    requires Less(a, b) && Less(b, c)
    ensures Less(a, c)
  {
    if a != "" && a[0] == b[0] && b[0] == c[0] {
      LessTransitive(a[1..], b[1..], c[1..]);
    }
  }

  lemma {:induction false} LessTotal(a: string, b: string)
    ensures Less(a, b) || a == b || Less(b, a)
    ensures !(Less(a, b) && Less(b, a))
    ensures !Less(a, a)
  {
    if a != "" && b != "" {
      LessTotal(a[1..], b[1..]);
      assert a == [a[0]] + a[1..] && b == [b[0]] + b[1..];
    }
    if a != "" {
      LessTotal(a[1..], a[1..]);
    }
  }

  // ---- The table, kept in primary-key order ---------------------------------

  predicate Sorted(rows: seq<Row>) {
    forall i, j | 0 <= i < j < |rows| :: Less(rows[i].key, rows[j].key)
  }

  predicate Expired(row: Row, now: int) {
    row.expireAt.Some? && row.expireAt.value <= now
  }

  function Find(rows: seq<Row>, key: string): (r: Option<Row>)
    ensures r.Some? ==> r.value in rows && r.value.key == key
    ensures r.None? ==> forall row | row in rows :: row.key != key
  {
    if rows == [] then None else if rows[0].key == key then Some(rows[0]) else Find(rows[1..], key)
  }

  function Upsert(rows: seq<Row>, row: Row): seq<Row> {
    if rows == [] then [row]
    else if rows[0].key == row.key then [row] + rows[1..]
    else if Less(row.key, rows[0].key) then [row] + rows
    else [rows[0]] + Upsert(rows[1..], row)
  }

  function Remove(rows: seq<Row>, key: string): seq<Row> {
    if rows == [] then []
    else if rows[0].key == key then Remove(rows[1..], key)
    else [rows[0]] + Remove(rows[1..], key)
  }

  function Purge(rows: seq<Row>, now: int): seq<Row> {
    if rows == [] then []
    else if Expired(rows[0], now) then Purge(rows[1..], now)
    else [rows[0]] + Purge(rows[1..], now)
  }

  /** `key >= prefix AND key < prefix || U+10FFFF AND (cursor IS NULL OR key > cursor)` */
  predicate InRange(key: string, prefix: string, cursor: Option<string>) {
    !Less(key, prefix) && Less(key, prefix + [LAST_CODE_POINT]) && (cursor.None? || Less(cursor.value, key))
  }

  function Matching(rows: seq<Row>, prefix: string, cursor: Option<string>): (r: seq<Row>)
    ensures forall row :: row in r <==> row in rows && InRange(row.key, prefix, cursor)
  {
    if rows == [] then []
    else if InRange(rows[0].key, prefix, cursor) then [rows[0]] + Matching(rows[1..], prefix, cursor)
    else Matching(rows[1..], prefix, cursor)
  }

  function Take<T>(s: seq<T>, n: nat): seq<T> {
    if |s| <= n then s else s[..n]
  }

  function ClampLimit(limit: Option<int>): (n: nat)
    ensures 1 <= n <= DEFAULT_LIST_LIMIT
    ensures limit.None? ==> n == DEFAULT_LIST_LIMIT
    ensures limit.Some? && 1 <= limit.value <= DEFAULT_LIST_LIMIT ==> n == limit.value
  {
    var wanted := if limit.Some? then limit.value else DEFAULT_LIST_LIMIT;
    if wanted < 1 then 1 else if wanted > DEFAULT_LIST_LIMIT then DEFAULT_LIST_LIMIT else wanted
  }

  /** A cursor is the encoded last key of a page; the empty text counts as no cursor. */
  function StartAfter(cursor: Option<string>): Option<string> {
    if cursor == Some("") then None else cursor
  }

  function ToKey(row: Row): Key {
    Key(row.key, if row.expireAt.Some? then Some(row.expireAt.value / 1000) else None, row.metadata)
  }

  function ToKeys(rows: seq<Row>): seq<Key> {
    seq(|rows|, i requires 0 <= i < |rows| => ToKey(rows[i]))
  }

  function PageOf(rows: seq<Row>, limit: nat): ListResult
    requires limit >= 1
  {
    var page := Take(rows, limit);
    ListResult(ToKeys(page), |page| < limit, if |page| < limit then None else Some(page[|page| - 1].key))
  }

  lemma BuiltPage(hits: seq<Row>, limit: nat)
    requires limit >= 1
    ensures var keys := ToKeys(Take(hits, limit));
            && (|keys| >= limit ==> |keys| > 0)
            && PageOf(hits, limit)
               == ListResult(keys, |keys| < limit, if |keys| < limit then None else Some(keys[|keys| - 1].name))
  {
  }

  // ---- Requests as steps on the table --------------------------------------

  datatype Request =
    | Get(key: string)
    | Put(key: string, value: string, ttl: Option<int>, metadata: Option<Json>)
    | Delete(key: string)
    | List(prefix: Option<string>, limit: Option<int>, cursor: Option<string>)

  datatype Reply = Value(value: Option<string>) | Stored | BadTtl | Deleted | Listed(page: ListResult)

  function PrefixOf(prefix: Option<string>): string {
    if prefix.Some? then prefix.value else ""
  }

  /** What the store does: expired rows stay in the table until a list purges them. */
  function LazyStep(rows: seq<Row>, request: Request, now: int): (seq<Row>, Reply) {
    match request
    case Get(key) =>
      var row := Find(rows, key);
      (rows, Value(if row.None? || Expired(row.value, now) then None else Some(row.value.value)))
    case Put(key, value, ttl, metadata) =>
      if ttl.Some? && ttl.value <= 0 then (rows, BadTtl) else
        (Upsert(rows, Row(key, value, metadata, if ttl.Some? then Some(now + ttl.value * 1000) else None)), Stored)
    case Delete(key) => (Remove(rows, key), Deleted)
    case List(prefix, limit, cursor) =>
      var kept := Purge(rows, now);
      (kept, Listed(PageOf(Matching(kept, PrefixOf(prefix), StartAfter(cursor)), ClampLimit(limit))))
  }

  /** `rows.map(...)` over the selected rows. */
  method KeysOf(selected: seq<Row>) returns (keys: seq<Key>)
    ensures keys == ToKeys(selected)
  {
    keys := [];
    for i := 0 to |selected|
      invariant keys == ToKeys(selected[..i])
    {
      keys := keys + [ToKey(selected[i])];
    }
    assert selected[..|selected|] == selected;
  }

  class SqliteKV {
    var rows: seq<Row>

    ghost predicate Valid()
      reads this
    {
      Sorted(rows)
    }

    constructor ()
      ensures Valid() && rows == []
    {
      rows := [];
    }

    method Get(key: string, now: int) returns (value: Option<string>)
      requires Valid()
      ensures LazyStep(rows, Request.Get(key), now) == (rows, Value(value))
    {
      var row := Find(rows, key);
      if row.None? { return None; }
      if row.value.expireAt.Some? && row.value.expireAt.value <= now { return None; }
      value := Some(row.value.value);
    }

    method Put(key: string, value: string, ttl: Option<int>, metadata: Option<Json>, now: int) returns (ok: bool)
      requires Valid()
      modifies this
      ensures Valid()
      ensures (rows, if ok then Stored else BadTtl) == LazyStep(old(rows), Request.Put(key, value, ttl, metadata), now)
    {
      if ttl.Some? && ttl.value <= 0 { return false; }
      var expireAt := if ttl.Some? then Some(now + ttl.value * 1000) else None;
      UpsertSorted(rows, Row(key, value, metadata, expireAt));
      rows := Upsert(rows, Row(key, value, metadata, expireAt));
      ok := true;
    }

    method Delete(key: string)
      requires Valid()
      modifies this
      ensures Valid()
      ensures forall now :: (rows, Deleted) == LazyStep(old(rows), Request.Delete(key), now)
    {
      RemoveSorted(rows, key);
      rows := Remove(rows, key);
    }

    method List(prefix: Option<string>, limit: Option<int>, cursor: Option<string>, now: int) returns (page: ListResult)
      requires Valid()
      modifies this
      ensures Valid()
      ensures (rows, Listed(page)) == LazyStep(old(rows), Request.List(prefix, limit, cursor), now)
    {
      PurgeSorted(rows, now);
      rows := Purge(rows, now);
      var from := PrefixOf(prefix);
      var max := ClampLimit(limit);
      var start := StartAfter(cursor);
      var hits := Matching(rows, from, start);
      var keys := KeysOf(Take(hits, max));
      var complete := |keys| < max;
      page := ListResult(keys, complete, if complete then None else Some(keys[|keys| - 1].name));
      BuiltPage(hits, max);
    }
  }

  // ---- The table stays sorted ----------------------------------------------

  lemma {:induction false} UpsertSorted(rows: seq<Row>, row: Row)
    requires Sorted(rows)
    ensures Sorted(Upsert(rows, row))
    ensures forall r :: r in Upsert(rows, row) <==> r == row || (r in rows && r.key != row.key)
  {
    if rows != [] {
      var head := rows[0];
      forall r | r in rows[1..] ensures Less(head.key, r.key) && r.key != head.key {
        var i :| 0 <= i < |rows[1..]| && rows[1..][i] == r;
        assert rows[i + 1] == r;
        LessTotal(head.key, r.key);
      }
      LessTotal(head.key, row.key);
      assert rows == [head] + rows[1..];
      if head.key == row.key {
      } else if Less(row.key, head.key) {
        forall r | r in rows ensures Less(row.key, r.key) && r.key != row.key {
          if r != head { LessTransitive(row.key, head.key, r.key); }
          LessTotal(row.key, r.key);
        }
      } else {
        UpsertSorted(rows[1..], row);
      }
    }
  }

  lemma {:induction false} RemoveSorted(rows: seq<Row>, key: string)
    requires Sorted(rows)
    ensures Sorted(Remove(rows, key))
    ensures forall r :: r in Remove(rows, key) <==> r in rows && r.key != key
  {
    if rows != [] {
      RemoveSorted(rows[1..], key);
      assert rows == [rows[0]] + rows[1..];
      assert forall r | r in rows[1..] :: Less(rows[0].key, r.key);
    }
  }

  lemma {:induction false} PurgeSorted(rows: seq<Row>, now: int)
    requires Sorted(rows)
    ensures Sorted(Purge(rows, now))
    ensures forall r :: r in Purge(rows, now) <==> r in rows && !Expired(r, now)
  {
    if rows != [] {
      PurgeSorted(rows[1..], now);
      assert rows == [rows[0]] + rows[1..];
      assert forall r | r in rows[1..] :: Less(rows[0].key, r.key);
    }
  }

  lemma {:induction false} MatchingSorted(rows: seq<Row>, prefix: string, cursor: Option<string>)
    requires Sorted(rows)
    ensures Sorted(Matching(rows, prefix, cursor))
  {
    if rows != [] {
      MatchingSorted(rows[1..], prefix, cursor);
      assert forall r | r in rows[1..] :: Less(rows[0].key, r.key);
    }
  }

  lemma {:induction false} FindIs(rows: seq<Row>, row: Row)
    requires Sorted(rows) && row in rows
    ensures Find(rows, row.key) == Some(row)
  {
    if rows[0] != row {
      assert row in rows[1..];
      LessTotal(rows[0].key, row.key);
      FindIs(rows[1..], row);
    }
  }
}
