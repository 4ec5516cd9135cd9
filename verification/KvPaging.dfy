/** Following list cursors enumerates the keys under a prefix. */
module KvPaging {
  import opened Wrappers
  import opened SqliteKv
  import JsonTree

  // ---- The range scan is a prefix match ------------------------------------

  lemma {:induction false} PrefixNotLess(prefix: string, key: string)
    requires prefix <= key
    ensures !Less(key, prefix)
  {
    if prefix != "" {
      assert prefix[1..] <= key[1..];
      PrefixNotLess(prefix[1..], key[1..]);
    }
  }

  /** The key has the prefix, and not U+10FFFF right after it. */
  predicate Selected(key: string, prefix: string) {
    prefix <= key && !(|key| > |prefix| && key[|prefix|] == '\U{10FFFF}')
  }

  /** Keys in range are those with the prefix, except where U+10FFFF comes right after it. */
  lemma {:induction false} RangeIsPrefix(key: string, prefix: string)
    ensures InRange(key, prefix, None) <==> Selected(key, prefix)
  {
    var upper := prefix + [LAST_CODE_POINT];
    if prefix == "" {
      assert upper == [LAST_CODE_POINT];
      assert upper[1..] == "";
      assert key != "" ==> key[0] <= LAST_CODE_POINT && !Less(key[1..], "");
      assert Less(key, upper) <==> key == "" || key[0] < LAST_CODE_POINT;
      assert !Less(key, prefix) && prefix <= key;
    } else if key != "" {
      assert upper[0] == prefix[0] && upper[1..] == prefix[1..] + [LAST_CODE_POINT];
      RangeIsPrefix(key[1..], prefix[1..]);
      assert prefix <= key <==> prefix[0] == key[0] && prefix[1..] <= key[1..];
    }
  }

  // ---- Pages ---------------------------------------------------------------

  /** One list request on a table from which expired rows are already purged. */
  function Fetch(rows: seq<Row>, prefix: string, limit: nat, cursor: Option<string>): ListResult
    requires limit >= 1
  {
    PageOf(Matching(rows, prefix, StartAfter(cursor)), limit)
  }

  lemma {:induction false} MatchingAfter(rows: seq<Row>, prefix: string, cursor: Option<string>, last: string)
    requires cursor.Some? ==> Less(cursor.value, last)
    ensures Matching(rows, prefix, Some(last)) == Matching(Matching(rows, prefix, cursor), prefix, Some(last))
  {
    if rows != [] {
      MatchingAfter(rows[1..], prefix, cursor, last);
      if cursor.Some? && Less(last, rows[0].key) {
        LessTransitive(cursor.value, last, rows[0].key);
      }
    }
  }

  lemma {:induction false} DropThrough(hits: seq<Row>, prefix: string, i: nat)
    requires Sorted(hits) && i < |hits|
    requires forall j | 0 <= j < |hits| :: InRange(hits[j].key, prefix, None)
    ensures Matching(hits, prefix, Some(hits[i].key)) == hits[i + 1..]
  {
    var last := hits[i].key;
    LessTotal(hits[0].key, last);
    if i == 0 {
      AllMatch(hits[1..], prefix, last);
    } else {
      DropThrough(hits[1..], prefix, i - 1);
      assert hits[1..][i - 1] == hits[i] && hits[1..][i..] == hits[i + 1..];
    }
  }

  lemma {:induction false} AllMatch(rows: seq<Row>, prefix: string, last: string)
    requires forall j | 0 <= j < |rows| :: InRange(rows[j].key, prefix, Some(last))
    ensures Matching(rows, prefix, Some(last)) == rows
  {
    if rows != [] {
      AllMatch(rows[1..], prefix, last);
      assert rows == [rows[0]] + rows[1..];
    }
  }

  /** A page is the next `limit` keys, and its cursor leads exactly to the keys after them. */
  lemma CursorContinues(rows: seq<Row>, prefix: string, limit: nat, cursor: Option<string>)
    requires Sorted(rows) && limit >= 1
    requires !Fetch(rows, prefix, limit, cursor).complete && Fetch(rows, prefix, limit, cursor).cursor != Some("")
    ensures var hits := Matching(rows, prefix, StartAfter(cursor));
            var next := Fetch(rows, prefix, limit, cursor).cursor;
            |hits| >= limit && Matching(rows, prefix, StartAfter(next)) == hits[limit..]
  {
    var start := StartAfter(cursor);
    var hits := Matching(rows, prefix, start);
    PageEnd(hits, limit);
    AfterPage(rows, prefix, start, limit);
  }

  lemma PageEnd(hits: seq<Row>, limit: nat)
    requires limit >= 1
    ensures PageOf(hits, limit).complete <==> |hits| < limit
    ensures |hits| >= limit ==> PageOf(hits, limit).cursor == Some(hits[limit - 1].key)
  {
  }

  /** What matches after the last key of a page is what the page left out. */
  lemma AfterPage(rows: seq<Row>, prefix: string, start: Option<string>, limit: nat)
    requires Sorted(rows) && 1 <= limit <= |Matching(rows, prefix, start)|
    ensures var hits := Matching(rows, prefix, start);
            Matching(rows, prefix, Some(hits[limit - 1].key)) == hits[limit..]
  {
    var hits := Matching(rows, prefix, start);
    MatchingSorted(rows, prefix, start);
    HitsInRange(rows, prefix, start);
    assert InRange(hits[limit - 1].key, prefix, start);
    MatchingAfter(rows, prefix, start, hits[limit - 1].key);
    DropThrough(hits, prefix, limit - 1);
  }

  lemma HitsInRange(rows: seq<Row>, prefix: string, cursor: Option<string>)
    ensures forall j | 0 <= j < |Matching(rows, prefix, cursor)| ::
      InRange(Matching(rows, prefix, cursor)[j].key, prefix, cursor)
  {
    var hits := Matching(rows, prefix, cursor);
    assert forall j | 0 <= j < |hits| :: hits[j] in hits;
  }

  /** The one way to get stuck: pages of one key, and the empty key comes first. */
  predicate Stuck(rows: seq<Row>, prefix: string, limit: nat) {
    limit == 1 && prefix == "" && rows != [] && rows[0].key == ""
  }

  lemma OnlyEmptyKeyStops(rows: seq<Row>, prefix: string, limit: nat, cursor: Option<string>)
    requires Sorted(rows) && limit >= 1
    ensures Fetch(rows, prefix, limit, cursor).cursor == Some("") ==> Stuck(rows, prefix, limit)
  {
    var start := StartAfter(cursor);
    var hits := Matching(rows, prefix, start);
    MatchingSorted(rows, prefix, start);
    if |hits| >= limit {
      var last := hits[limit - 1];
      assert Take(hits, limit)[limit - 1] == last && last in hits;
      if last.key == "" {
        assert limit > 1 ==> Less(hits[0].key, hits[limit - 1].key);
        var i :| 0 <= i < |rows| && rows[i] == last;
        assert i > 0 ==> Less(rows[0].key, rows[i].key);
        assert InRange("", prefix, start);
      }
    }
  }

  /** All keys obtained by following cursors until the list is complete. */
  function Follow(rows: seq<Row>, prefix: string, limit: nat, cursor: Option<string>): seq<Key>
    requires Sorted(rows) && limit >= 1 && !Stuck(rows, prefix, limit)
    decreases |Matching(rows, prefix, StartAfter(cursor))|
  {
    var page := Fetch(rows, prefix, limit, cursor);
    if page.complete then page.keys else
      OnlyEmptyKeyStops(rows, prefix, limit, cursor);
      CursorContinues(rows, prefix, limit, cursor);
      page.keys + Follow(rows, prefix, limit, page.cursor)
  }

  /** Following cursors ends, and yields each matching key once, in order, whatever the page size. */
  lemma {:induction false} FollowEnumerates(rows: seq<Row>, prefix: string, limit: nat, cursor: Option<string>)
    requires Sorted(rows) && limit >= 1 && !Stuck(rows, prefix, limit)
    ensures Follow(rows, prefix, limit, cursor) == ToKeys(Matching(rows, prefix, StartAfter(cursor)))
    decreases |Matching(rows, prefix, StartAfter(cursor))|
  {
    var hits := Matching(rows, prefix, StartAfter(cursor));
    var page := Fetch(rows, prefix, limit, cursor);
    if !page.complete {
      OnlyEmptyKeyStops(rows, prefix, limit, cursor);
      CursorContinues(rows, prefix, limit, cursor);
      FollowEnumerates(rows, prefix, limit, page.cursor);
      PageThenRest(hits, limit);
    } else {
      assert Take(hits, limit) == hits;
    }
  }

  lemma PageThenRest(hits: seq<Row>, limit: nat)
    requires |hits| >= limit >= 1
    ensures PageOf(hits, limit).keys + ToKeys(hits[limit..]) == ToKeys(hits)
  {
    assert Take(hits, limit) == hits[..limit];
    assert ToKeys(hits) == ToKeys(hits[..limit]) + ToKeys(hits[limit..]);
  }

  /** When stuck, the cursor of the first page leads back to the first page, forever incomplete. */
  lemma StuckForever(rows: seq<Row>, prefix: string, limit: nat)
    requires Sorted(rows) && limit >= 1 && Stuck(rows, prefix, limit)
    ensures var first := Fetch(rows, prefix, limit, None);
            !first.complete && Fetch(rows, prefix, limit, first.cursor) == first
  {
    assert InRange("", prefix, None);
    assert Matching(rows, prefix, None)[0] == rows[0];
  }

  /** Such a store: the cursor after the empty key asks for the first page again. */
  lemma StuckExample()
    ensures var rows := [Row("", "v", None, None), Row("a", "w", None, None)];
            && Sorted(rows) && Stuck(rows, "", 1)
            && Fetch(rows, "", 1, None).cursor == Some("") && Fetch(rows, "", 1, Some("")) == Fetch(rows, "", 1, None)
  {
    var rows := [Row("", "v", None, None), Row("a", "w", None, None)];
    assert rows[0].key == "";
    StuckForever(rows, "", 1);
    assert Matching(rows, "", None)[0] == rows[0];
  }

  /** A key the listing of its prefix misses. */
  lemma LastCodePointIsMissed()
    ensures var key := "a" + [LAST_CODE_POINT] + "b"; "a" <= key && !InRange(key, "a", None)
  {
    var key := "a" + [LAST_CODE_POINT] + "b";
    assert key[1] == LAST_CODE_POINT;
    RangeIsPrefix(key, "a");
  }

  /** In terms of stored keys: ascending names, one for each row that has the prefix, and nothing else. */
  lemma FollowYieldsThePrefix(rows: seq<Row>, prefix: string, limit: nat)
    requires Sorted(rows) && limit >= 1 && !Stuck(rows, prefix, limit)
    ensures var keys := Follow(rows, prefix, limit, None);
            && (forall i, j | 0 <= i < j < |keys| :: Less(keys[i].name, keys[j].name))
            && (forall key :: key in keys <==> exists row :: row in rows && Selected(row.key, prefix) && key == ToKey(row))
  {
    var hits := Matching(rows, prefix, None);
    FollowEnumerates(rows, prefix, limit, None);
    MatchingSorted(rows, prefix, None);
    var keys := ToKeys(hits);
    forall row ensures row in hits <==> row in rows && Selected(row.key, prefix) {
      RangeIsPrefix(row.key, prefix);
    }
    forall row | row in hits ensures ToKey(row) in keys {
      var i :| 0 <= i < |hits| && hits[i] == row;
      assert keys[i] == ToKey(row);
    }
    forall key | key in keys ensures exists row :: row in hits && key == ToKey(row) {
      var i :| 0 <= i < |keys| && keys[i] == key;
      assert hits[i] in hits;
    }
  }

  // ---- Whole list requests --------------------------------------------------

  lemma {:induction false} PurgeTwice(rows: seq<Row>, now: int)
    ensures Purge(Purge(rows, now), now) == Purge(rows, now)
  {
    if rows != [] {
      PurgeTwice(rows[1..], now);
      if !Expired(rows[0], now) {
        assert ([rows[0]] + Purge(rows[1..], now))[1..] == Purge(rows[1..], now);
      }
    }
  }

  /** The keys from list requests at one instant, each with the cursor of the reply before, until a reply is complete. */
  function ListAll(rows: seq<Row>, prefix: Option<string>, limit: Option<int>, cursor: Option<string>, now: int): seq<Key>
    requires Sorted(rows) && !Stuck(Purge(rows, now), PrefixOf(prefix), ClampLimit(limit))
    decreases |Matching(Purge(rows, now), PrefixOf(prefix), StartAfter(cursor))|
  {
    var (kept, reply) := LazyStep(rows, Request.List(prefix, limit, cursor), now);
    if reply.page.complete then reply.page.keys else
      PurgeSorted(rows, now);
      PurgeTwice(rows, now);
      OnlyEmptyKeyStops(kept, PrefixOf(prefix), ClampLimit(limit), cursor);
      CursorContinues(kept, PrefixOf(prefix), ClampLimit(limit), cursor);
      reply.page.keys + ListAll(kept, prefix, limit, reply.page.cursor, now)
  }

  lemma {:induction false} ListAllFollows(
      rows: seq<Row>, prefix: Option<string>, limit: Option<int>, cursor: Option<string>, now: int)
    requires Sorted(rows) && Sorted(Purge(rows, now)) && !Stuck(Purge(rows, now), PrefixOf(prefix), ClampLimit(limit))
    ensures ListAll(rows, prefix, limit, cursor, now)
         == Follow(Purge(rows, now), PrefixOf(prefix), ClampLimit(limit), cursor)
    decreases |Matching(Purge(rows, now), PrefixOf(prefix), StartAfter(cursor))|
  {
    var kept := Purge(rows, now);
    var page := Fetch(kept, PrefixOf(prefix), ClampLimit(limit), cursor);
    ListReply(rows, prefix, limit, cursor, now);
    if !page.complete {
      PurgeTwice(rows, now);
      OnlyEmptyKeyStops(kept, PrefixOf(prefix), ClampLimit(limit), cursor);
      CursorContinues(kept, PrefixOf(prefix), ClampLimit(limit), cursor);
      ListAllFollows(kept, prefix, limit, page.cursor, now);
      assert ListAll(rows, prefix, limit, cursor, now) == page.keys + ListAll(kept, prefix, limit, page.cursor, now);
    }
  }

  lemma ListReply(rows: seq<Row>, prefix: Option<string>, limit: Option<int>, cursor: Option<string>, now: int)
    ensures LazyStep(rows, Request.List(prefix, limit, cursor), now)
         == (Purge(rows, now), Listed(Fetch(Purge(rows, now), PrefixOf(prefix), ClampLimit(limit), cursor)))
  {
  }

  /** A requested prefix; none selects from all keys. */
  predicate Wanted(key: string, prefix: Option<string>) {
    match prefix
    case Some(p) => Selected(key, p)
    case None => key == "" || key[0] != '\U{10FFFF}'
  }

  lemma WantedIsSelected(key: string, prefix: Option<string>)
    ensures Selected(key, PrefixOf(prefix)) <==> Wanted(key, prefix)
  {
  }

  /** Every key of a reply has the requested prefix and is live. */
  lemma ReplyHasPrefix(rows: seq<Row>, prefix: string, limit: Option<int>, cursor: Option<string>, now: int, i: nat)
    requires Sorted(rows)
    requires i < |LazyStep(rows, Request.List(Some(prefix), limit, cursor), now).1.page.keys|
    ensures var name := LazyStep(rows, Request.List(Some(prefix), limit, cursor), now).1.page.keys[i].name;
            && prefix <= name
            && (cursor != None && cursor != Some("") ==> Less(cursor.value, name))
            && exists row | row in rows :: row.key == name && (row.expireAt == None || row.expireAt.value > now)
  {
    var kept := Purge(rows, now);
    var hits := Matching(kept, prefix, StartAfter(cursor));
    ListReply(rows, Some(prefix), limit, cursor, now);
    var row := hits[i];
    assert row in hits;
    PurgeSorted(rows, now);
    RangeIsPrefix(row.key, prefix);
  }

  /** A reply has at most 1000 keys, and as many as were asked for from 1 to 1000; it is complete when it has fewer. */
  lemma ReplyLimit(rows: seq<Row>, prefix: Option<string>, limit: Option<int>, cursor: Option<string>, now: int)
    ensures var page := LazyStep(rows, Request.List(prefix, limit, cursor), now).1.page;
            var most := if limit == None || limit.value > 1000 then 1000 else if limit.value < 1 then 1 else limit.value;
            && |page.keys| <= most && (page.complete <==> |page.keys| < most)
            && (page.cursor == if page.complete then None else Some(page.keys[|page.keys| - 1].name))
  {
  }

  /**
   * List requests for any prefix and any requested limit, in or out of bounds: ascending names, one entry for
   * each row that is live and has the prefix, and nothing else.
   */
  lemma ListRequestsYieldThePrefix(rows: seq<Row>, prefix: Option<string>, limit: Option<int>, now: int)
    requires Sorted(rows) && !Stuck(Purge(rows, now), PrefixOf(prefix), ClampLimit(limit))
    ensures var keys := ListAll(rows, prefix, limit, None, now);
            && (forall i, j | 0 <= i < j < |keys| :: Less(keys[i].name, keys[j].name))
            && (forall key :: key in keys <==> exists row ::
                  row in rows && !Expired(row, now) && Wanted(row.key, prefix) && key == ToKey(row))
  {
    PurgeSorted(rows, now);
    ListAllFollows(rows, prefix, limit, None, now);
    FollowYieldsThePrefix(Purge(rows, now), PrefixOf(prefix), ClampLimit(limit));
    forall key: string ensures Selected(key, PrefixOf(prefix)) <==> Wanted(key, prefix) {
      WantedIsSelected(key, prefix);
    }
  }

  /** What a listed entry shows of its row. */
  lemma KeyMeans(key: string, value: string, metadata: Option<JsonTree.Json>, ms: int)
    ensures ToKey(Row(key, value, metadata, None)) == Key(key, None, metadata)
    ensures ToKey(Row(key, value, metadata, Some(ms))) == Key(key, Some(ms / 1000), metadata)
  {
  }
}
