/** Client records, the tag index and protocol instances (src/routes/clients.ts, tags.ts, protocol-instances.ts). */
module ClientStore {
  import opened Wrappers
  import opened JsonTree
  import opened Text

  const CLIENT_CONFIG_TTL_MS := 7776000 * 1000
  const LIST_PAGE := 1000
  const FALLBACK_SCAN_LIMIT := 30

  // ---- Data ----------------------------------------------------------------

  /** `Number(raw)` when it is an integer, else None; and the LIKE match of a tag in a params text. */
  datatype Js = Js(toInteger: Json -> Option<int>, like: (Json, string) -> bool)

  /** A config's owner: also the text `fingerprint:name` stored as the value of a claim. */
  datatype Id = Id(fingerprint: string, name: string)

  datatype Record = Record(
    id: Id, config: Json, protocolType: string, contentHash: string,
    enabled: bool, deployed: bool, createdAt: int, updatedAt: int)

  /** The metadata mirrored next to a record. */
  datatype Meta = Meta(
    id: Id, protocolType: string, contentHash: string, enabled: bool, deployed: bool,
    port: Option<int>, tag: string, createdAt: int, updatedAt: int)

  /** A `client:` entry; records from before the mirror have no metadata. */
  datatype Stored = Stored(record: Record, meta: Option<Meta>, expireAt: int)

  /** A `tag:` entry. */
  datatype Claim = Claim(owner: Id, expireAt: int)

  /** A protocol_instances row: its params and the indexed column. */
  datatype InstanceRow = InstanceRow(params: Json, tag: string)

  datatype World = World(records: map<Id, Stored>, claims: map<string, Claim>, instances: map<string, InstanceRow>)

  datatype Upload = Upload(config: Json, protocolType: string, contentHash: string, enabled: bool, deployed: bool)

  // ---- Keys as texts -------------------------------------------------------

  function ClientKey(id: Id): string {
    "client:" + id.fingerprint + ":" + id.name
  }

  function TagIndexKey(tag: string): string {
    "tag:" + tag
  }

  function OwnerText(id: Id): string {
    id.fingerprint + ":" + id.name
  }

  /** `a`'s name starts with what `b`'s fingerprint adds to `a`'s, so that both spell the same text. */
  predicate Spells(a: Id, b: Id) {
    && StartsWith(b.fingerprint, a.fingerprint + ":")
    && a.name == b.fingerprint[|a.fingerprint| + 1..] + ":" + b.name
  }

  lemma OwnerTextAt(a: Id, k: nat)
    ensures k < |a.fingerprint| ==> OwnerText(a)[k] == a.fingerprint[k]
    ensures OwnerText(a)[|a.fingerprint|] == ':'
    ensures OwnerText(a)[..|a.fingerprint|] == a.fingerprint && OwnerText(a)[|a.fingerprint| + 1..] == a.name
  {
  }

  /** Equal texts with fingerprints of different length: the longer one extends the shorter by a colon. */
  lemma LongerExtends(a: Id, b: Id)
    requires |a.fingerprint| < |b.fingerprint|
    ensures OwnerText(a) == OwnerText(b) <==> Spells(a, b)
  {
    var n, m := |a.fingerprint|, |b.fingerprint|;
    OwnerTextAt(a, n);
    OwnerTextAt(b, n);
    if OwnerText(a) == OwnerText(b) {
      assert b.fingerprint[..n] == OwnerText(b)[..n] == a.fingerprint;
      assert b.fingerprint[..n + 1] == a.fingerprint + ":";
      assert OwnerText(a)[n + 1..] == a.name;
      assert OwnerText(b)[n + 1..] == b.fingerprint[n + 1..] + ":" + b.name;
    } else if Spells(a, b) {
      SpelledTogether(a, b);
    }
  }

  lemma SpelledTogether(a: Id, b: Id)
    requires Spells(a, b)
    ensures OwnerText(a) == OwnerText(b)
  {
    var x := b.fingerprint[|a.fingerprint| + 1..];
    assert b.fingerprint[..|a.fingerprint| + 1] == a.fingerprint + ":";
    assert b.fingerprint == a.fingerprint + ":" + x;
    assert a.fingerprint + ":" + (x + ":" + b.name) == a.fingerprint + ":" + x + ":" + b.name;
  }

  /** Exactly when two configs share a key, or an owner text; tag keys are distinct and are no client keys. */
  lemma KeysAreDistinct(a: Id, b: Id, tag: string, other: string)
    ensures OwnerText(a) == OwnerText(b) <==> a == b || Spells(a, b) || Spells(b, a)
    ensures ClientKey(a) == ClientKey(b) <==> a == b || Spells(a, b) || Spells(b, a)
    ensures TagIndexKey(tag) == TagIndexKey(other) <==> tag == other
    ensures TagIndexKey(tag) != ClientKey(a)
  {
    if |a.fingerprint| < |b.fingerprint| {
      LongerExtends(a, b);
    } else if |b.fingerprint| < |a.fingerprint| {
      LongerExtends(b, a);
    } else {
      OwnerTextAt(a, 0);
      OwnerTextAt(b, 0);
    }
    KeyIsOwnerText(a);
    KeyIsOwnerText(b);
    assert TagIndexKey(tag)[4..] == tag && TagIndexKey(other)[4..] == other;
    assert TagIndexKey(tag)[0] == 't' && ClientKey(a)[0] == 'c';
  }

  lemma KeyIsOwnerText(a: Id)
    ensures ClientKey(a) == "client:" + OwnerText(a) && ClientKey(a)[7..] == OwnerText(a)
  {
    assert ClientKey(a) == "client:" + OwnerText(a);
  }

  /** One fingerprint goes on where the other ends, after a colon. */
  predicate Extends(longer: string, shorter: string) {
    StartsWith(longer, shorter + ":")
  }

  /** Some configs of two different nodes share a key exactly when one fingerprint extends the other by a colon. */
  lemma FingerprintsCollide(f: string, g: string)
    requires f != g
    ensures (exists m: string, n: string :: ClientKey(Id(f, m)) == ClientKey(Id(g, n))) <==> Extends(f, g) || Extends(g, f)
  {
    if m: string, n: string :| ClientKey(Id(f, m)) == ClientKey(Id(g, n)) {
      KeysAreDistinct(Id(f, m), Id(g, n), "", "");
    }
    if Extends(g, f) {
      var m := g[|f| + 1..] + ":";
      assert m + "" == m;
      KeysAreDistinct(Id(f, m), Id(g, ""), "", "");
    }
    if Extends(f, g) {
      var n := f[|g| + 1..] + ":";
      assert n + "" == n;
      KeysAreDistinct(Id(g, n), Id(f, ""), "", "");
    }
  }

  /** The listing prefix of a node. */
  function NodePrefix(fingerprint: string): string {
    "client:" + fingerprint + ":"
  }

  lemma ShortPrefix(p: string, u: string, v: string)
    requires |p| <= |u|
    ensures p <= u + v <==> p <= u
  {
    assert (u + v)[..|p|] == u[..|p|];
  }

  lemma LongPrefix(p: string, u: string, v: string)
    requires |p| >= |u|
    ensures p <= u + v <==> u <= p && p[|u|..] <= v
  {
    if p <= u + v {
      assert p[..|u|] == (u + v)[..|p|][..|u|] == u;
      assert p[|u|..] == (u + v)[..|p|][|u|..] == v[..|p| - |u|];
    }
    assert u <= p ==> p == u + p[|u|..];
  }

  /** Exactly which configs the prefix of a node selects: its own, and some of nodes whose fingerprint collides. */
  lemma PrefixSelectsNode(fingerprint: string, id: Id)
    ensures StartsWith(ClientKey(id), NodePrefix(fingerprint))
        <==> id.fingerprint == fingerprint || Extends(id.fingerprint, fingerprint)
             || (Extends(fingerprint, id.fingerprint) && Extends(id.name, fingerprint[|id.fingerprint| + 1..]))
  {
    var p, own, n, m := fingerprint + ":", id.fingerprint + ":", |fingerprint|, |id.fingerprint|;
    KeyIsOwnerText(id);
    PrefixOfText(fingerprint, OwnerText(id));
    assert n == m && p <= own ==> fingerprint == p[..n] == own[..n] == id.fingerprint;
    if n <= m {
      ShortPrefix(p, own, id.name);
      if n < m { ShortPrefix(p, id.fingerprint, ":"); }
    } else {
      LongPrefix(p, own, id.name);
      ShortPrefix(own, fingerprint, ":");
      assert p[m + 1..] == fingerprint[m + 1..] + ":";
    }
  }

  lemma PrefixOfText(fingerprint: string, text: string)
    ensures StartsWith("client:" + text, NodePrefix(fingerprint)) <==> StartsWith(text, fingerprint + ":")
  {
    var key, prefix := "client:" + text, NodePrefix(fingerprint);
    assert prefix[7..] == fingerprint + ":" && key[7..] == text;
    if prefix <= key {
      assert key[..|prefix|] == prefix;
      assert text[..|fingerprint| + 1] == key[..|prefix|][7..];
    }
    if StartsWith(text, fingerprint + ":") {
      assert key[..|prefix|] == "client:" + text[..|fingerprint| + 1];
      assert "client:" + (fingerprint + ":") == prefix;
    }
  }

  /** A listing can show another node's configs exactly when the two fingerprints collide. */
  lemma PrefixesCollide(f: string, g: string)
    requires f != g
    ensures (exists n: string :: StartsWith(ClientKey(Id(g, n)), NodePrefix(f))) <==> Extends(f, g) || Extends(g, f)
  {
    if n: string :| StartsWith(ClientKey(Id(g, n)), NodePrefix(f)) {
      PrefixSelectsNode(f, Id(g, n));
    }
    if Extends(f, g) {
      var n := f[|g| + 1..] + ":";
      PrefixSelectsNode(f, Id(g, n));
      assert StartsWith(ClientKey(Id(g, n)), NodePrefix(f));
    }
    if Extends(g, f) {
      PrefixSelectsNode(f, Id(g, ""));
      assert StartsWith(ClientKey(Id(g, "")), NodePrefix(f));
    }
  }

  /** A fingerprint without a colon extends none. */
  lemma ExtendingHasColon(f: string, g: string)
    ensures Extends(f, g) ==> ':' in f
  {
    if Extends(f, g) { assert f[|g|] == (g + ":")[|g|]; }
  }

  /** With a colon in a fingerprint, two configs share one key. */
  lemma ColonFingerprintsCollide()
    ensures ClientKey(Id("a", "b:c")) == ClientKey(Id("a:b", "c"))
  {
  }

  // ---- Extraction ----------------------------------------------------------

  function NotNull(v: Option<Json>): Option<Json> {
    if v == Some(Null) then None else v
  }

  function ExtractPort(config: Json, js: Js): Option<int> {
    var server := NotNull(FieldOf(config, "server_port"));
    var raw := if server.Some? then server else FieldOf(config, "listen_port");
    var port := if raw.Some? then js.toInteger(raw.value) else None;
    if port.Some? && 0 < port.value <= 65535 then port else None
  }

  function FieldOf(config: Json, name: string): Option<Json> {
    if config.Obj? then Field(config.fields, name) else None
  }

  /** The tag as written, when it is a string. */
  function RawTag(config: Json): Option<string> {
    var tag := FieldOf(config, "tag");
    if tag.Some? && tag.value.Str? then Some(tag.value.s) else None
  }

  function ExtractTag(config: Json): string {
    var raw := RawTag(config);
    if raw.Some? then Trim(raw.value) else ""
  }

  /** The metadata a record should have. */
  function Project(r: Record, js: Js): Meta {
    Meta(r.id, r.protocolType, r.contentHash, r.enabled, r.deployed, ExtractPort(r.config, js), ExtractTag(r.config),
      r.createdAt, r.updatedAt)
  }

  // ---- Reading the store ---------------------------------------------------

  predicate LiveRecord(w: World, id: Id, now: int) {
    id in w.records && now < w.records[id].expireAt
  }

  /** `get` on a tag key: the owner, or None when absent or expired. */
  function LiveOwner(claims: map<string, Claim>, tag: string, now: int): Option<Id> {
    if tag in claims && now < claims[tag].expireAt then Some(claims[tag].owner) else None
  }

  /** Metadata as `metaOf` sees it: absent without a mirrored name. */
  function MetaOf(s: Stored): Option<Meta> {
    if s.meta.Some? && s.meta.value.id.name != "" then s.meta else None
  }

  function NodeKeys(w: World, fingerprint: string, now: int): set<Id> {
    set id | id in w.records && id.fingerprint == fingerprint && LiveRecord(w, id, now)
  }

  /** A listing of a node's keys: failed, complete, or cut off at one page. */
  ghost predicate IsListing(w: World, fingerprint: string, now: int, page: Option<set<Id>>) {
    page.Some? ==>
      && page.value <= NodeKeys(w, fingerprint, now)
      && (|NodeKeys(w, fingerprint, now)| <= LIST_PAGE ==> page.value == NodeKeys(w, fingerprint, now))
  }

  // ---- PUT -----------------------------------------------------------------

  datatype PutReply = PortConflict | Saved(record: Record, created: bool)

  predicate Conflicts(w: World, page: Option<set<Id>>, id: Id, port: Option<int>) {
    && port.Some? && page.Some?
    && exists other :: other in page.value && other != id && other in w.records
         && MetaOf(w.records[other]).Some? && MetaOf(w.records[other]).value.port == port
  }

  function PrevMeta(w: World, page: Option<set<Id>>, id: Id): Option<Meta> {
    if page.Some? && id in page.value && id in w.records then MetaOf(w.records[id]) else None
  }

  function NewRecord(prev: Option<Meta>, id: Id, upload: Upload, now: int): Record {
    Record(id, upload.config, upload.protocolType, upload.contentHash, upload.enabled, upload.deployed,
      if prev.Some? then prev.value.createdAt else now, now)
  }

  /** Index maintenance after the record was saved. */
  function Reindex(claims: map<string, Claim>, id: Id, tag: string, prevTag: string, now: int): map<string, Claim> {
    var mine := Claim(id, now + CLIENT_CONFIG_TTL_MS);
    var owner := LiveOwner(claims, tag, now);
    var claimed :=
      if tag != "" && (tag != prevTag || owner.None? || owner == Some(id)) then claims[tag := mine] else claims;
    if prevTag != "" && prevTag != tag && LiveOwner(claimed, prevTag, now) == Some(id)
    then claimed - {prevTag} else claimed
  }

  function PutSpec(w: World, page: Option<set<Id>>, id: Id, upload: Upload, now: int, js: Js): (World, PutReply) {
    if Conflicts(w, page, id, ExtractPort(upload.config, js)) then (w, PortConflict) else
      var prev := PrevMeta(w, page, id);
      var record := NewRecord(prev, id, upload, now);
      var stored := Stored(record, Some(Project(record, js)), now + CLIENT_CONFIG_TTL_MS);
      (w.(records := w.records[id := stored],
          claims := Reindex(w.claims, id, ExtractTag(upload.config), if prev.Some? then prev.value.tag else "", now)),
       Saved(record, prev.None?))
  }

  // ---- DELETE --------------------------------------------------------------

  function DeleteSpec(w: World, id: Id, now: int): (World, bool) {
    if !LiveRecord(w, id, now) then (w, false) else
      var tag := ExtractTag(w.records[id].record.config);
      (w.(records := w.records - {id},
          claims := if tag != "" && LiveOwner(w.claims, tag, now) == Some(id) then w.claims - {tag} else w.claims),
       true)
  }

  // ---- Tag check -----------------------------------------------------------

  predicate IndexedInstance(w: World, tag: string) {
    exists i :: i in w.instances && w.instances[i].tag == tag
  }

  /** A row the legacy probe would recognise. */
  predicate LegacyHit(w: World, i: string, tag: string, js: Js) {
    i in w.instances && js.like(w.instances[i].params, tag) && RawTag(w.instances[i].params) == Some(tag)
  }

  /** The fallback scan's keys: live records, a bounded number of them. */
  predicate IsScan(w: World, scanned: seq<Id>, now: int) {
    |scanned| <= FALLBACK_SCAN_LIMIT && forall id | id in scanned :: LiveRecord(w, id, now)
  }

  predicate ScanHit(w: World, id: Id, tag: string) {
    id in w.records && RawTag(w.records[id].record.config) == Some(tag)
  }

  /** The answer, stage by stage; `scanned` is None when the KV listing fails. */
  predicate CheckAnswer(w: World, tag: string, now: int, scanned: Option<seq<Id>>, js: Js) {
    && !IndexedInstance(w, tag)
    && !(IndexedInstance(w, "") && exists i :: i in w.instances && LegacyHit(w, i, tag, js))
    && LiveOwner(w.claims, tag, now).None?
    && !(scanned.Some? && exists id :: id in scanned.value && ScanHit(w, id, tag))
  }

  /**
   * What a check leaves behind when its backfill succeeds: a column filled in where the probe found the tag, a
   * claim where only the scan found it, and otherwise nothing.
   */
  ghost predicate CheckEffect(
      w: World, tag: string, now: int, scanned: Option<seq<Id>>, js: Js, healed: bool, w': World)
  {
    if !healed || IndexedInstance(w, tag) then w' == w
    else if IndexedInstance(w, "") && exists i :: i in w.instances && LegacyHit(w, i, tag, js) then
      exists i :: LegacyHit(w, i, tag, js)
        && w' == w.(instances := w.instances[i := w.instances[i].(tag := tag)])
    else if LiveOwner(w.claims, tag, now).Some? then w' == w
    else if scanned.Some? && exists id :: id in scanned.value && ScanHit(w, id, tag) then
      exists id :: id in scanned.value && ScanHit(w, id, tag)
        && w' == w.(claims := w.claims[tag := Claim(w.records[id].record.id, now + CLIENT_CONFIG_TTL_MS)])
    else w' == w
  }

  // ---- Protocol instances --------------------------------------------------

  datatype InstanceReply = NodeNotFound | ProtocolNotFound | InstanceNotFound | RenderFailed | RowWritten

  /** A row's column is its trimmed tag; rows from before the column have a trimmed tag that LIKE can find. */
  predicate RowOk(row: InstanceRow, js: Js) {
    var tag := ExtractTag(row.params);
    || row.tag == tag
    || (row.tag == "" && RawTag(row.params) == Some(tag) && js.like(row.params, tag))
  }

  /** One row is written, recognisable by its column, which has no space around it; every other row is as before. */
  ghost predicate RowWrite(
      before: map<string, InstanceRow>, i: string, params: Json, after: map<string, InstanceRow>, js: Js)
  {
    && after.Keys == before.Keys + {i}
    && (forall k | k in before && k != i :: after[k] == before[k])
    && after[i].params == params && RowOk(after[i], js)
    && after[i].tag == Trim(after[i].tag)
    && (RawTag(params).Some? ==> after[i].tag == Trim(RawTag(params).value))
    && (RawTag(params).None? ==> after[i].tag == "")
  }

  lemma ExtractTagMeans(config: Json)
    ensures Trim(ExtractTag(config)) == ExtractTag(config)
  {
    if RawTag(config).Some? { TrimTwice(RawTag(config).value); }
  }

  lemma TrimTwice(s: string)
    ensures Trim(Trim(s)) == Trim(s)
  {
    TrimStartClean(s);
    TrimEndClean(TrimStart(s));
  }

  lemma {:induction false} TrimStartClean(s: string)
    ensures var t := TrimStart(s); t == "" || !IsSpace(t[0])
  {
    if s != "" && IsSpace(s[0]) { TrimStartClean(s[1..]); }
  }

  lemma {:induction false} TrimEndClean(s: string)
    ensures var t := TrimEnd(s); t == "" || !IsSpace(t[|t| - 1])
    ensures var t := TrimEnd(s); t != "" ==> t[0] == s[0]
  {
    if s != "" && IsSpace(s[|s| - 1]) { TrimEndClean(s[..|s| - 1]); }
  }

  // ---- Listing -------------------------------------------------------------

  const MAX_LIST_RESULTS := 500
  const MAX_KV_READS := 45

  /** What a metadata-only listing tells of a config; a record without metadata is read and returned in full. */
  datatype Listed =
    | FromMeta(id: Id, protocolType: string, contentHash: string, enabled: bool, deployed: bool,
               createdAt: int, updatedAt: int)
    | InFull(record: Record)

  function MetaEntry(m: Meta): Listed {
    FromMeta(m.id, m.protocolType, m.contentHash, m.enabled, m.deployed, m.createdAt, m.updatedAt)
  }

  /** The part of a full record that a metadata entry shows. */
  function Summary(r: Record): Listed {
    FromMeta(r.id, r.protocolType, r.contentHash, r.enabled, r.deployed, r.createdAt, r.updatedAt)
  }

  /** The metadata-only listing in key order: metadata where it is mirrored, `budget` reads for records without. */
  function MetadataListing(w: World, keys: seq<Id>, budget: nat): seq<Listed>
    requires forall id | id in keys :: id in w.records
  {
    if keys == [] then [] else
      var stored := w.records[keys[0]];
      if MetaOf(stored).Some? then [MetaEntry(MetaOf(stored).value)] + MetadataListing(w, keys[1..], budget)
      else if budget == 0 then MetadataListing(w, keys[1..], 0)
      else [InFull(stored.record)] + MetadataListing(w, keys[1..], budget - 1)
  }

  lemma ListingHead(w: World, keys: seq<Id>, i: nat, budget: nat, list: seq<Listed>)
    requires i < |keys| && forall id | id in keys :: id in w.records
    ensures var stored := w.records[keys[i]];
            list + MetadataListing(w, keys[i..], budget)
            == if MetaOf(stored).Some?
               then list + [MetaEntry(MetaOf(stored).value)] + MetadataListing(w, keys[i + 1..], budget)
               else if budget == 0 then list + MetadataListing(w, keys[i + 1..], 0)
               else list + [InFull(stored.record)] + MetadataListing(w, keys[i + 1..], budget - 1)
  {
    assert keys[i..][0] == keys[i] && keys[i..][1..] == keys[i + 1..];
  }

  /** What reading every record would show. */
  function FullListing(w: World, keys: seq<Id>): seq<Listed>
    requires forall id | id in keys :: id in w.records
  {
    seq(|keys|, i requires 0 <= i < |keys| => Summary(w.records[keys[i]].record))
  }

  function Bounded<T>(s: seq<T>, n: nat): seq<T> {
    if |s| <= n then s else s[..n]
  }

  // ---- The handlers --------------------------------------------------------

  datatype KeyWithMeta = KeyWithMeta(id: Id, metadata: Option<Meta>)

  function Ids(keys: seq<KeyWithMeta>): set<Id> {
    set k | k in keys :: k.id
  }

  /** The listed metadata of the key itself, and whether another listed key has the port. */
  method ScanSiblings(siblings: seq<KeyWithMeta>, id: Id, port: Option<int>, ghost w: World)
    returns (prevMeta: Option<Meta>, conflict: bool)
    requires forall k | k in siblings :: k.id in w.records && k.metadata == w.records[k.id].meta
    ensures prevMeta == PrevMeta(w, Some(Ids(siblings)), id)
    ensures conflict <==> Conflicts(w, Some(Ids(siblings)), id, port)
  {
    prevMeta, conflict := None, false;
    for i := 0 to |siblings|
      invariant prevMeta == if exists k | k in siblings[..i] :: k.id == id then MetaOf(w.records[id]) else None
      invariant conflict <==> port.Some? && exists k | k in siblings[..i] ::
        k.id != id && MetaOf(w.records[k.id]).Some? && MetaOf(w.records[k.id]).value.port == port
    {
      var sibling := siblings[i];
      assert siblings[..i + 1] == siblings[..i] + [sibling];
      var m := if sibling.metadata.Some? && sibling.metadata.value.id.name != "" then sibling.metadata else None;
      if sibling.id == id {
        prevMeta := m;
      } else if port.Some? && m.Some? && m.value.port == port {
        conflict := true;
      }
    }
    assert siblings[..|siblings|] == siblings;
  }

  class Cloud {
    var records: map<Id, Stored>
    var claims: map<string, Claim>
    var instances: map<string, InstanceRow>
    const js: Js

    function Contents(): World
      reads this
    {
      World(records, claims, instances)
    }

    constructor (js: Js)
      ensures Contents() == World(map[], map[], map[]) && this.js == js
    {
      this.js := js;
      records, claims, instances := map[], map[], map[];
    }

    /** One page of a node's keys with their metadata, or None when the KV list fails. */
    method ListClientKeys(fingerprint: string, now: int, kvUp: bool) returns (keys: Option<seq<KeyWithMeta>>)
      ensures keys.Some? == kvUp
      ensures IsListing(Contents(), fingerprint, now, if kvUp then Some(Ids(keys.value)) else None)
      ensures kvUp ==> forall k | k in keys.value :: k.id in records && k.metadata == records[k.id].meta
    {
      if !kvUp { return None; }
      var found: seq<KeyWithMeta> := [];
      var rest := NodeKeys(Contents(), fingerprint, now);
      while rest != {} && |found| < LIST_PAGE
        invariant Ids(found) + rest == NodeKeys(Contents(), fingerprint, now) && Ids(found) !! rest
        invariant |Ids(found)| == |found| <= LIST_PAGE
        invariant forall k | k in found :: k.id in records && k.metadata == records[k.id].meta
        decreases rest
      {
        var id :| id in rest;
        ghost var before := Ids(found);
        found := found + [KeyWithMeta(id, records[id].meta)];
        assert Ids(found) == before + {id};
        rest := rest - {id};
      }
      if rest != {} {
        assert |NodeKeys(Contents(), fingerprint, now)| == |Ids(found)| + |rest|;
      }
      keys := Some(found);
    }

    method Put(id: Id, upload: Upload, now: int, kvUp: bool) returns (reply: PutReply, ghost page: Option<set<Id>>)
      modifies this
      ensures page.Some? == kvUp && IsListing(old(Contents()), id.fingerprint, now, page)
      ensures (Contents(), reply) == PutSpec(old(Contents()), page, id, upload, now, js)
    {
      var siblings := ListClientKeys(id.fingerprint, now, kvUp);
      page := if siblings.Some? then Some(Ids(siblings.value)) else None;
      var prevMeta: Option<Meta> := None;
      var port := ExtractPort(upload.config, js);
      if siblings.Some? {
        var conflict: bool;
        prevMeta, conflict := ScanSiblings(siblings.value, id, port, Contents());
        if conflict { return PortConflict, page; }
      }
      var record := Record(id, upload.config, upload.protocolType, upload.contentHash, upload.enabled, upload.deployed,
        if prevMeta.Some? then prevMeta.value.createdAt else now, now);
      var meta := Project(record, js);
      records := records[id := Stored(record, Some(meta), now + CLIENT_CONFIG_TTL_MS)];
      MaintainIndex(id, meta.tag, if prevMeta.Some? then prevMeta.value.tag else "", now);
      reply := Saved(record, prevMeta.None?);
    }

    method MaintainIndex(id: Id, tag: string, prevTag: string, now: int)
      modifies this`claims
      ensures claims == Reindex(old(claims), id, tag, prevTag, now)
    {
      if tag != "" && tag != prevTag {
        claims := claims[tag := Claim(id, now + CLIENT_CONFIG_TTL_MS)];
      } else if tag != "" && tag == prevTag {
        var owner := LiveOwner(claims, tag, now);
        if owner.None? || owner.value == id {
          claims := claims[tag := Claim(id, now + CLIENT_CONFIG_TTL_MS)];
        }
      }
      if prevTag != "" && prevTag != tag {
        var owner := LiveOwner(claims, prevTag, now);
        if owner == Some(id) {
          claims := claims - {prevTag};
        }
      }
    }

    /** Listing the keys of one KV page: the handler of `GET /` before it sorts by update time. */
    method ListClients(page: seq<Id>) returns (list: seq<Listed>)
      requires forall id | id in page :: id in records
      ensures list == MetadataListing(Contents(), if |page| <= 500 then page else page[..500], 45)
    {
      var readable := Bounded(page, MAX_LIST_RESULTS);
      var budget := MAX_KV_READS;
      ghost var w := Contents();
      list := [];
      for i := 0 to |readable|
        invariant budget >= 0
        invariant list + MetadataListing(w, readable[i..], budget) == MetadataListing(w, readable, MAX_KV_READS)
      {
        var stored := records[readable[i]];
        ListingHead(w, readable, i, budget, list);
        if MetaOf(stored).Some? {
          list := list + [MetaEntry(MetaOf(stored).value)];
        } else if budget > 0 {
          list, budget := list + [InFull(stored.record)], budget - 1;
        }
      }
      assert readable[|readable|..] == [] && list + [] == list;
    }

    method Delete(id: Id, now: int) returns (found: bool)
      modifies this
      ensures (Contents(), found) == DeleteSpec(old(Contents()), id, now)
    {
      if !LiveRecord(Contents(), id, now) { return false; }
      var stored := records[id];
      records := records - {id};
      var tag := ExtractTag(stored.record.config);
      if tag != "" {
        var owner := LiveOwner(claims, tag, now);
        if owner == Some(id) {
          claims := claims - {tag};
        }
      }
      found := true;
    }

    /** `scanned`: the keys the fallback scan reads, None when listing them fails; `healed`: whether a backfill succeeds. */
    method Check(tag: string, now: int, scanned: Option<seq<Id>>, healed: bool) returns (available: bool)
      requires tag != "" && (scanned.Some? ==> IsScan(Contents(), scanned.value, now))
      modifies this
      ensures available == CheckAnswer(old(Contents()), tag, now, scanned, js)
      ensures CheckEffect(old(Contents()), tag, now, scanned, js, healed, Contents())
      ensures available ==> Contents() == old(Contents())
    {
      ghost var w := Contents();
      if i :| i in instances && instances[i].tag == tag {
        return false;
      }
      if j :| j in instances && instances[j].tag == "" {
        assert IndexedInstance(w, "");
        var rest := set i | i in instances && js.like(instances[i].params, tag);
        while rest != {}
          invariant rest <= instances.Keys
          invariant Contents() == w
          invariant forall i | LegacyHit(w, i, tag, js) :: i in rest
          decreases rest
        {
          var i :| i in rest;
          if RawTag(instances[i].params) == Some(tag) {
            assert LegacyHit(w, i, tag, js);
            if healed {
              instances := instances[i := instances[i].(tag := tag)];
            }
            return false;
          }
          rest := rest - {i};
        }
      }
      assert !(IndexedInstance(w, "") && exists i :: i in w.instances && LegacyHit(w, i, tag, js));
      if LiveOwner(claims, tag, now).Some? { return false; }
      if scanned.Some? {
        for i := 0 to |scanned.value|
          invariant Contents() == w
          invariant forall id | id in scanned.value[..i] :: !ScanHit(w, id, tag)
        {
          var id := scanned.value[i];
          assert scanned.value[..i + 1] == scanned.value[..i] + [id];
          assert LiveRecord(w, id, now);
          if RawTag(records[id].record.config) == Some(tag) {
            assert ScanHit(w, id, tag);
            if healed {
              claims := claims[tag := Claim(records[id].record.id, now + CLIENT_CONFIG_TTL_MS)];
            }
            return false;
          }
        }
        assert scanned.value[..|scanned.value|] == scanned.value;
      }
      available := true;
    }

    /** `nodeKnown` and `protocolKnown`: the two lookups; `renders`: whether both templates render with the params. */
    method CreateInstance(i: string, params: Json, nodeKnown: bool, protocolKnown: bool, renders: bool)
      returns (reply: InstanceReply)
      requires i !in instances
      modifies this`instances
      ensures reply == if !nodeKnown then NodeNotFound else if !protocolKnown then ProtocolNotFound
                       else if !renders then RenderFailed else RowWritten
      ensures reply.RowWritten? ==> RowWrite(old(instances), i, params, instances, js)
      ensures !reply.RowWritten? ==> instances == old(instances)
    {
      if !nodeKnown { return NodeNotFound; }
      if !protocolKnown { return ProtocolNotFound; }
      if !renders { return RenderFailed; }
      instances := instances[i := InstanceRow(params, ExtractTag(params))];
      ExtractTagMeans(params);
      reply := RowWritten;
    }

    /** Without params the row's tag is left alone. */
    method UpdateInstance(i: string, params: Option<Json>, renders: bool) returns (reply: InstanceReply)
      modifies this`instances
      ensures reply == if i !in old(instances) then InstanceNotFound else if params.Some? && !renders then RenderFailed
                       else RowWritten
      ensures reply.RowWritten? && params.Some? ==> RowWrite(old(instances), i, params.value, instances, js)
      ensures !reply.RowWritten? || params.None? ==> instances == old(instances)
    {
      if i !in instances { return InstanceNotFound; }
      if params.Some? {
        if !renders { return RenderFailed; }
        instances := instances[i := InstanceRow(params.value, ExtractTag(params.value))];
        ExtractTagMeans(params.value);
      }
      reply := RowWritten;
    }

    method DeleteInstance(i: string) returns (found: bool)
      modifies this`instances
      ensures found == (i in old(instances)) && instances == old(instances) - {i}
    {
      found := i in instances;
      instances := instances - {i};
    }
  }
}
