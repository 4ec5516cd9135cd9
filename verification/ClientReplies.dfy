/** What the handlers answer and change, record by record and claim by claim (src/routes/clients.ts, tags.ts). */
module ClientReplies {
  import opened Wrappers
  import opened JsonTree
  import opened Text
  import opened ClientStore
  import opened TagInvariant
  import SqliteKv

  // ---- Fields of a config --------------------------------------------------

  /** `server_port` goes before `listen_port`, unless it is absent or null; a port is an integer from 1 to 65535. */
  lemma PortMeans(fields: seq<Member>, js: Js)
    ensures var server, listen := Field(fields, "server_port"), Field(fields, "listen_port");
            var raw := if server == None || server == Some(Null) then listen else server;
            var number := if raw == None then None else js.toInteger(raw.value);
            ExtractPort(Obj(fields), js) == if number != None && 1 <= number.value < 65536 then number else None
  {
  }

  /** A tag is the string under `tag` without the space around it; anything else is no tag. */
  lemma TagMeans(fields: seq<Member>, config: Json)
    ensures var tag := Field(fields, "tag");
            ExtractTag(Obj(fields)) == if tag.Some? && tag.value.Str? then Trim(tag.value.s) else ""
    ensures !config.Obj? ==> ExtractTag(config) == ""
  {
  }

  // ---- Records in the store ------------------------------------------------

  /** A record is live, and a claim has an owner, just as long as the store returns what was put under its key. */
  lemma LiveAsStored(w: World, id: Id, tag: string, text: string, now: int)
    ensures id in w.records ==>
      (LiveRecord(w, id, now) <==>
       SqliteKv.LazyStep([SqliteKv.Row(ClientKey(id), text, None, Some(w.records[id].expireAt))],
         SqliteKv.Get(ClientKey(id)), now).1 == SqliteKv.Value(Some(text)))
    ensures tag in w.claims ==>
      (LiveOwner(w.claims, tag, now) == Some(w.claims[tag].owner) <==>
       SqliteKv.LazyStep([SqliteKv.Row(TagIndexKey(tag), text, None, Some(w.claims[tag].expireAt))],
         SqliteKv.Get(TagIndexKey(tag)), now).1 == SqliteKv.Value(Some(text)))
    ensures id !in w.records ==> !LiveRecord(w, id, now)
    ensures tag !in w.claims ==> LiveOwner(w.claims, tag, now) == None
  {
  }

  // ---- Uploads -------------------------------------------------------------

  /** An upload is refused exactly when it has a port that another listed config of the node has, and then changes nothing. */
  lemma PutRefused(w: World, page: Option<set<Id>>, id: Id, upload: Upload, now: int, js: Js)
    requires Mirrored(w, now, js) && IsPage(w, page, id, now) && id.name != ""
    ensures var port := ExtractPort(upload.config, js);
            PutSpec(w, page, id, upload, now, js).1.PortConflict?
            <==> port.Some? && page.Some?
                 && exists other | other in page.value :: other != id && PortOf(w.records[other], js) == port
    ensures PutSpec(w, page, id, upload, now, js).1.PortConflict? ==> PutSpec(w, page, id, upload, now, js).0 == w
  {
    if page.Some? {
      forall other | other in page.value ensures MetaOf(w.records[other]) == Some(Project(w.records[other].record, js)) {
      }
    }
  }

  /** With a complete listing: exactly when another live config of the same node has the port. */
  lemma PutRefusedForSibling(w: World, page: Option<set<Id>>, id: Id, upload: Upload, now: int, js: Js)
    requires Mirrored(w, now, js) && id.name != ""
    requires page.Some? && IsListing(w, id.fingerprint, now, page) && |NodeKeys(w, id.fingerprint, now)| <= 1000
    ensures PutSpec(w, page, id, upload, now, js).1.PortConflict?
            <==> ExtractPort(upload.config, js).Some?
                 && exists other | other in w.records ::
                      && other != id && other.fingerprint == id.fingerprint && now < w.records[other].expireAt
                      && PortOf(w.records[other], js) == ExtractPort(upload.config, js)
  {
    PutRefused(w, page, id, upload, now, js);
    assert page.value == NodeKeys(w, id.fingerprint, now);
    assert forall other :: other in page.value <==>
      (other in w.records && other.fingerprint == id.fingerprint && now < w.records[other].expireAt);
  }

  /** A config may always be uploaded again with the port it has. */
  lemma ReuploadIsAccepted(w: World, page: Option<set<Id>>, id: Id, upload: Upload, now: int, js: Js)
    requires Inv(w, now, js) && IsPage(w, page, id, now) && id.name != ""
    requires LiveRecord(w, id, now) && PortOf(w.records[id], js) == ExtractPort(upload.config, js)
    ensures PutSpec(w, page, id, upload, now, js).1.Saved?
  {
    PutRefused(w, page, id, upload, now, js);
  }

  /**
   * The index after an accepted upload, tag by tag. A new tag is claimed whoever held it; an unchanged one is
   * renewed unless another config holds it; the tag before is released if the config held it.
   */
  lemma PutIndexMeans(w: World, page: Option<set<Id>>, id: Id, upload: Upload, now: int, js: Js, t: string)
    requires Mirrored(w, now, js) && IsPage(w, page, id, now) && id.name != ""
    requires PutSpec(w, page, id, upload, now, js).1.Saved?
    ensures var after, tag := PutSpec(w, page, id, upload, now, js).0.claims, ExtractTag(upload.config);
            var before := if LiveRecord(w, id, now) && !Forgets(w, page, id, now) then TagOf(w.records[id]) else "";
            var heldByOther := LiveOwner(w.claims, t, now) != None && LiveOwner(w.claims, t, now) != Some(id);
            && (t == tag != "" && !(tag == before && heldByOther) ==>
                  (t in after && after[t] == Claim(id, now + 90 * 24 * 3600 * 1000)))
            && (t == before != "" && t != tag && LiveOwner(w.claims, t, now) == Some(id) ==> t !in after)
            && ((t == "" || t != tag || (tag == before && heldByOther))
                && (t == "" || t != before || t == tag || LiveOwner(w.claims, t, now) != Some(id)) ==>
                  ((t in after <==> t in w.claims) && (t in w.claims ==> after[t] == w.claims[t])))
  {
    PrevIsLive(w, page, id, now, js);
    ReindexMeans(w.claims, id, ExtractTag(upload.config),
      if LiveRecord(w, id, now) && !Forgets(w, page, id, now) then TagOf(w.records[id]) else "", now, t);
  }

  lemma ReindexMeans(claims: map<string, Claim>, id: Id, tag: string, before: string, now: int, t: string)
    ensures var after := Reindex(claims, id, tag, before, now);
            var heldByOther := LiveOwner(claims, t, now) != None && LiveOwner(claims, t, now) != Some(id);
            && (t == tag != "" && !(tag == before && heldByOther) ==>
                  (t in after && after[t] == Claim(id, now + 90 * 24 * 3600 * 1000)))
            && (t == before != "" && t != tag && LiveOwner(claims, t, now) == Some(id) ==> t !in after)
            && ((t == "" || t != tag || (tag == before && heldByOther))
                && (t == "" || t != before || t == tag || LiveOwner(claims, t, now) != Some(id)) ==>
                  ((t in after <==> t in claims) && (t in claims ==> after[t] == claims[t])))
  {
  }

  // ---- Deletions -----------------------------------------------------------

  /** A live config is deleted together with the claim it holds on its tag; otherwise nothing is found and nothing changes. */
  lemma DeleteMeans(w: World, id: Id, now: int, other: Id, t: string)
    ensures var (after, found) := DeleteSpec(w, id, now);
            && (found <==> id in w.records && now < w.records[id].expireAt)
            && (!found ==> after == w)
            && (found ==> id !in after.records)
            && (other != id ==> (other in after.records <==> other in w.records))
            && (other != id && other in w.records ==> after.records[other] == w.records[other])
            && after.instances == w.instances
            && (found && t == TagOf(w.records[id]) != "" && LiveOwner(w.claims, t, now) == Some(id) ==> t !in after.claims)
            && (!(found && t == TagOf(w.records[id]) != "" && LiveOwner(w.claims, t, now) == Some(id)) ==>
                  ((t in after.claims <==> t in w.claims) && (t in w.claims ==> after.claims[t] == w.claims[t])))
  {
  }

  // ---- Checks --------------------------------------------------------------

  /** After a backfill the next check of the tag is answered by the column or the index. */
  lemma HealedCheckIsIndexed(w: World, tag: string, now: int, scanned: Option<seq<Id>>, js: Js, w': World)
    requires CheckEffect(w, tag, now, scanned, js, true, w') && !CheckAnswer(w, tag, now, scanned, js)
    ensures IndexedInstance(w', tag) || LiveOwner(w'.claims, tag, now).Some?
  {
    if !IndexedInstance(w, tag) {
      if IndexedInstance(w, "") && exists i :: i in w.instances && LegacyHit(w, i, tag, js) {
        var i :| LegacyHit(w, i, tag, js) && w' == w.(instances := w.instances[i := w.instances[i].(tag := tag)]);
        assert w'.instances[i].tag == tag;
      }
    }
  }

  // ---- Listing -------------------------------------------------------------

  /** Of records without metadata the first 45 are read in full, and the others are left out. */
  lemma {:induction false} LegacyListing(w: World, keys: seq<Id>, budget: nat)
    requires forall id | id in keys :: id in w.records && w.records[id].meta == None
    ensures var n := if |keys| < budget then |keys| else budget;
            MetadataListing(w, keys, budget) == seq(n, i requires 0 <= i < n => InFull(w.records[keys[i]].record))
  {
    if keys != [] {
      assert keys[0] in keys;
      LegacyListing(w, keys[1..], if budget == 0 then 0 else budget - 1);
    }
  }
}
