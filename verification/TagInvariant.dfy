/** What every run of uploads, deletions, checks and instance writes keeps. */
module TagInvariant {
  import opened Wrappers
  import opened JsonTree
  import opened Text
  import opened ClientStore

  function TagOf(s: Stored): string {
    ExtractTag(s.record.config)
  }

  function PortOf(s: Stored, js: Js): Option<int> {
    ExtractPort(s.record.config, js)
  }

  // ---- Kept by every run of PUT, DELETE and the clock ------------------------

  /** Metadata is the projection of the stored body, and an entry lives at most one TTL. */
  ghost predicate Mirrored(w: World, now: int, js: Js) {
    forall id | id in w.records ::
      && w.records[id].meta == Some(Project(w.records[id].record, js))
      && w.records[id].record.id == id && id.name != ""
      && w.records[id].expireAt <= now + CLIENT_CONFIG_TTL_MS
  }

  ghost predicate PortsDistinct(w: World, now: int, js: Js) {
    forall a, b | LiveRecord(w, a, now) && LiveRecord(w, b, now) && a != b && a.fingerprint == b.fingerprint ::
      PortOf(w.records[a], js).Some? ==> PortOf(w.records[a], js) != PortOf(w.records[b], js)
  }

  /** A live claim names a live record that has the tag and does not expire before the claim. */
  ghost predicate ClaimsBacked(w: World, now: int) {
    forall t | LiveOwner(w.claims, t, now).Some? ::
      var id := w.claims[t].owner;
      t != "" && id in w.records && TagOf(w.records[id]) == t && w.claims[t].expireAt <= w.records[id].expireAt
  }

  ghost predicate Inv(w: World, now: int, js: Js) {
    Mirrored(w, now, js) && PortsDistinct(w, now, js) && ClaimsBacked(w, now)
  }

  /** No record owns two live claims, even where tags collide and claims are stolen. */
  lemma OneClaimPerRecord(w: World, now: int, s: string, t: string)
    requires ClaimsBacked(w, now)
    requires LiveOwner(w.claims, s, now).Some? && LiveOwner(w.claims, s, now) == LiveOwner(w.claims, t, now)
    ensures s == t
    ensures LiveRecord(w, LiveOwner(w.claims, s, now).value, now)
  {
  }

  lemma TimePasses(w: World, now: int, later: int, js: Js)
    requires Inv(w, now, js) && now <= later
    ensures Inv(w, later, js)
  {
    forall t | LiveOwner(w.claims, t, later).Some?
      ensures var id := w.claims[t].owner;
        t != "" && id in w.records && TagOf(w.records[id]) == t && w.claims[t].expireAt <= w.records[id].expireAt
    {
      assert LiveOwner(w.claims, t, now).Some?;
    }
  }

  /** The listing shows live configs of the node only; it may have failed, or hide some. */
  ghost predicate IsPage(w: World, page: Option<set<Id>>, id: Id, now: int) {
    page.Some? ==> page.value <= NodeKeys(w, id.fingerprint, now)
  }

  /** The record is live and the listing hides it. */
  ghost predicate Forgets(w: World, page: Option<set<Id>>, id: Id, now: int) {
    LiveRecord(w, id, now) && (page.Some? ==> id !in page.value)
  }

  /** The previous metadata is that of the live record, unless the listing hides it. */
  lemma PrevIsLive(w: World, page: Option<set<Id>>, id: Id, now: int, js: Js)
    requires Mirrored(w, now, js) && id.name != "" && IsPage(w, page, id, now)
    ensures PrevMeta(w, page, id)
         == if LiveRecord(w, id, now) && !Forgets(w, page, id, now) then Some(Project(w.records[id].record, js)) else None
  {
  }

  /** An accepted upload changes one record and the index. */
  lemma PutShape(w: World, page: Option<set<Id>>, id: Id, upload: Upload, now: int, js: Js)
    requires PutSpec(w, page, id, upload, now, js).1.Saved?
    ensures var w' := PutSpec(w, page, id, upload, now, js).0;
            && w'.instances == w.instances && w'.records.Keys == w.records.Keys + {id}
            && (forall other | other in w.records && other != id :: w'.records[other] == w.records[other])
            && (forall other | other != id :: LiveRecord(w', other, now) == LiveRecord(w, other, now))
            && LiveRecord(w', id, now) && w'.records[id].expireAt == now + CLIENT_CONFIG_TTL_MS
            && TagOf(w'.records[id]) == ExtractTag(upload.config)
            && PortOf(w'.records[id], js) == ExtractPort(upload.config, js)
  {
  }

  /** A sibling the listing shows cannot have the accepted port. */
  lemma AcceptedPort(w: World, page: Option<set<Id>>, id: Id, upload: Upload, now: int, js: Js, other: Id)
    requires Mirrored(w, now, js)
    requires PutSpec(w, page, id, upload, now, js).1.Saved?
    requires page.Some? && other in page.value && other != id && other in w.records
    ensures ExtractPort(upload.config, js).Some? ==> PortOf(w.records[other], js) != ExtractPort(upload.config, js)
  {
    assert MetaOf(w.records[other]).Some?;
  }

  /** Some live sibling that the listing did not show has the uploaded port. */
  ghost predicate HiddenConflict(w: World, page: Option<set<Id>>, id: Id, upload: Upload, now: int, js: Js) {
    var port := ExtractPort(upload.config, js);
    port.Some? && exists other ::
      && other in NodeKeys(w, id.fingerprint, now) && other != id && PortOf(w.records[other], js) == port
      && (page.Some? ==> other !in page.value)
  }

  lemma HiddenConflictBreaks(w: World, page: Option<set<Id>>, id: Id, upload: Upload, now: int, js: Js)
    requires PutSpec(w, page, id, upload, now, js).1.Saved? && HiddenConflict(w, page, id, upload, now, js)
    ensures !PortsDistinct(PutSpec(w, page, id, upload, now, js).0, now, js)
  {
    var w', port := PutSpec(w, page, id, upload, now, js).0, ExtractPort(upload.config, js);
    PutShape(w, page, id, upload, now, js);
    var other :| other in NodeKeys(w, id.fingerprint, now) && other != id && PortOf(w.records[other], js) == port
      && (page.Some? ==> other !in page.value);
    assert LiveRecord(w', other, now) && LiveRecord(w', id, now);
  }

  lemma NoHiddenConflictKeeps(w: World, page: Option<set<Id>>, id: Id, upload: Upload, now: int, js: Js, a: Id, b: Id)
    requires Mirrored(w, now, js) && PortsDistinct(w, now, js)
    requires PutSpec(w, page, id, upload, now, js).1.Saved? && !HiddenConflict(w, page, id, upload, now, js)
    requires var w' := PutSpec(w, page, id, upload, now, js).0;
      LiveRecord(w', a, now) && LiveRecord(w', b, now) && a != b && a.fingerprint == b.fingerprint
    ensures var w' := PutSpec(w, page, id, upload, now, js).0;
      PortOf(w'.records[a], js).Some? ==> PortOf(w'.records[a], js) != PortOf(w'.records[b], js)
  {
    PutShape(w, page, id, upload, now, js);
    if a == id || b == id {
      var other := if a == id then b else a;
      assert other in NodeKeys(w, id.fingerprint, now);
      if page.Some? && other in page.value {
        AcceptedPort(w, page, id, upload, now, js, other);
      }
    }
  }

  /** After an accepted upload ports stay distinct exactly when the listing hid no sibling with the uploaded port. */
  lemma PutPorts(w: World, page: Option<set<Id>>, id: Id, upload: Upload, now: int, js: Js)
    requires Mirrored(w, now, js) && PortsDistinct(w, now, js)
    requires PutSpec(w, page, id, upload, now, js).1.Saved?
    ensures PortsDistinct(PutSpec(w, page, id, upload, now, js).0, now, js) <==> !HiddenConflict(w, page, id, upload, now, js)
  {
    if HiddenConflict(w, page, id, upload, now, js) {
      HiddenConflictBreaks(w, page, id, upload, now, js);
    } else {
      var w' := PutSpec(w, page, id, upload, now, js).0;
      forall a, b | LiveRecord(w', a, now) && LiveRecord(w', b, now) && a != b && a.fingerprint == b.fingerprint
        ensures PortOf(w'.records[a], js).Some? ==> PortOf(w'.records[a], js) != PortOf(w'.records[b], js)
      {
        NoHiddenConflictKeeps(w, page, id, upload, now, js, a, b);
      }
    }
  }

  /**
   * An accepted upload is stored as uploaded, for one TTL; it keeps the creation time of the live record and
   * reports a creation exactly when there was none, or the listing hid it.
   */
  lemma PutReplyMeans(w: World, page: Option<set<Id>>, id: Id, upload: Upload, now: int, js: Js)
    requires Mirrored(w, now, js) && id.name != "" && IsPage(w, page, id, now)
    requires PutSpec(w, page, id, upload, now, js).1.Saved?
    ensures var (w', reply) := PutSpec(w, page, id, upload, now, js);
            && (reply.created <==> !LiveRecord(w, id, now) || Forgets(w, page, id, now))
            && reply.record == Record(id, upload.config, upload.protocolType, upload.contentHash, upload.enabled,
                 upload.deployed, if reply.created then now else w.records[id].record.createdAt, now)
            && w'.records[id].record == reply.record && w'.records[id].expireAt == now + 90 * 24 * 3600 * 1000
  {
    PrevIsLive(w, page, id, now, js);
  }

  lemma PutMirrored(w: World, page: Option<set<Id>>, id: Id, upload: Upload, now: int, js: Js)
    requires Mirrored(w, now, js) && id.name != ""
    ensures Mirrored(PutSpec(w, page, id, upload, now, js).0, now, js)
  {
  }

  /** The record's old tag changes while the listing hides the record, so its claim stays behind. */
  ghost predicate StaleClaim(w: World, page: Option<set<Id>>, id: Id, upload: Upload, now: int) {
    && Forgets(w, page, id, now) && TagOf(w.records[id]) != ExtractTag(upload.config)
    && LiveOwner(w.claims, TagOf(w.records[id]), now) == Some(id)
  }

  lemma StaleClaimBreaks(w: World, page: Option<set<Id>>, id: Id, upload: Upload, now: int, js: Js)
    requires Mirrored(w, now, js) && ClaimsBacked(w, now) && id.name != "" && IsPage(w, page, id, now)
    requires PutSpec(w, page, id, upload, now, js).1.Saved? && StaleClaim(w, page, id, upload, now)
    ensures !ClaimsBacked(PutSpec(w, page, id, upload, now, js).0, now)
  {
    var w', t := PutSpec(w, page, id, upload, now, js).0, TagOf(w.records[id]);
    PrevIsLive(w, page, id, now, js);
    assert LiveOwner(w'.claims, t, now) == Some(id);
  }

  /** A claim that is live after index maintenance is the record's new one, or an old one that did not have to go. */
  lemma ReindexLive(claims: map<string, Claim>, id: Id, tag: string, prevTag: string, now: int, t: string)
    requires LiveOwner(Reindex(claims, id, tag, prevTag, now), t, now).Some?
    ensures var claim := Reindex(claims, id, tag, prevTag, now)[t];
            || (t == tag != "" && claim == Claim(id, now + CLIENT_CONFIG_TTL_MS))
            || (t in claims && claim == claims[t] && !(t == prevTag != "" && t != tag && claim.owner == id))
  {
  }

  lemma NoStaleClaimKeeps(w: World, page: Option<set<Id>>, id: Id, upload: Upload, now: int, js: Js, t: string)
    requires Mirrored(w, now, js) && ClaimsBacked(w, now) && id.name != "" && IsPage(w, page, id, now)
    requires PutSpec(w, page, id, upload, now, js).1.Saved? && !StaleClaim(w, page, id, upload, now)
    requires LiveOwner(PutSpec(w, page, id, upload, now, js).0.claims, t, now).Some?
    ensures var w' := PutSpec(w, page, id, upload, now, js).0;
            var owner := w'.claims[t].owner;
            t != "" && owner in w'.records && TagOf(w'.records[owner]) == t
            && w'.claims[t].expireAt <= w'.records[owner].expireAt
  {
    var w' := PutSpec(w, page, id, upload, now, js).0;
    var prev, tag := PrevMeta(w, page, id), ExtractTag(upload.config);
    PrevIsLive(w, page, id, now, js);
    PutShape(w, page, id, upload, now, js);
    ReindexLive(w.claims, id, tag, if prev.Some? then prev.value.tag else "", now, t);
    if !(t == tag != "" && w'.claims[t] == Claim(id, now + CLIENT_CONFIG_TTL_MS)) {
      assert LiveOwner(w.claims, t, now) == Some(w'.claims[t].owner);
    }
  }

  /** After an accepted upload live claims stay backed exactly when none was left behind. */
  lemma PutClaims(w: World, page: Option<set<Id>>, id: Id, upload: Upload, now: int, js: Js)
    requires Mirrored(w, now, js) && ClaimsBacked(w, now) && id.name != "" && IsPage(w, page, id, now)
    requires PutSpec(w, page, id, upload, now, js).1.Saved?
    ensures ClaimsBacked(PutSpec(w, page, id, upload, now, js).0, now) <==> !StaleClaim(w, page, id, upload, now)
  {
    if StaleClaim(w, page, id, upload, now) {
      StaleClaimBreaks(w, page, id, upload, now, js);
    } else {
      var w' := PutSpec(w, page, id, upload, now, js).0;
      forall t | LiveOwner(w'.claims, t, now).Some?
        ensures var owner := w'.claims[t].owner;
          t != "" && owner in w'.records && TagOf(w'.records[owner]) == t
          && w'.claims[t].expireAt <= w'.records[owner].expireAt
      {
        NoStaleClaimKeeps(w, page, id, upload, now, js, t);
      }
    }
  }

  /** The listing of an accepted upload hid no sibling with the uploaded port, and no claim that has to go. */
  ghost predicate PutHarmless(w: World, page: Option<set<Id>>, id: Id, upload: Upload, now: int, js: Js) {
    PutSpec(w, page, id, upload, now, js).1.Saved? ==>
      !HiddenConflict(w, page, id, upload, now, js) && !StaleClaim(w, page, id, upload, now)
  }

  lemma PutKeeps(w: World, page: Option<set<Id>>, id: Id, upload: Upload, now: int, js: Js)
    requires Inv(w, now, js) && id.name != "" && IsPage(w, page, id, now)
    ensures Inv(PutSpec(w, page, id, upload, now, js).0, now, js) <==> PutHarmless(w, page, id, upload, now, js)
  {
    PutMirrored(w, page, id, upload, now, js);
    if PutSpec(w, page, id, upload, now, js).1.Saved? {
      PutPorts(w, page, id, upload, now, js);
      PutClaims(w, page, id, upload, now, js);
    }
  }

  /** A listing that succeeded, of a node with at most one page of configs, hides nothing. */
  lemma CompleteListingIsHarmless(w: World, page: Option<set<Id>>, id: Id, upload: Upload, now: int, js: Js)
    requires page.Some? && IsListing(w, id.fingerprint, now, page) && |NodeKeys(w, id.fingerprint, now)| <= 1000
    ensures PutHarmless(w, page, id, upload, now, js)
  {
  }

  lemma DeleteKeeps(w: World, id: Id, now: int, js: Js)
    requires Inv(w, now, js)
    ensures Inv(DeleteSpec(w, id, now).0, now, js)
  {
    var w' := DeleteSpec(w, id, now).0;
    forall t | LiveOwner(w'.claims, t, now).Some?
      ensures var owner := w'.claims[t].owner;
        t != "" && owner in w'.records && TagOf(w'.records[owner]) == t
        && w'.claims[t].expireAt <= w'.records[owner].expireAt
    {
      assert LiveOwner(w.claims, t, now) == LiveOwner(w'.claims, t, now);
    }
    forall a, b | LiveRecord(w', a, now) && LiveRecord(w', b, now) && a != b && a.fingerprint == b.fingerprint
      ensures PortOf(w'.records[a], js).Some? ==> PortOf(w'.records[a], js) != PortOf(w'.records[b], js)
    {
      assert LiveRecord(w, a, now) && LiveRecord(w, b, now);
    }
  }

  /** A backfilled claim keeps the invariant exactly when its tag is trimmed and the record was written just now. */
  lemma HealedClaim(w: World, tag: string, id: Id, now: int, js: Js)
    requires Inv(w, now, js) && tag != "" && LiveRecord(w, id, now) && ScanHit(w, id, tag)
    ensures var w' := w.(claims := w.claims[tag := Claim(w.records[id].record.id, now + CLIENT_CONFIG_TTL_MS)]);
            ClaimsBacked(w', now) <==> Trim(tag) == tag && w.records[id].expireAt == now + CLIENT_CONFIG_TTL_MS
  {
    var w' := w.(claims := w.claims[tag := Claim(w.records[id].record.id, now + CLIENT_CONFIG_TTL_MS)]);
    assert LiveOwner(w'.claims, tag, now) == Some(id);
    assert TagOf(w.records[id]) == Trim(tag);
    if Trim(tag) == tag && w.records[id].expireAt == now + CLIENT_CONFIG_TTL_MS {
      forall t | LiveOwner(w'.claims, t, now).Some?
        ensures var owner := w'.claims[t].owner;
          t != "" && owner in w'.records && TagOf(w'.records[owner]) == t
          && w'.claims[t].expireAt <= w'.records[owner].expireAt
      {
        if t != tag { assert LiveOwner(w.claims, t, now).Some?; }
      }
    }
  }

  // ---- Kept when every new tag was checked just before -----------------------

  function RowTag(row: InstanceRow): string {
    ExtractTag(row.params)
  }

  ghost predicate InstancesDistinct(w: World, js: Js) {
    && (forall i | i in w.instances :: RowOk(w.instances[i], js))
    && (forall i, j | i in w.instances && j in w.instances && i != j ::
          RowTag(w.instances[i]) != "" ==> RowTag(w.instances[i]) != RowTag(w.instances[j]))
  }

  /** The index is the inverse of the record-to-tag map, with equal expiry. */
  ghost predicate IndexExact(w: World, now: int) {
    forall id | LiveRecord(w, id, now) && TagOf(w.records[id]) != "" ::
      var t := TagOf(w.records[id]);
      t in w.claims && w.claims[t] == Claim(id, w.records[id].expireAt)
  }

  ghost predicate NoSharedTag(w: World, now: int) {
    forall i, id | i in w.instances && LiveRecord(w, id, now) ::
      RowTag(w.instances[i]) != "" ==> RowTag(w.instances[i]) != TagOf(w.records[id])
  }

  ghost predicate Disciplined(w: World, now: int, js: Js) {
    Inv(w, now, js) && IndexExact(w, now) && InstancesDistinct(w, js) && NoSharedTag(w, now)
  }

  /** The tag is on a live record or an instance: what a scan of both stores would find. */
  ghost predicate InUse(w: World, tag: string, now: int) {
    || (exists id :: LiveRecord(w, id, now) && TagOf(w.records[id]) == tag)
    || (exists i :: i in w.instances && RowTag(w.instances[i]) == tag)
  }

  /** All live client and instance tags are pairwise distinct, and the index inverts the record-to-tag map. */
  lemma DisciplinedMeans(w: World, now: int, js: Js, a: Id, b: Id, t: string)
    requires Disciplined(w, now, js) && t != ""
    ensures LiveRecord(w, a, now) && LiveRecord(w, b, now) && TagOf(w.records[a]) == TagOf(w.records[b]) == t ==> a == b
    ensures LiveOwner(w.claims, t, now) == Some(a) <==> LiveRecord(w, a, now) && TagOf(w.records[a]) == t
  {
  }

  /** The legacy probe or the bounded scan comes upon a tag with exactly this spelling. */
  ghost predicate FindsSpelling(w: World, tag: string, scanned: Option<seq<Id>>, js: Js) {
    || (IndexedInstance(w, "") && exists i :: i in w.instances && LegacyHit(w, i, tag, js))
    || (scanned.Some? && exists id :: id in scanned.value && ScanHit(w, id, tag))
  }

  /** Neither the column nor the index knows a tag with space around it. */
  lemma UntrimmedIsNotIndexed(w: World, tag: string, now: int, js: Js)
    requires Disciplined(w, now, js) && tag != "" && Trim(tag) != tag
    ensures !IndexedInstance(w, tag) && LiveOwner(w.claims, tag, now).None?
  {
    forall i | i in w.instances ensures w.instances[i].tag != tag {
      ExtractTagMeans(w.instances[i].params);
      assert RowOk(w.instances[i], js);
    }
    if LiveOwner(w.claims, tag, now).Some? {
      ExtractTagMeans(w.records[w.claims[tag].owner].record.config);
    }
  }

  /**
   * The indexed answer for a trimmed tag is the answer of a full scan, whether or not the KV listing works.
   * For any other tag only the probe and the bounded scan count.
   */
  lemma CheckIsFullScan(w: World, tag: string, now: int, scanned: Option<seq<Id>>, js: Js)
    requires Disciplined(w, now, js) && tag != ""
    requires scanned.Some? ==> IsScan(w, scanned.value, now)
    ensures CheckAnswer(w, tag, now, scanned, js)
        <==> if Trim(tag) == tag then !InUse(w, tag, now) else !FindsSpelling(w, tag, scanned, js)
  {
    if Trim(tag) == tag {
      TrimmedCheckIsFullScan(w, tag, now, scanned, js);
    } else {
      UntrimmedIsNotIndexed(w, tag, now, js);
    }
  }

  lemma TrimmedCheckIsFullScan(w: World, tag: string, now: int, scanned: Option<seq<Id>>, js: Js)
    requires Disciplined(w, now, js) && tag != "" && Trim(tag) == tag
    requires scanned.Some? ==> IsScan(w, scanned.value, now)
    ensures CheckAnswer(w, tag, now, scanned, js) <==> !InUse(w, tag, now)
  {
    if CheckAnswer(w, tag, now, scanned, js) {
      forall i | i in w.instances ensures RowTag(w.instances[i]) != tag {
        var row := w.instances[i];
        assert RowOk(row, js);
        if RowTag(row) == tag && row.tag == "" {
          assert LegacyHit(w, i, tag, js);
        }
      }
      forall id | LiveRecord(w, id, now) ensures TagOf(w.records[id]) != tag {
      }
    } else {
      if i :| i in w.instances && w.instances[i].tag == tag {
        assert RowTag(w.instances[i]) == tag;
      } else if i :| i in w.instances && LegacyHit(w, i, tag, js) {
        assert RowTag(w.instances[i]) == tag;
      } else if LiveOwner(w.claims, tag, now).Some? {
        assert LiveRecord(w, w.claims[tag].owner, now);
      } else {
        var id :| id in scanned.value && ScanHit(w, id, tag);
        assert LiveRecord(w, id, now) && TagOf(w.records[id]) == tag;
      }
    }
  }

  /** Backfilling an instance's column with its own tag changes no tag. */
  lemma BackfillKeeps(w: World, i: string, now: int, js: Js)
    requires Disciplined(w, now, js) && i in w.instances
    ensures var row := w.instances[i];
            Disciplined(w.(instances := w.instances[i := row.(tag := RowTag(row))]), now, js)
  {
    var row := w.instances[i];
    var w' := w.(instances := w.instances[i := row.(tag := RowTag(row))]);
    assert forall k | k in w'.instances :: k in w.instances && RowTag(w'.instances[k]) == RowTag(w.instances[k]);
    assert forall id :: LiveRecord(w', id, now) == LiveRecord(w, id, now);
  }

  lemma ScanFindsNothing(w: World, tag: string, now: int, scanned: seq<Id>, js: Js)
    requires Disciplined(w, now, js) && tag != "" && Trim(tag) == tag && IsScan(w, scanned, now)
    requires LiveOwner(w.claims, tag, now).None?
    ensures forall id | id in scanned :: !ScanHit(w, id, tag)
  {
    forall id | id in scanned ensures !ScanHit(w, id, tag) {
      assert LiveRecord(w, id, now);
    }
  }

  /** The tag is trimmed, or no tag has its spelling where the check looks for spellings. */
  ghost predicate CheckHarmless(w: World, tag: string, scanned: Option<seq<Id>>, js: Js) {
    Trim(tag) == tag || !FindsSpelling(w, tag, scanned, js)
  }

  /** Such a check writes no claim, and keeps everything. */
  lemma CheckKeeps(w: World, tag: string, now: int, scanned: Option<seq<Id>>, js: Js, healed: bool, w': World)
    requires Disciplined(w, now, js) && tag != "" && CheckHarmless(w, tag, scanned, js)
    requires scanned.Some? ==> IsScan(w, scanned.value, now)
    requires CheckEffect(w, tag, now, scanned, js, healed, w')
    ensures Disciplined(w', now, js)
    ensures w'.records == w.records && w'.claims == w.claims
  {
    if Trim(tag) == tag && scanned.Some? && LiveOwner(w.claims, tag, now).None? {
      ScanFindsNothing(w, tag, now, scanned.value, js);
    }
    if Trim(tag) == tag && w' != w {
      var i :| LegacyHit(w, i, tag, js) && w' == w.(instances := w.instances[i := w.instances[i].(tag := tag)]);
      BackfillKeeps(w, i, now, js);
    }
  }

  /** Any other check may write the spelling it found into the column or the index, and does harm there. */
  lemma CheckBreaks(w: World, tag: string, now: int, scanned: Option<seq<Id>>, js: Js) returns (w': World)
    requires Disciplined(w, now, js) && tag != "" && !CheckHarmless(w, tag, scanned, js)
    requires scanned.Some? ==> IsScan(w, scanned.value, now)
    ensures CheckEffect(w, tag, now, scanned, js, true, w') && !Disciplined(w', now, js)
  {
    UntrimmedIsNotIndexed(w, tag, now, js);
    if i :| IndexedInstance(w, "") && i in w.instances && LegacyHit(w, i, tag, js) {
      w' := w.(instances := w.instances[i := w.instances[i].(tag := tag)]);
      ExtractTagMeans(w.instances[i].params);
      assert !RowOk(w'.instances[i], js);
    } else {
      var id :| id in scanned.value && ScanHit(w, id, tag);
      w' := w.(claims := w.claims[tag := Claim(w.records[id].record.id, now + CLIENT_CONFIG_TTL_MS)]);
      assert LiveRecord(w, id, now);
      HealedClaim(w, tag, id, now, js);
    }
  }

  /** Exactly which checks keep everything, whichever backfill succeeds. */
  lemma CheckKeepsExactly(w: World, tag: string, now: int, scanned: Option<seq<Id>>, js: Js)
    requires Disciplined(w, now, js) && tag != ""
    requires scanned.Some? ==> IsScan(w, scanned.value, now)
    ensures (forall w', healed | CheckEffect(w, tag, now, scanned, js, healed, w') :: Disciplined(w', now, js))
        <==> CheckHarmless(w, tag, scanned, js)
  {
    if CheckHarmless(w, tag, scanned, js) {
      forall w', healed | CheckEffect(w, tag, now, scanned, js, healed, w') ensures Disciplined(w', now, js) {
        CheckKeeps(w, tag, now, scanned, js, healed, w');
      }
    } else {
      var w' := CheckBreaks(w, tag, now, scanned, js);
    }
  }

  lemma DisciplinedLater(w: World, now: int, later: int, js: Js)
    requires Disciplined(w, now, js) && now <= later
    ensures Disciplined(w, later, js)
  {
    TimePasses(w, now, later, js);
    assert forall id | LiveRecord(w, id, later) :: LiveRecord(w, id, now);
  }

  /** A tag that is free, or already this record's own. */
  ghost predicate MayUse(w: World, id: Id, tag: string, now: int) {
    tag == "" || !InUse(w, tag, now) || (LiveRecord(w, id, now) && TagOf(w.records[id]) == tag)
  }

  lemma PutKeepsIndex(w: World, page: Option<set<Id>>, id: Id, upload: Upload, now: int, js: Js)
    requires Disciplined(w, now, js) && id.name != "" && IsPage(w, page, id, now) && MayUse(w, id, ExtractTag(upload.config), now)
    requires PutSpec(w, page, id, upload, now, js).1.Saved?
    ensures var w' := PutSpec(w, page, id, upload, now, js).0;
            IndexExact(w', now) && NoSharedTag(w', now)
  {
    var w' := PutSpec(w, page, id, upload, now, js).0;
    var tag := ExtractTag(upload.config);
    PutShape(w, page, id, upload, now, js);
    PutOwnClaim(w, page, id, upload, now, js);
    forall other | LiveRecord(w', other, now) && TagOf(w'.records[other]) != "" && other != id
      ensures var t := TagOf(w'.records[other]); t in w'.claims && w'.claims[t] == Claim(other, w'.records[other].expireAt)
    {
      assert TagOf(w.records[other]) != tag;
      PutOtherClaim(w, page, id, upload, now, js, TagOf(w.records[other]));
    }
  }

  /** The uploaded record holds the claim of its tag. */
  lemma PutOwnClaim(w: World, page: Option<set<Id>>, id: Id, upload: Upload, now: int, js: Js)
    requires Disciplined(w, now, js) && id.name != "" && IsPage(w, page, id, now) && MayUse(w, id, ExtractTag(upload.config), now)
    requires PutSpec(w, page, id, upload, now, js).1.Saved?
    ensures var w', tag := PutSpec(w, page, id, upload, now, js).0, ExtractTag(upload.config);
            tag != "" ==> tag in w'.claims && w'.claims[tag] == Claim(id, now + CLIENT_CONFIG_TTL_MS)
  {
    var tag := ExtractTag(upload.config);
    PrevIsLive(w, page, id, now, js);
    if tag != "" && LiveRecord(w, id, now) && TagOf(w.records[id]) == tag {
      assert LiveOwner(w.claims, tag, now) == Some(id);
    }
  }

  /** A claim of another record's tag is not touched. */
  lemma PutOtherClaim(w: World, page: Option<set<Id>>, id: Id, upload: Upload, now: int, js: Js, t: string)
    requires Disciplined(w, now, js) && id.name != "" && IsPage(w, page, id, now) && t != ExtractTag(upload.config)
    requires PutSpec(w, page, id, upload, now, js).1.Saved?
    requires t in w.claims && w.claims[t].owner != id
    ensures var w' := PutSpec(w, page, id, upload, now, js).0;
            t in w'.claims && w'.claims[t] == w.claims[t]
  {
    PrevIsLive(w, page, id, now, js);
  }

  lemma PutKeepsDisciplined(w: World, page: Option<set<Id>>, id: Id, upload: Upload, now: int, js: Js)
    requires PutHarmless(w, page, id, upload, now, js)
    requires Disciplined(w, now, js) && id.name != "" && IsPage(w, page, id, now) && MayUse(w, id, ExtractTag(upload.config), now)
    ensures Disciplined(PutSpec(w, page, id, upload, now, js).0, now, js)
  {
    PutKeeps(w, page, id, upload, now, js);
    if PutSpec(w, page, id, upload, now, js).1.Saved? {
      PutKeepsIndex(w, page, id, upload, now, js);
    }
  }

  lemma DeleteKeepsDisciplined(w: World, id: Id, now: int, js: Js)
    requires Disciplined(w, now, js)
    ensures Disciplined(DeleteSpec(w, id, now).0, now, js)
  {
    DeleteKeeps(w, id, now, js);
    var w' := DeleteSpec(w, id, now).0;
    assert forall other | LiveRecord(w', other, now) :: LiveRecord(w, other, now) && w'.records[other] == w.records[other];
  }

  /** A tag that is free, or already this instance's own. */
  ghost predicate MayUseRow(w: World, i: string, tag: string, now: int) {
    tag == "" || !InUse(w, tag, now) || (i in w.instances && RowTag(w.instances[i]) == tag)
  }

  lemma WrittenInstancesDistinct(w: World, i: string, params: Json, now: int, js: Js)
    requires InstancesDistinct(w, js) && MayUseRow(w, i, ExtractTag(params), now)
    ensures InstancesDistinct(w.(instances := w.instances[i := InstanceRow(params, ExtractTag(params))]), js)
  {
    var w' := w.(instances := w.instances[i := InstanceRow(params, ExtractTag(params))]);
    var tag := ExtractTag(params);
    forall k | k in w.instances && k != i ensures tag != "" ==> RowTag(w.instances[k]) != tag {
      assert tag != "" && !InUse(w, tag, now) ==> RowTag(w.instances[k]) != tag;
    }
    assert forall k | k in w'.instances && k != i :: k in w.instances && w'.instances[k] == w.instances[k];
    assert RowTag(w'.instances[i]) == tag;
  }

  lemma WrittenNotShared(w: World, i: string, params: Json, now: int)
    requires NoSharedTag(w, now) && MayUseRow(w, i, ExtractTag(params), now)
    ensures NoSharedTag(w.(instances := w.instances[i := InstanceRow(params, ExtractTag(params))]), now)
  {
    var w' := w.(instances := w.instances[i := InstanceRow(params, ExtractTag(params))]);
    var tag := ExtractTag(params);
    forall k, id | k in w'.instances && LiveRecord(w', id, now)
      ensures RowTag(w'.instances[k]) != "" ==> RowTag(w'.instances[k]) != TagOf(w'.records[id])
    {
      assert LiveRecord(w, id, now);
      if k != i { assert k in w.instances; }
    }
  }

  lemma WriteInstanceKeeps(w: World, i: string, params: Json, now: int, js: Js)
    requires Disciplined(w, now, js) && MayUseRow(w, i, ExtractTag(params), now)
    ensures Disciplined(w.(instances := w.instances[i := InstanceRow(params, ExtractTag(params))]), now, js)
  {
    WrittenInstancesDistinct(w, i, params, now, js);
    WrittenNotShared(w, i, params, now);
    OnlyInstancesChanged(w, w.(instances := w.instances[i := InstanceRow(params, ExtractTag(params))]), now, js);
  }

  lemma OnlyInstancesChanged(w: World, w': World, now: int, js: Js)
    requires Inv(w, now, js) && IndexExact(w, now) && w'.records == w.records && w'.claims == w.claims
    ensures Inv(w', now, js) && IndexExact(w', now)
  {
    assert forall id :: LiveRecord(w', id, now) == LiveRecord(w, id, now);
  }

  lemma DeleteInstanceKeeps(w: World, i: string, now: int, js: Js)
    requires Disciplined(w, now, js)
    ensures Disciplined(w.(instances := w.instances - {i}), now, js)
  {
    var w' := w.(instances := w.instances - {i});
    assert forall id :: LiveRecord(w', id, now) == LiveRecord(w, id, now);
  }

  // ---- Runs ----------------------------------------------------------------

  datatype Step =
    | PutStep(id: Id, upload: Upload, page: Option<set<Id>>)
    | DeleteStep(id: Id)
    | CheckStep(tag: string, scanned: Option<seq<Id>>)
    | CreateStep(i: string, params: Json)
    | UpdateStep(i: string, params: Json)
    | RemoveStep(i: string)
    | ClockStep(later: int)

  datatype State = State(w: World, now: int)

  /** One handler or clock step; an instance write may also be refused and change nothing. */
  ghost predicate Next(s: State, step: Step, t: State, js: Js) {
    match step
    case PutStep(id, upload, page) =>
      && id.name != "" && IsListing(s.w, id.fingerprint, s.now, page)
      && t == State(PutSpec(s.w, page, id, upload, s.now, js).0, s.now)
    case DeleteStep(id) => t == State(DeleteSpec(s.w, id, s.now).0, s.now)
    case CheckStep(tag, scanned) =>
      && t.now == s.now && (scanned.Some? ==> IsScan(s.w, scanned.value, s.now))
      && exists healed :: CheckEffect(s.w, tag, s.now, scanned, js, healed, t.w)
    case CreateStep(i, params) =>
      i !in s.w.instances
      && (t == s || t == State(s.w.(instances := s.w.instances[i := InstanceRow(params, ExtractTag(params))]), s.now))
    case UpdateStep(i, params) =>
      t == s || (i in s.w.instances
                 && t == State(s.w.(instances := s.w.instances[i := InstanceRow(params, ExtractTag(params))]), s.now))
    case RemoveStep(i) => t == State(s.w.(instances := s.w.instances - {i}), s.now)
    case ClockStep(later) => later >= s.now && t == State(s.w, later)
  }

  /** Runs of handlers and clock steps; an upload's listing may fail or be cut off at one page. */
  ghost predicate IsRun(states: seq<State>, steps: seq<Step>, js: Js) {
    |states| == |steps| + 1 && forall k | 0 <= k < |steps| :: Next(states[k], steps[k], states[k + 1], js)
  }

  ghost predicate ClientSteps(steps: seq<Step>) {
    forall k | 0 <= k < |steps| :: steps[k].PutStep? || steps[k].DeleteStep? || steps[k].ClockStep?
  }

  ghost predicate StepHarmless(s: State, step: Step, js: Js) {
    step.PutStep? ==> PutHarmless(s.w, step.page, step.id, step.upload, s.now, js)
  }

  ghost predicate PutsHarmless(states: seq<State>, steps: seq<Step>, js: Js) {
    |states| == |steps| + 1 && forall k | 0 <= k < |steps| :: StepHarmless(states[k], steps[k], js)
  }

  lemma ClientStepKeeps(s: State, step: Step, t: State, js: Js)
    requires Inv(s.w, s.now, js) && Next(s, step, t, js) && (step.PutStep? || step.DeleteStep? || step.ClockStep?)
    ensures Inv(t.w, t.now, js) <==> StepHarmless(s, step, js)
  {
    match step
    case PutStep(id, upload, page) => PutKeeps(s.w, page, id, upload, s.now, js);
    case DeleteStep(id) => DeleteKeeps(s.w, id, s.now, js);
    case ClockStep(later) => TimePasses(s.w, s.now, later, js);
  }

  lemma {:induction false} HarmlessRunsKeep(states: seq<State>, steps: seq<Step>, js: Js)
    requires IsRun(states, steps, js) && ClientSteps(steps) && PutsHarmless(states, steps, js)
    requires Inv(states[0].w, states[0].now, js)
    ensures forall k | 0 <= k < |states| :: Inv(states[k].w, states[k].now, js)
    decreases |steps|
  {
    if steps != [] {
      var n := |steps| - 1;
      RunPrefix(states, steps, js);
      assert forall k | 0 <= k < n :: StepHarmless(states[k], steps[k], js);
      HarmlessRunsKeep(states[..n + 1], steps[..n], js);
      assert forall k | 0 <= k <= n :: states[..n + 1][k] == states[k];
      ClientStepKeeps(states[n], steps[n], states[n + 1], js);
    }
  }

  /**
   * Every run of uploads, deletions and clock steps, whatever tags collide: in all its states configs of a node
   * never share a port, metadata mirrors the bodies, and each live claim is backed by a live record, exactly
   * when every upload's listing showed what the upload had to know.
   */
  lemma ClientRunsKeep(states: seq<State>, steps: seq<Step>, js: Js)
    requires IsRun(states, steps, js) && ClientSteps(steps)
    requires Inv(states[0].w, states[0].now, js)
    ensures (forall k | 0 <= k < |states| :: Inv(states[k].w, states[k].now, js)) <==> PutsHarmless(states, steps, js)
  {
    if PutsHarmless(states, steps, js) {
      HarmlessRunsKeep(states, steps, js);
    } else {
      var k :| 0 <= k < |steps| && !StepHarmless(states[k], steps[k], js);
      assert Next(states[k], steps[k], states[k + 1], js);
      if Inv(states[k].w, states[k].now, js) {
        ClientStepKeeps(states[k], steps[k], states[k + 1], js);
      }
    }
  }

  lemma StepMirrors(s: State, step: Step, t: State, js: Js)
    requires Mirrored(s.w, s.now, js) && Next(s, step, t, js)
    ensures Mirrored(t.w, t.now, js)
  {
    if step.PutStep? { PutMirrored(s.w, step.page, step.id, step.upload, s.now, js); }
  }

  lemma {:induction false} RunsMirror(states: seq<State>, steps: seq<Step>, js: Js)
    requires IsRun(states, steps, js) && Mirrored(states[0].w, states[0].now, js)
    ensures forall k | 0 <= k < |states| :: Mirrored(states[k].w, states[k].now, js)
    decreases |steps|
  {
    if steps != [] {
      var n := |steps| - 1;
      RunPrefix(states, steps, js);
      RunsMirror(states[..n + 1], steps[..n], js);
      assert forall k | 0 <= k <= n :: states[..n + 1][k] == states[k];
      StepMirrors(states[n], steps[n], states[n + 1], js);
    }
  }

  /** In every state of every run the metadata-only listing shows what reading each record would. */
  lemma MetadataListingIsFull(states: seq<State>, steps: seq<Step>, js: Js, k: nat, keys: seq<Id>)
    requires IsRun(states, steps, js) && Mirrored(states[0].w, states[0].now, js) && k < |states|
    requires forall id | id in keys :: id in states[k].w.records
    ensures MetadataListing(states[k].w, keys, MAX_KV_READS) == FullListing(states[k].w, keys)
  {
    RunsMirror(states, steps, js);
    MirroredListing(states[k].w, states[k].now, keys, MAX_KV_READS, js);
  }

  lemma {:induction false} MirroredListing(w: World, now: int, keys: seq<Id>, budget: nat, js: Js)
    requires Mirrored(w, now, js) && forall id | id in keys :: id in w.records
    ensures MetadataListing(w, keys, budget) == FullListing(w, keys)
  {
    if keys != [] {
      assert keys[0] in keys;
      assert FullListing(w, keys)[1..] == FullListing(w, keys[1..]);
      MirroredListing(w, now, keys[1..], budget, js);
    }
  }

  lemma RunPrefix(states: seq<State>, steps: seq<Step>, js: Js)
    requires IsRun(states, steps, js) && steps != []
    ensures IsRun(states[..|states| - 1], steps[..|steps| - 1], js)
  {
    var n := |steps| - 1;
    forall k | 0 <= k < n
      ensures Next(states[..n + 1][k], steps[..n][k], states[..n + 1][k + 1], js)
      ensures steps[..n][k] == steps[k] && states[..n + 1][k] == states[k]
    {
      assert Next(states[k], steps[k], states[k + 1], js);
    }
  }

  // ---- A backfilled claim that outlives its record ---------------------------

  function Tagged(): Upload {
    Upload(Obj([Member("tag", Str("t"))]), "", "", true, false)
  }

  function FirstUpload(id: Id, at: int, js: Js): Stored {
    var r := Record(id, Tagged().config, "", "", true, false, at, at);
    Stored(r, Some(Project(r, js)), at + CLIENT_CONFIG_TTL_MS)
  }

  lemma TaggedExtracts(js: Js)
    ensures RawTag(Tagged().config) == Some("t") && ExtractTag(Tagged().config) == "t"
    ensures ExtractPort(Tagged().config, js) == None
  {
    assert TrimStart("t") == "t";
  }

  lemma FirstPut(w: World, page: Option<set<Id>>, id: Id, now: int, js: Js)
    requires id !in w.records
    ensures PutSpec(w, page, id, Tagged(), now, js).0
         == w.(records := w.records[id := FirstUpload(id, now, js)],
               claims := w.claims["t" := Claim(id, now + CLIENT_CONFIG_TTL_MS)])
  {
    TaggedExtracts(js);
  }

  const OWNER := Id("n", "a")
  const THIEF := Id("n", "b")

  function OwnerClaims(js: Js): World {
    World(map[OWNER := FirstUpload(OWNER, 1, js)], map["t" := Claim(OWNER, 1 + CLIENT_CONFIG_TTL_MS)], map[])
  }

  function ThiefClaims(js: Js): World {
    World(map[OWNER := FirstUpload(OWNER, 1, js), THIEF := FirstUpload(THIEF, 2, js)],
      map["t" := Claim(THIEF, 2 + CLIENT_CONFIG_TTL_MS)], map[])
  }

  function ThiefGone(js: Js): World {
    World(map[OWNER := FirstUpload(OWNER, 1, js)], map[], map[])
  }

  function Healed(js: Js): World {
    World(map[OWNER := FirstUpload(OWNER, 1, js)], map["t" := Claim(OWNER, 3 + CLIENT_CONFIG_TTL_MS)], map[])
  }

  lemma OwnerUploads(js: Js)
    ensures var s, step := State(World(map[], map[], map[]), 1), PutStep(OWNER, Tagged(), Some({}));
            Next(s, step, State(OwnerClaims(js), 1), js) && StepHarmless(s, step, js)
  {
    var w := World(map[], map[], map[]);
    FirstPut(w, Some({}), OWNER, 1, js);
    assert NodeKeys(w, "n", 1) == {};
    assert IsListing(w, "n", 1, Some({}));
  }

  lemma ThiefUploads(js: Js)
    ensures var s, step := State(OwnerClaims(js), 2), PutStep(THIEF, Tagged(), Some({OWNER}));
            Next(s, step, State(ThiefClaims(js), 2), js) && StepHarmless(s, step, js)
  {
    var w := OwnerClaims(js);
    FirstPut(w, Some({OWNER}), THIEF, 2, js);
    assert NodeKeys(w, "n", 2) == {OWNER};
    assert IsListing(w, "n", 2, Some({OWNER}));
  }

  lemma ThiefLeaves(js: Js)
    ensures Next(State(ThiefClaims(js), 3), DeleteStep(THIEF), State(ThiefGone(js), 3), js)
  {
    TaggedExtracts(js);
    var w := ThiefClaims(js);
    assert w.records - {THIEF} == ThiefGone(js).records;
    assert w.claims - {"t"} == map[];
  }

  lemma CheckHeals(js: Js)
    ensures Next(State(ThiefGone(js), 3), CheckStep("t", Some([OWNER])), State(Healed(js), 3), js)
    ensures !ClaimsBacked(Healed(js), 3)
  {
    var w, w' := ThiefGone(js), Healed(js);
    TaggedExtracts(js);
    assert OWNER in [OWNER] && ScanHit(w, OWNER, "t") && LiveRecord(w, OWNER, 3);
    assert w' == w.(claims := w.claims["t" := Claim(OWNER, 3 + CLIENT_CONFIG_TTL_MS)]);
    assert CheckEffect(w, "t", 3, Some([OWNER]), js, true, w');
    assert LiveOwner(w'.claims, "t", 3) == Some(OWNER);
  }

  ghost predicate ClientRunTo(states: seq<State>, steps: seq<Step>, s: State, js: Js) {
    && IsRun(states, steps, js) && ClientSteps(steps) && PutsHarmless(states, steps, js)
    && states[0] == State(World(map[], map[], map[]), 1) && states[|states| - 1] == s
  }

  lemma OneMoreStep(states: seq<State>, steps: seq<Step>, s: State, step: Step, t: State, js: Js)
    requires ClientRunTo(states, steps, s, js) && Next(s, step, t, js) && StepHarmless(s, step, js)
    requires step.PutStep? || step.DeleteStep? || step.ClockStep?
    ensures ClientRunTo(states + [t], steps + [step], t, js)
  {
    var states', steps' := states + [t], steps + [step];
    forall k | 0 <= k < |steps'|
      ensures Next(states'[k], steps'[k], states'[k + 1], js) && StepHarmless(states'[k], steps'[k], js)
      ensures steps'[k].PutStep? || steps'[k].DeleteStep? || steps'[k].ClockStep?
    {
      if k < |steps| {
        assert Next(states[k], steps[k], states[k + 1], js) && StepHarmless(states[k], steps[k], js);
      }
    }
  }

  lemma ThiefRun(js: Js) returns (states: seq<State>, steps: seq<Step>)
    ensures ClientRunTo(states, steps, State(ThiefGone(js), 3), js)
  {
    states, steps := [State(World(map[], map[], map[]), 1)], [];
    var s1, s2 := State(OwnerClaims(js), 1), State(OwnerClaims(js), 2);
    var s3, s4, s5 := State(ThiefClaims(js), 2), State(ThiefClaims(js), 3), State(ThiefGone(js), 3);
    OwnerUploads(js);
    OneMoreStep(states, steps, states[0], PutStep(OWNER, Tagged(), Some({})), s1, js);
    states, steps := states + [s1], steps + [PutStep(OWNER, Tagged(), Some({}))];
    OneMoreStep(states, steps, s1, ClockStep(2), s2, js);
    states, steps := states + [s2], steps + [ClockStep(2)];
    ThiefUploads(js);
    OneMoreStep(states, steps, s2, PutStep(THIEF, Tagged(), Some({OWNER})), s3, js);
    states, steps := states + [s3], steps + [PutStep(THIEF, Tagged(), Some({OWNER}))];
    OneMoreStep(states, steps, s3, ClockStep(3), s4, js);
    states, steps := states + [s4], steps + [ClockStep(3)];
    ThiefLeaves(js);
    OneMoreStep(states, steps, s4, DeleteStep(THIEF), s5, js);
    states, steps := states + [s5], steps + [DeleteStep(THIEF)];
  }

  /**
   * Two configs upload the same tag, the second is deleted, and the tag is checked: the check writes a
   * claim that outlives the record it names, though the invariant held until then.
   */
  lemma HealedClaimOutlives(js: Js) returns (states: seq<State>, steps: seq<Step>, before: State, after: State)
    ensures ClientRunTo(states, steps, before, js) && Inv(before.w, before.now, js)
    ensures Next(before, CheckStep("t", Some([OWNER])), after, js) && !ClaimsBacked(after.w, after.now)
  {
    states, steps := ThiefRun(js);
    before, after := State(ThiefGone(js), 3), State(Healed(js), 3);
    EmptyWorld(1, js);
    ClientRunsKeep(states, steps, js);
    CheckHeals(js);
  }

  /** The same tag dropped while the listing fails: the claim stays with a record that no longer has the tag. */
  lemma FailedListingLeavesClaim(js: Js)
    ensures Inv(OwnerClaims(js), 1, js)
    ensures !ClaimsBacked(PutSpec(OwnerClaims(js), None, OWNER, Upload(Obj([]), "", "", true, false), 1, js).0, 1)
  {
    var w, upload := OwnerClaims(js), Upload(Obj([]), "", "", true, false);
    TaggedExtracts(js);
    EmptyWorld(1, js);
    OwnerUploads(js);
    ClientStepKeeps(State(World(map[], map[], map[]), 1), PutStep(OWNER, Tagged(), Some({})), State(w, 1), js);
    assert ExtractTag(upload.config) == "";
    assert LiveOwner(w.claims, "t", 1) == Some(OWNER);
    PutClaims(w, None, OWNER, upload, 1, js);
  }

  const ON_PORT_ONE := Obj([Member("listen_port", Num("1"))])

  /** Two configs of a node on one port, the second uploaded while the listing fails. */
  lemma FailedListingSharesPort(js: Js)
    requires js.toInteger(Num("1")) == Some(1)
    ensures var upload := Upload(ON_PORT_ONE, "", "", true, false);
            var w := PutSpec(World(map[], map[], map[]), Some({}), OWNER, upload, 1, js).0;
            Inv(w, 1, js) && !PortsDistinct(PutSpec(w, None, THIEF, upload, 1, js).0, 1, js)
  {
    var w0, upload := World(map[], map[], map[]), Upload(ON_PORT_ONE, "", "", true, false);
    var w := PutSpec(w0, Some({}), OWNER, upload, 1, js).0;
    EmptyWorld(1, js);
    assert NodeKeys(w0, "n", 1) == {};
    PutKeeps(w0, Some({}), OWNER, upload, 1, js);
    assert ExtractPort(ON_PORT_ONE, js) == Some(1);
    assert OWNER in NodeKeys(w, "n", 1) && PortOf(w.records[OWNER], js) == Some(1);
    HiddenConflictBreaks(w, None, THIEF, upload, 1, js);
  }

  /** The check of this tag was answered "available" just before the step. */
  ghost predicate CheckedFree(s: State, tag: string, js: Js) {
    exists scanned: Option<seq<Id>> ::
      (scanned.Some? ==> IsScan(s.w, scanned.value, s.now)) && CheckAnswer(s.w, tag, s.now, scanned, js)
  }

  /**
   * Every newly introduced tag was checked; a check of an untrimmed tag finds none so spelled, and an upload's
   * listing hides nothing the upload has to know.
   */
  ghost predicate ChecksFirst(s: State, step: Step, js: Js) {
    match step
    case PutStep(id, upload, page) =>
      var tag := ExtractTag(upload.config);
      && PutHarmless(s.w, page, id, upload, s.now, js)
      && (tag == "" || CheckedFree(s, tag, js) || (LiveRecord(s.w, id, s.now) && TagOf(s.w.records[id]) == tag))
    case CheckStep(tag, scanned) => tag != "" && CheckHarmless(s.w, tag, scanned, js)
    case CreateStep(i, params) => ExtractTag(params) == "" || CheckedFree(s, ExtractTag(params), js)
    case UpdateStep(i, params) =>
      var tag := ExtractTag(params);
      tag == "" || CheckedFree(s, tag, js) || (i in s.w.instances && RowTag(s.w.instances[i]) == tag)
    case _ => true
  }

  ghost predicate AllChecked(states: seq<State>, steps: seq<Step>, js: Js) {
    |states| == |steps| + 1 && forall k | 0 <= k < |steps| :: ChecksFirst(states[k], steps[k], js)
  }

  lemma CheckedPrefix(states: seq<State>, steps: seq<Step>, js: Js)
    requires AllChecked(states, steps, js) && steps != []
    ensures AllChecked(states[..|states| - 1], steps[..|steps| - 1], js)
    ensures ChecksFirst(states[|steps| - 1], steps[|steps| - 1], js)
  {
  }

  lemma CheckedIsUnused(s: State, tag: string, js: Js)
    requires Disciplined(s.w, s.now, js) && CheckedFree(s, tag, js) && tag != "" && Trim(tag) == tag
    ensures !InUse(s.w, tag, s.now)
  {
    var scanned: Option<seq<Id>> :|
      (scanned.Some? ==> IsScan(s.w, scanned.value, s.now)) && CheckAnswer(s.w, tag, s.now, scanned, js);
    CheckIsFullScan(s.w, tag, s.now, scanned, js);
  }

  lemma StepKeepsDisciplined(s: State, step: Step, t: State, js: Js)
    requires Disciplined(s.w, s.now, js) && Next(s, step, t, js) && ChecksFirst(s, step, js)
    ensures Disciplined(t.w, t.now, js)
  {
    match step
    case PutStep(id, upload, page) =>
      var tag := ExtractTag(upload.config);
      ExtractTagMeans(upload.config);
      if tag != "" && CheckedFree(s, tag, js) { CheckedIsUnused(s, tag, js); }
      PutKeepsDisciplined(s.w, page, id, upload, s.now, js);
    case DeleteStep(id) => DeleteKeepsDisciplined(s.w, id, s.now, js);
    case CheckStep(tag, scanned) =>
      var healed :| CheckEffect(s.w, tag, s.now, scanned, js, healed, t.w);
      CheckKeeps(s.w, tag, s.now, scanned, js, healed, t.w);
    case CreateStep(i, params) =>
      ExtractTagMeans(params);
      if ExtractTag(params) != "" { CheckedIsUnused(s, ExtractTag(params), js); }
      WriteInstanceKeeps(s.w, i, params, s.now, js);
    case UpdateStep(i, params) =>
      ExtractTagMeans(params);
      if ExtractTag(params) != "" && CheckedFree(s, ExtractTag(params), js) { CheckedIsUnused(s, ExtractTag(params), js); }
      WriteInstanceKeeps(s.w, i, params, s.now, js);
    case RemoveStep(i) => DeleteInstanceKeeps(s.w, i, s.now, js);
    case ClockStep(later) => DisciplinedLater(s.w, s.now, later, js);
  }

  /**
   * Every run in which new tags are checked first: in each state all live tags, of clients and instances
   * alike, are pairwise distinct, and the index is exactly the inverse of the record-to-tag map.
   */
  lemma {:induction false} DisciplinedRunsKeep(states: seq<State>, steps: seq<Step>, js: Js)
    requires IsRun(states, steps, js) && AllChecked(states, steps, js)
    requires Disciplined(states[0].w, states[0].now, js)
    ensures forall k | 0 <= k < |states| :: Disciplined(states[k].w, states[k].now, js)
    decreases |steps|
  {
    if steps != [] {
      var n := |steps| - 1;
      RunPrefix(states, steps, js);
      CheckedPrefix(states, steps, js);
      DisciplinedRunsKeep(states[..n + 1], steps[..n], js);
      assert forall k | 0 <= k <= n :: states[..n + 1][k] == states[k];
      StepKeepsDisciplined(states[n], steps[n], states[n + 1], js);
    }
  }

  /** Tags of live clients and of instances, all together, are pairwise distinct. */
  ghost predicate TagsDistinct(w: World, now: int) {
    && (forall a, b | LiveRecord(w, a, now) && LiveRecord(w, b, now) && a != b ::
          TagOf(w.records[a]) != "" ==> TagOf(w.records[a]) != TagOf(w.records[b]))
    && (forall i, j | i in w.instances && j in w.instances && i != j ::
          RowTag(w.instances[i]) != "" ==> RowTag(w.instances[i]) != RowTag(w.instances[j]))
    && NoSharedTag(w, now)
  }

  /** A tag's claim names a record exactly when that live record has the tag. */
  ghost predicate IndexInverts(w: World, now: int) {
    forall t: string, id: Id | t != "" ::
      LiveOwner(w.claims, t, now) == Some(id) <==> LiveRecord(w, id, now) && TagOf(w.records[id]) == t
  }

  /** Checking a trimmed tag answers like a scan of both stores, whatever the KV listing returns. */
  ghost predicate ChecksScanAll(w: World, now: int, js: Js) {
    forall tag: string, scanned: Option<seq<Id>> | tag != "" && (scanned.Some? ==> IsScan(w, scanned.value, now)) ::
      CheckAnswer(w, tag, now, scanned, js)
      <==> if Trim(tag) == tag then !InUse(w, tag, now) else !FindsSpelling(w, tag, scanned, js)
  }

  lemma DisciplinedIsUnique(w: World, now: int, js: Js)
    requires Disciplined(w, now, js)
    ensures TagsDistinct(w, now) && IndexInverts(w, now) && ChecksScanAll(w, now, js)
  {
    forall t: string, id: Id | t != ""
      ensures LiveOwner(w.claims, t, now) == Some(id) <==> LiveRecord(w, id, now) && TagOf(w.records[id]) == t
    {
      DisciplinedMeans(w, now, js, id, id, t);
    }
    forall a, b | LiveRecord(w, a, now) && LiveRecord(w, b, now) && a != b && TagOf(w.records[a]) != ""
      ensures TagOf(w.records[a]) != TagOf(w.records[b])
    {
      DisciplinedMeans(w, now, js, a, b, TagOf(w.records[a]));
    }
    forall tag: string, scanned: Option<seq<Id>> | tag != "" && (scanned.Some? ==> IsScan(w, scanned.value, now))
      ensures CheckAnswer(w, tag, now, scanned, js)
          <==> if Trim(tag) == tag then !InUse(w, tag, now) else !FindsSpelling(w, tag, scanned, js)
    {
      CheckIsFullScan(w, tag, now, scanned, js);
    }
  }

  /** In every state of such a run: distinct tags, an index that inverts the records, and checks as good as full scans. */
  lemma CheckedTagsStayUnique(states: seq<State>, steps: seq<Step>, js: Js, k: nat)
    requires IsRun(states, steps, js) && AllChecked(states, steps, js)
    requires Disciplined(states[0].w, states[0].now, js) && k < |states|
    ensures TagsDistinct(states[k].w, states[k].now)
    ensures IndexInverts(states[k].w, states[k].now)
    ensures ChecksScanAll(states[k].w, states[k].now, js)
  {
    DisciplinedRunsKeep(states, steps, js);
    DisciplinedIsUnique(states[k].w, states[k].now, js);
  }

  lemma EmptyWorld(now: int, js: Js)
    ensures Disciplined(World(map[], map[], map[]), now, js)
  {
  }

  // ---- An untrimmed check that lets a tag in twice ---------------------------

  /** Params whose tag is written with a space in front. */
  const SPACED := Obj([Member("tag", Str(" t"))])

  function TwoRows(column: string): World {
    World(map[], map[], map["a" := InstanceRow(Obj([]), ""), "b" := InstanceRow(SPACED, column)])
  }

  lemma SpacedExtracts()
    ensures RawTag(SPACED) == Some(" t") && ExtractTag(SPACED) == "t" && Trim(" t") == "t" && Trim("t") == "t"
    ensures ExtractTag(Obj([])) == ""
  {
    assert " t"[1..] == "t";
    assert TrimStart(" t") == "t" && TrimStart("t") == "t";
  }

  lemma RowsAreWritten(js: Js)
    ensures var s0, s1 := State(World(map[], map[], map[]), 1), State(World(map[], map[], map["a" := InstanceRow(Obj([]), "")]), 1);
            && Next(s0, CreateStep("a", Obj([])), s1, js) && ChecksFirst(s0, CreateStep("a", Obj([])), js)
            && Next(s1, CreateStep("b", SPACED), State(TwoRows("t"), 1), js) && ChecksFirst(s1, CreateStep("b", SPACED), js)
            && Disciplined(TwoRows("t"), 1, js)
  {
    SpacedExtracts();
    var s0 := State(World(map[], map[], map[]), 1);
    var s1 := State(World(map[], map[], map["a" := InstanceRow(Obj([]), "")]), 1);
    EmptyWorld(1, js);
    StepKeepsDisciplined(s0, CreateStep("a", Obj([])), s1, js);
    var none: Option<seq<Id>> := None;
    assert RawTag(Obj([])) == None;
    assert CheckAnswer(s1.w, "t", 1, none, js);
    assert TwoRows("t") == s1.w.(instances := s1.w.instances["b" := InstanceRow(SPACED, "t")]);
    StepKeepsDisciplined(s1, CreateStep("b", SPACED), State(TwoRows("t"), 1), js);
  }

  lemma UntrimmedCheckRewrites(js: Js)
    requires js.like(SPACED, " t")
    ensures Next(State(TwoRows("t"), 1), CheckStep(" t", None), State(TwoRows(" t"), 1), js)
    ensures CheckAnswer(TwoRows(" t"), "t", 1, None, js) && InUse(TwoRows(" t"), "t", 1)
  {
    SpacedExtracts();
    var w, w' := TwoRows("t"), TwoRows(" t");
    assert w.instances["a"].tag == "" && LegacyHit(w, "b", " t", js);
    assert w' == w.(instances := w.instances["b" := w.instances["b"].(tag := " t")]);
    assert CheckEffect(w, " t", 1, None, js, true, w');
    assert RawTag(Obj([])) == None;
    assert w'.instances["b"].tag[0] == ' ';
    assert RowTag(w'.instances["b"]) == "t";
  }

  /**
   * Two rows, one with a tag written " t", each written after its check; a check of " t" moves that spelling into
   * the column, a check of "t" then answers "available", and a third row with tag "t" makes two of them.
   */
  lemma UntrimmedCheckBreaks(js: Js)
    requires js.like(SPACED, " t")
    ensures var before, after := State(TwoRows("t"), 1), State(TwoRows(" t"), 1);
            var third := CreateStep("c", Tagged().config);
            var last := State(after.w.(instances := after.w.instances["c" := InstanceRow(Tagged().config, "t")]), 1);
            && Disciplined(before.w, 1, js) && Next(before, CheckStep(" t", None), after, js)
            && CheckAnswer(after.w, "t", 1, None, js) && InUse(after.w, "t", 1)
            && ChecksFirst(after, third, js) && Next(after, third, last, js) && !TagsDistinct(last.w, 1)
  {
    RowsAreWritten(js);
    UntrimmedCheckRewrites(js);
    SpacedExtracts();
    TaggedExtracts(js);
    var last := TwoRows(" t").(instances := TwoRows(" t").instances["c" := InstanceRow(Tagged().config, "t")]);
    assert RowTag(last.instances["b"]) == RowTag(last.instances["c"]) == "t";
  }
}
