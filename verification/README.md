# ChorusCloud: verified model

ChorusCloud renders proxy configurations from templates, keeps client configurations in a key-value
store next to a tag index, and delivers subscriptions. This project models those parts in Dafny and
proves what they keep. `dafny verify dfyconfig.toml` checks everything.

| files | what they model |
|---|---|
| `Interpolator`, `SinglePass`, `GenFree`, `Registry`, `Validator`, `Overall` | template rendering: splicing, placeholder substitution, parameter validation, overall templates |
| `DockerRenderer`, `Yaml`, `ComposeRoundTrip`, `ComposeDocument` | the compose file printer, a YAML reader, the round trip between them, and what the file says |
| `ClientStore`, `ClientReplies`, `TagInvariant` | client records, metadata mirror, tag index, tag check, instance tags, and their invariants over runs |
| `SqliteKv`, `KvRefinement`, `KvPaging` | the SQLite key-value adapter: lazy expiry, range scan, cursors |
| `RateLimiter`, `Delivery`, `TemplateCache`, `RevocationGate` | clock-driven machines: limiter, delivery cache, template cache, revocation markers |
| `Base64Url`, `Jwt` | base64url and signed tokens |
| `LegacyCleanup` | re-pointing of legacy template references |
| `Text`, `JsonTree` (`Json.dfy`), `Wrappers` | strings, JSON trees, options |

How the source appears here:

- A class stands for code that updates state in place; its methods are proved equal to a step function,
  and the lemmas are about that function. Loops of the source are loops here.
- A handler is one atomic step with one clock reading. Whether D1 or KV answers is an input of the step.
- A generator is an oracle that may answer differently on each call: its answer depends on its arguments
  and on the number of calls made before, and that number is threaded through rendering.
- HMAC, SHA-256, UTF-8, `JSON.parse`, `JSON.stringify`, `Number` and `String` are functions passed in;
  `Jwt.Lawful` states the one law that is needed of them.
- A JSON number is the text that `String(n)` gives. Objects are ordered lists of members with distinct names.
- The `client:` and `tag:` namespaces are two maps over fingerprint and name, and over tags;
  this is right for nodes whose fingerprints do not extend one another by a colon, and for no others
  (`ClientStore.FingerprintsCollide`, `ClientStore.PrefixesCollide`), so for colon-free ones
  (`ClientStore.ExtendingHasColon`).
- A list cursor is the last key itself: its base64 encoding is injective and keeps emptiness.
- Tables are maps, sets or sequences in key order; an SQL statement is one assignment.

Where code and comments disagree, the code is modelled:

- `kv-sqlite.ts:66-69` says a list misses only keys that end in U+10FFFF. It misses the keys where that code
  point comes right after the prefix (`KvPaging.RangeIsPrefix`).
- `kv-sqlite.ts:121`: an empty cursor restarts the scan, so pages of one key never end when the empty key
  exists (`KvPaging.StuckForever`); this is the only such case (`KvPaging.OnlyEmptyKeyStops`).
- `clients.ts:271-275` says a claim never outlives its config. A claim backfilled by the tag check
  (`tags.ts:95`) does, unless the record was written at that instant (`TagInvariant.HealedClaim`,
  `TagInvariant.HealedClaimOutlives`).
- `tags.ts:55-56` says the backfilled column ends the repetition. For a tag written with space around it the column
  loses the trimmed tag, which `protocol-instances.ts:16-19` mirrors there, and the tag can be given out twice
  (`TagInvariant.UntrimmedCheckBreaks`).
- `clients.ts:89-92` says callers degrade gracefully when the listing fails. Then a port can be shared and a claim
  left behind (`TagInvariant.FailedListingSharesPort`, `TagInvariant.FailedListingLeavesClaim`).
- `middleware.ts:10-16` says a marker lasts as long as an admin token. It ends before the token when the
  revocation was observed within the second of issue (`RevocationGate.RevokedStaysRejected`).
- `jwt.ts:83` accepts a token during second `exp`; section 4.1.4 of RFC 7519 would not.
- `admin.ts:137-161` writes templates without dropping the cache (`TemplateCache.SeedWriteIsSeen`).
- `clients.ts:200` accepts fingerprints with a colon, which `clients.ts:160` refuses; such configs can share a key
  (`ClientStore.ColonFingerprintsCollide`).
- `docker_renderer.ts:14-15`, of the words and numbers of YAML, quotes only `true`, `false`, `null` and plain decimals;
  strings like `True` are printed bare and change type (`ComposeRoundTrip.WordIsNotQuoted`).
- `docs/config-format.md` describes inline `fn:` generators; the registry has none, so such a definition
  is an issue like any unregistered generator.

## Model

| member | source | states |
|---|---|---|
| Interpolator.LookupPath | src/engine/interpolator.ts:7-15 | a dotted path is followed property by property, through objects, arrays and strings; stepping out of null or an absent property is undefined |
| Interpolator.WalkIsChain | src/engine/interpolator.ts:7-15 | a path leads to a value exactly along a chain of named properties of which none but the last is null |
| Interpolator.ArrayProperties | src/engine/interpolator.ts:12 | an array has its items under the decimal texts of their positions, its length under `length`, and nothing else |
| Interpolator.StringProperties | src/engine/interpolator.ts:12 | a string has its characters and its length in the same way |
| Interpolator.ReplacePlaceholders | src/engine/interpolator.ts:78-102 | the loops compute the depth-first, left-to-right interpolation, with its generator calls in order and its first failure |
| Interpolator.TreesInTurn | src/engine/interpolator.ts:78-102 | arrays and objects are interpolated item by item, each after the generator calls of those before, names, order and number kept; other values stay |
| Interpolator.FirstFailure | src/engine/interpolator.ts:78-102 | the first failing item fails the whole with its error |
| SinglePass.UnparseSegments | src/engine/interpolator.ts:4-5 | cutting a string into literal characters and placeholders loses nothing |
| SinglePass.SegmentsUnparse | src/engine/interpolator.ts:4-5 | segments are what their text is cut into exactly when they are the leftmost cut: placeholders with a body without braces, and characters where no placeholder starts |
| SinglePass.EmbeddedIsSinglePass | src/engine/interpolator.ts:45-54 | for every text that is not one whole placeholder, stray braces included, the output is the literals interleaved with the resolved values, each copied once and never rescanned |
| SinglePass.NoBraceSurvives | src/engine/interpolator.ts:45-76 | a substituted string has no brace left when all braces of the text belong to placeholders and the values have none; it is a string unless the text is one whole placeholder |
| SinglePass.WholeParameter | src/engine/interpolator.ts:17-47 | a string that is one parameter placeholder, with any path and padding, yields the value at the path with its type, or the unknown-parameter error |
| SinglePass.EmbeddedParameters | src/engine/interpolator.ts:45-76 | any number of parameters inside other text: each becomes its string, nothing when null or unknown, and JSON otherwise, and no generator is called |
| SinglePass.GeneratorExpression | src/engine/interpolator.ts:30-40 | a generator expression, with or without arguments, calls the named generator once with its trimmed comma-separated arguments, or fails when it is unknown |
| GenFree.GenFreeIndependent | src/engine/interpolator.ts:78-102 | without generator placeholders the result, value or failure, does not depend on earlier generator calls |
| GenFree.PlainIsFixed | src/engine/interpolator.ts:45-102 | a tree without placeholders comes back verbatim |
| GenFree.NoOpeningBracesIsPlain | src/engine/interpolator.ts:5 | a string without two opening braces in a row holds no placeholder |
| Registry.SplicePlaceholders | src/engine/registry.ts:24-67 | the recursive loops compute the splice: replacements one by one in arrays, as an array in a field |
| Registry.OneItemSpliced | src/engine/registry.ts:24-67 | an item that is no token stays one item; arrays and objects are spliced inside, everything else is kept |
| Registry.SpliceThenInterpIsOnePass | src/engine/registry.ts:277-280 | splicing then interpolating equals one traversal in which a token means its replacement list interpolated there; same value, generator calls and failure, for every template and every replacement list |
| Overall.SpliceThenInterpWithReadyLists | src/engine/registry.ts:277-280 | with gen-free replacements a token may be read as the list interpolated once beforehand, with the same failures |
| Overall.RenderOverall | src/engine/registry.ts:251-281 | rendering checks existence, side and parameters in that order and then delivers the one-traversal meaning of the template |
| Overall.RenderOutcomes | src/engine/registry.ts:251-281 | each outcome by its cause, with the categories spelled out: unknown template, wrong side, failing parameters, failing placeholder, or the document of the two passes |
| Overall.ReplacementsMean | src/engine/registry.ts:266-275 | the two tokens by their literal texts and what they stand for: the configs of that side, and on the client side the proxy tags |
| Overall.ProxyTagsMean | src/engine/registry.ts:272-274 | an instance adds its `tag` exactly when it is a non-empty string |
| Overall.TokenSpellings | src/engine/registry.ts:20-22 | blanks inside the braces of the two tokens do not matter |
| Overall.SplicedLength | src/engine/registry.ts:28-46 | after both passes an array has one item for each static item and as many as each token has replacements |
| Overall.SplicedArray | src/engine/registry.ts:28-46 | around a token the interpolated replacements appear contiguous and in order, verbatim without placeholders, between the two passes over what stands before and after |
| Overall.ProtocolsInArray | src/engine/registry.ts:28-46 | where `{{ protocols }}` is written in an array, with any blanks, the configs of all instances for that side stand in its place |
| Overall.TokenInField | src/engine/registry.ts:48-65 | a field whose value is one of the tokens gets the whole list; the other fields are spliced by themselves |
| Overall.ProtocolsAppear | src/engine/registry.ts:266-280 | if the protocols token is used, every interpolated config is an array item of the document |
| Overall.NoDanglingProxyTag | src/engine/registry.ts:266-280 | every string added by the proxy tags token is the `tag` of one of the outbounds that the protocols token inserted, all of which are in the document, when tags call no generator |
| Overall.RenderingIsTotal | src/engine/registry.ts:277-280 | under the schema rule and with declared parameters only, rendering fails exactly when a definition fails |
| Validator.ResolveAndValidate | src/engine/validator.ts:21-57 | the loop computes bindings, issues and generator calls definition by definition |
| Validator.IssuesAreTheFailingDefs | src/engine/validator.ts:28-56 | exactly the issue of each failing definition, by its kind, in definition order; success exactly when none fails |
| Validator.SuccessBindsDeclared | src/engine/types.ts:12-27 | under the schema rule a success binds the declared names and no others |
| Validator.ResolutionOrder | src/engine/validator.ts:29-49 | the last definition of a name to give a value decides it: the user value that is not empty, text for a number converted, else the default, else the answer of the generator after the generator calls of the definitions before |
| DockerRenderer.ExpandPlaceholders | src/engine/docker_renderer.ts:40-54 | the two placeholders are replaced by the override lists, or dropped, in place |
| DockerRenderer.ExpandAround | src/engine/docker_renderer.ts:6-54 | each placeholder gives way to its own override list or to nothing, in place; every other item stays |
| DockerRenderer.RenderDocker | src/engine/docker_renderer.ts:85-107 | the loops print the services first, then the other keys in order |
| ComposeDocument.QuotingRule | src/engine/docker_renderer.ts:9-25 | exactly which strings are printed in quotes, spelled out; every other string is printed bare |
| ComposeRoundTrip.QuotedRoundTrip | src/engine/docker_renderer.ts:24 | undoing the quoting recovers the string exactly when it has no backslash |
| ComposeRoundTrip.ScalarRoundTrip | src/engine/docker_renderer.ts:9-25 | a printed scalar reads back as itself, type included, if and only if it is null, a boolean, a number, a quoted string without backslash, or a bare string without edge blanks, leading indicator, and that YAML takes for no word or number |
| ComposeRoundTrip.WordIsNotQuoted | src/engine/docker_renderer.ts:14-15 | the string `True` is printed bare and reads back as a boolean |
| ComposeRoundTrip.ComposeReadsBack | src/engine/docker_renderer.ts:56-107 | reading the printed compose file recovers the tree with placeholders expanded, empty lists dropped and scalar types kept |
| ComposeDocument.ServiceReadsAs | src/engine/docker_renderer.ts:56-83 | in the file read back a key of a service has its value, with placeholders expanded under `environment` and `volumes` and nowhere else, empty lists gone and empty maps null |
| ComposeDocument.TopReadsAs | src/engine/docker_renderer.ts:91-106 | every other key of the file has its value, empty lists gone; services are in the file exactly when they are an object |
| ComposeDocument.NoMarkerLeft | src/engine/docker_renderer.ts:42-53 | no placeholder is left in an expanded list unless an override brings it |
| ClientStore.KeysAreDistinct | src/routes/clients.ts:61-68 | two configs share a key, or an owner text, exactly when the name of one goes on with the rest of the longer fingerprint; tag keys are distinct and no client keys |
| ClientStore.FingerprintsCollide | src/routes/clients.ts:61-63 | some configs of two nodes share a key exactly when one fingerprint extends the other by a colon |
| ClientStore.PrefixSelectsNode | src/routes/clients.ts:93-95 | exactly which configs the prefix of a node selects: its own, and those whose fingerprint and name together go on from it |
| ClientStore.PrefixesCollide | src/routes/clients.ts:93-95 | the prefix of a node selects some config of another exactly when one fingerprint extends the other by a colon |
| ClientStore.ColonFingerprintsCollide | src/routes/clients.ts:61-63 | two configs share a key when a fingerprint has a colon |
| ClientStore.Cloud.ListClientKeys | src/routes/clients.ts:93-102 | one page of a node's live keys with their metadata, or nothing when the list fails |
| ClientStore.Cloud.ListClients | src/routes/clients.ts:110-152 | the metadata-only listing of a page: metadata where mirrored, a bounded number of full reads where not |
| ClientReplies.LegacyListing | src/routes/clients.ts:127-134 | of records without metadata as many as the budget allows are read in full, in order |
| ClientStore.Cloud.Put | src/routes/clients.ts:200-291 | the upload step: port guard, record, metadata and index maintenance, exactly as the step function says |
| ClientReplies.PutRefused | src/routes/clients.ts:212-228 | an upload is refused exactly when another listed config of the node has its port, and then changes nothing |
| ClientReplies.PutRefusedForSibling | src/routes/clients.ts:212-228 | with a complete listing: exactly when another live config of the same node has the port |
| ClientReplies.ReuploadIsAccepted | src/routes/clients.ts:217 | a config may always be uploaded again with the port it has |
| ClientReplies.PutIndexMeans | src/routes/clients.ts:261-288 | the index after an upload, tag by tag: a new tag is claimed whoever held it, an unchanged one is renewed unless another config holds it, the tag before is released if the config held it, all else stays |
| ClientReplies.PortMeans | src/routes/clients.ts:71-75 | `server_port` goes before `listen_port` unless absent or null; ports are integers from 1 to 65535 |
| ClientReplies.LiveAsStored | src/node/kv-sqlite.ts:79-84 | records and claims are live just as long as the store returns what was put under their keys |
| ClientStore.Cloud.Delete | src/routes/clients.ts:293-312 | the deletion step: removes the record and the claim it owns |
| ClientReplies.DeleteMeans | src/routes/clients.ts:293-312 | found exactly when live; then the record and the claim it holds on its tag are gone, and nothing else changes |
| ClientStore.Cloud.Check | src/routes/tags.ts:25-108 | the staged answer, and at most one backfill, which never accompanies the answer "available" |
| ClientReplies.HealedCheckIsIndexed | src/routes/tags.ts:54-57 | after a backfill the next check of the tag is answered by the column or the index |
| ClientStore.Cloud.CreateInstance | src/routes/protocol-instances.ts:47-85 | refused for an unknown node, an unknown protocol or a failing render, else one new row whose column is its trimmed tag, all others unchanged |
| ClientStore.Cloud.UpdateInstance | src/routes/protocol-instances.ts:87-130 | refused for a missing row or a failing render; params rewrite that row and its column together; without params the tags stay |
| TagInvariant.ClientRunsKeep | src/routes/clients.ts:200-312 | every run of uploads, deletions and clock steps, with listings that fail or are cut off, keeps distinct ports per node, metadata equal to the projected body, and live claims backed by a live record with that tag and no earlier expiry, exactly when no upload's listing hid a sibling with its port or a claim to release |
| TagInvariant.MetadataListingIsFull | src/routes/clients.ts:110-152 | in every state of every run the metadata-only listing shows what reading each full record would show |
| TagInvariant.OneClaimPerRecord | src/routes/clients.ts:261-288 | a record owns at most one live claim even when claims are stolen |
| TagInvariant.PutPorts | src/routes/clients.ts:212-228 | an accepted upload keeps ports distinct exactly when the listing hid no live sibling with the uploaded port |
| TagInvariant.PutClaims | src/routes/clients.ts:256-288 | after an accepted upload live claims stay backed exactly when the listing did not hide a record whose claimed tag changes |
| TagInvariant.CompleteListingIsHarmless | src/routes/clients.ts:92-102 | a listing that succeeds, of a node with at most 1000 configs, hides neither |
| TagInvariant.FailedListingSharesPort | src/routes/clients.ts:212-228 | two configs of a node on one port, the second uploaded while the listing fails |
| TagInvariant.FailedListingLeavesClaim | src/routes/clients.ts:256-288 | a tag dropped while the listing fails leaves its claim behind |
| TagInvariant.PutReplyMeans | src/routes/clients.ts:209-290 | the record is stored as uploaded for 90 days; re-upload keeps the creation time, and "created" is reported exactly when there was no live record or the listing hid it |
| TagInvariant.HealedClaim | src/routes/tags.ts:90-97 | a backfilled claim keeps the claim invariant exactly when the tag is trimmed and the record was written at this instant |
| TagInvariant.HealedClaimOutlives | src/routes/tags.ts:90-97 | a run in which the backfilled claim does outlive its record: two uploads of one tag, the second deleted, a check |
| TagInvariant.DisciplinedRunsKeep | src/routes/clients.ts:256-309 | every run in which new tags were answered "available" first, and no listing or check does the harm that `PutPorts`, `PutClaims` and `CheckKeepsExactly` describe exactly, keeps the upload invariants, the index exact with equal expiry, and instance columns recognisable |
| TagInvariant.CheckedTagsStayUnique | src/routes/tags.ts:4-12 | in every state of such a run all live client and instance tags are pairwise distinct, the index is the inverse of the record-to-tag map, and the answer for a trimmed tag equals a full scan of both stores |
| TagInvariant.CheckIsFullScan | src/routes/tags.ts:31-107 | the staged answer for a trimmed tag equals the full scan even when the KV list fails; for any other tag it is what the probe and the bounded scan find |
| TagInvariant.CheckKeepsExactly | src/routes/tags.ts:25-107 | a check keeps all of that, whichever backfill it makes, exactly when its tag is trimmed or neither the probe nor the scan finds one so spelled |
| TagInvariant.UntrimmedCheckBreaks | src/routes/tags.ts:41-63 | a check of " t" moves an instance's column to that spelling, a check of "t" then answers "available", and a second "t" is created |
| SqliteKv.SqliteKV.Get | src/node/kv-sqlite.ts:79-84 | the value, or nothing when absent or at or past expiry |
| SqliteKv.SqliteKV.Put | src/node/kv-sqlite.ts:86-107 | overwrites the row with its expiry instant; a TTL that is not positive is refused and changes nothing |
| SqliteKv.SqliteKV.Delete | src/node/kv-sqlite.ts:109-111 | removes the row |
| SqliteKv.SqliteKV.List | src/node/kv-sqlite.ts:113-144 | purges, then returns the page after the cursor with the clamped limit |
| KvPaging.ReplyHasPrefix | src/node/kv-sqlite.ts:113-144 | every key of a reply has the requested prefix, comes after the cursor, and is that of a live row |
| KvPaging.ReplyLimit | src/node/kv-sqlite.ts:120-142 | a page has at most the requested number of keys, between 1 and 1000, and is complete exactly when it has fewer |
| SqliteKv.LessMeans | src/node/kv-sqlite.ts:66-75 | keys are ordered by the code point at the first difference |
| KvRefinement.LazyPurgingIsInvisible | src/node/kv-sqlite.ts:76-144 | for every interleaving of requests under a nondecreasing clock the replies are those of a map whose entries vanish at their expiry instant |
| KvPaging.RangeIsPrefix | src/node/kv-sqlite.ts:66-75 | a key is in range exactly when it has the prefix and not U+10FFFF right after it |
| KvPaging.LastCodePointIsMissed | src/node/kv-sqlite.ts:66-75 | a key with U+10FFFF right after the prefix is missed although it does not end there |
| KvPaging.OnlyEmptyKeyStops | src/node/kv-sqlite.ts:121 | an empty cursor is returned only for pages of one key that start at the empty key |
| KvPaging.StuckForever | src/node/kv-sqlite.ts:121-142 | in that case the first page repeats forever |
| KvPaging.StuckExample | src/node/kv-sqlite.ts:121-142 | a store of two keys, one of them empty, whose pages of one key never end |
| KvPaging.FollowEnumerates | src/node/kv-sqlite.ts:113-144 | otherwise following cursors ends and yields every matching row once, in order, for any limit |
| KvPaging.FollowYieldsThePrefix | src/node/kv-sqlite.ts:113-144 | on a purged table the names obtained are strictly ascending and are exactly those of the rows under the prefix |
| KvPaging.ListRequestsYieldThePrefix | src/node/kv-sqlite.ts:113-144 | list requests with any requested limit, following cursors at one instant, yield exactly the live keys with the requested prefix, or all keys without one, ascending and once each, except those with U+10FFFF right after the prefix |
| RateLimiter.MemoryRateLimiter.Limit | src/node/rate-limiter.ts:17-27 | the decision on the pruned list is the decision on the full grant history, and the history stays within the limit in every window |
| RateLimiter.EveryWindowIsLimited | src/node/rate-limiter.ts:17-27 | in every run under a nondecreasing clock the pruned list decides like the full history, and no interval (T - windowMs, T] holds more than ceil(max) grants |
| RateLimiter.GrantKeepsLimit | src/node/rate-limiter.ts:19-24 | granting below the limit leaves at most ceil(max) grants in every interval (T - windowMs, T] |
| Delivery.Endpoint.Deliver | src/routes/subscriptions.ts:143-264 | the delivery step: its response, cache and write times, and that a stale response repeats a logged delivery |
| Delivery.ResponseMeans | src/routes/subscriptions.ts:143-264 | exactly when each response is given; a fresh document only for the subscription's own token, active and not limited; a stale one only when D1 is lost |
| Delivery.CacheMeans | src/routes/subscriptions.ts:61-75 | a fresh delivery is cached for 24 h, five minutes after the last; a 403 removes the entry; nothing else changes the cache |
| Delivery.StaleRepeatsDelivery | src/routes/subscriptions.ts:61-94 | in every run a stale response repeats a document delivered with 200 less than 24 h before for the same path and token |
| Delivery.DisabledIsNotServedStale | src/routes/subscriptions.ts:175-181 | after a 403 whose cache delete completed, the path gets no stale response before a later fresh delivery |
| Base64Url.Base64UrlEncode | src/auth/jwt.ts:17-22 | the loop computes the encoding |
| Base64Url.Base64UrlDecode | src/auth/jwt.ts:24-30 | the loop computes the decoding, or reports where `atob` throws |
| Base64Url.EncodeIsUrlChars | src/auth/jwt.ts:21 | the encoding is the URL-safe spelling of the sextets, padding gone |
| Base64Url.SextetsAreBigEndian | src/auth/jwt.ts:21 | three bytes and their four sextets are the same 24-bit number |
| Base64Url.LastIsBigEndian | src/auth/jwt.ts:21 | the last one or two bytes are followed by zero bits |
| Base64Url.AlphabetIs | src/auth/jwt.ts:21 | the URL-safe alphabet by character codes |
| Base64Url.EncodingAlphabet | src/auth/jwt.ts:21 | the encoding has only letters, digits, `-` and `_`, and the unpadded length |
| Base64Url.RoundTrip | src/auth/jwt.ts:17-30 | decoding an encoding gives back every byte sequence |
| Base64Url.AtobReadsPadded | src/auth/jwt.ts:26 | padded text with blanks anywhere is read as well |
| Jwt.VerifyAfterSign | src/auth/jwt.ts:42-89 | a signed token yields its payload up to and including second `exp` and null afterwards, for exactly the secrets with the same MAC |
| Jwt.AcceptedIsSigned | src/auth/jwt.ts:68-85 | an accepted token has three parts, carries the MAC of its first two, and has not expired |
| Jwt.PartsAccepted | src/auth/jwt.ts:61-89 | three parts are accepted as their payload exactly when the third is the MAC of the first two and no expiry has passed; without expiry never |
| Jwt.SignedParts | src/auth/jwt.ts:46-65 | a signed token is header, payload and the MAC of the two; the payload has the subject, kind, issue second, expiry and id given |
| Jwt.HashMeans | src/auth/jwt.ts:91-95 | a token hash encodes the SHA-256 of the token |
| RevocationGate.AuthGate.AdminAuth | src/auth/middleware.ts:34-90 | the verdict and the marker written, for every combination of stores that answer |
| RevocationGate.AuthMeans | src/auth/middleware.ts:34-90 | each verdict by its cause: with D1 only the row counts, without it only the marker; a revocation seen leaves a marker for 24 h |
| RevocationGate.AuthGate.Logout | src/routes/auth.ts:77-85 | the rows of an accepted token's `jti` are revoked, unless the update itself fails |
| RevocationGate.LogoutMeans | src/routes/auth.ts:77-85 | a logout marks exactly the rows of the accepted token's `jti`, and only when D1 takes the update |
| RevocationGate.LoggedOutIsRevoked | src/routes/auth.ts:55-85 | after a logout a recorded token is rejected as revoked in every later run whenever D1 answers, until it expires |
| RevocationGate.RevokedStaysRejected | src/auth/middleware.ts:46-81 | a recorded 24 h token whose revocation was observed is rejected ever after, through any outages of D1 while one store answers, exactly when the observation fell in a later second than the issue |
| RevocationGate.CoversFromTheNextSecond | src/auth/middleware.ts:10-17 | the marker outlives the token exactly when the observation fell in a later second than the issue |
| RevocationGate.ObservedTooSoon | src/auth/middleware.ts:70-81 | otherwise the token is accepted in its last second when D1 is down |
| RevocationGate.ObservedTooSoonExample | src/auth/middleware.ts:70-81 | a token issued at 0 ms and observed at 999 ms is one |
| TemplateCache.Registry.LoadAll | src/engine/registry.ts:155-168 | a fresh cache is kept and is the table of its load time, less than 30 s ago; otherwise it becomes the table as of now, or the load stops at an invalid row and the load time stays |
| TemplateCache.Registry.Parsed | src/engine/registry.ts:171-185 | the parsed document of a cached template, remembered |
| TemplateCache.Registry.Serve | src/routes/templates.ts:68-154 | renders and template writes, with their existence, duplicate and JSON checks, as the cached step function says |
| TemplateCache.CreateMeans | src/routes/templates.ts:68-105 | a template is created once, an overall template only with readable text, and only then is the cache dropped |
| TemplateCache.UpdateMeans | src/routes/templates.ts:107-141 | an update changes the text of a known template of its kind only, to readable text for an overall template |
| TemplateCache.DropAndSeedMean | src/routes/templates.ts:143-154 | a template is deleted by the route of its kind; seeding writes over whatever is there and keeps the cache |
| TemplateCache.RenderMeans | src/engine/registry.ts:155-185 | a render delivers the readable document of a template in a table of valid rows |
| TemplateCache.RenderedFrom | src/engine/registry.ts:138-185 | whoever writes templates, a render replies as reading the table did less than 30 s before, and since then the table changed only by seeding |
| TemplateCache.CachedRenderingIsFresh | src/engine/registry.ts:138-185 | in every run, 30 s after the last seeding every reply is that of a service without a cache; so always, when all template writes invalidate |
| TemplateCache.SeedWriteIsSeen | src/routes/admin.ts:137-161 | a template seeded after a render, new or not, is seen by the next render exactly when 30 s have passed or the documents agree |
| LegacyCleanup.Database.CleanupLegacyTemplates | src/db/seed.ts:127-143 | the loop of statements equals one simultaneous renaming |
| LegacyCleanup.ShippedPairsAreApart | src/db/seed.ts:113-120 | the shipped legacy ids are distinct and none is a current id |
| LegacyCleanup.ShippedPairs | src/db/seed.ts:113-120 | for each role the path-style and the dash-style id map to the id of today |
| LegacyCleanup.OrderDoesNotMatter | src/db/seed.ts:128-142 | the result does not depend on the order of the pairs |
| LegacyCleanup.CleanupIsIdempotent | src/db/seed.ts:122-126 | a second cleanup changes nothing |
| LegacyCleanup.CleanupKeepsReferences | src/db/seed.ts:122-143 | no reference to a replaced legacy id is left and every reference that resolved still does |

## Left out

- Routing, request schemas, status bodies, CORS, logging, audit and the CRUD routes of nodes and users: wiring.
- SQL engine, migrations, `d1-sqlite.ts`, secrets and set-up scripts: their guarantees come from elsewhere.
- Eventual consistency of Cloudflare KV and interleaving inside a handler: the port and tag invariants do not survive racing uploads.
- Names on `Object.prototype` as tokens or property names, `__proto__`, and integer-like keys of JavaScript objects.
- Interpolator.LookupPath: half of a character beyond U+FFFF, taken out of a string by its index, is U+FFFD here.
- Error message texts; the unknown-parameter error keeps only the path, a port conflict only the fact.
- YAML beyond the reader of `Yaml`: flow collections, quoted keys, control characters.
- `loadConfigsFromKv` and `rerender`: a listing filter with a timed copy, and a loop of independent updates.
- `serverConfig` of delivered configs, the simple merge without a template, and `renderProtocolInstance` beyond its two calls.
- More than one isolate: the template cache and the write throttle are those of one process.
- TagInvariant.CheckedTagsStayUnique: requires of each check that its tag is trimmed or has nowhere that spelling, because other checks can write the spelling into a column or the index (`TagInvariant.CheckKeepsExactly`, `TagInvariant.UntrimmedCheckBreaks`); requires of each upload that its listing hides no sibling with its port and no claim to release, as complete listings do (`TagInvariant.CompleteListingIsHarmless`).
- TagInvariant.ClientRunsKeep: has no tag-check steps, because a backfilled claim breaks it (`TagInvariant.HealedClaim`).
- KvPaging.FollowEnumerates: the store and the clock stand still between pages.
- ComposeRoundTrip.ComposeReadsBack: requires single-line values, colon-free keys that YAML reads as strings, services that are maps, and at most one level of scalar list or map per key; other values are printed as `[object Object]` or joined text and cannot be read back.
- Jwt.VerifyAfterSign: says nothing about forging a MAC, which is a property of HMAC.
