/** Admin authentication with revocation markers (src/auth/middleware.ts, src/routes/auth.ts). */
module RevocationGate {
  import opened Wrappers
  import opened Jwt

  const ADMIN_TTL := 24 * 60 * 60
  const REVOCATION_MARKER_TTL := 24 * 60 * 60

  /** A row of the tokens table; its id is the token's `jti`. */
  datatype TokenRow = TokenRow(id: string, revoked: bool)

  /** The tokens table by hash, and the `revoke:` markers with their expiry in milliseconds. */
  datatype World = World(tokens: map<string, TokenRow>, markers: map<string, int>)

  datatype Verdict = InvalidToken | TokenRevoked | Accepted(payload: Payload)

  /** Which of the two stores answers during a request. */
  datatype Health = Health(d1: bool, kv: bool)

  predicate MarkerLive(w: World, hash: string, now: int) {
    hash in w.markers && now < w.markers[hash]
  }

  function AuthSpec(w: World, token: string, secret: string, now: int, up: Health, p: Platform): (World, Verdict) {
    var payload := VerifyJWT(token, secret, now, p);
    var hash := HashToken(token, p);
    if payload.None? then (w, InvalidToken)
    else if up.d1 then
      if hash in w.tokens && w.tokens[hash].revoked then
        (if up.kv then w.(markers := w.markers[hash := now + REVOCATION_MARKER_TTL * 1000]) else w, TokenRevoked)
      else (w, Accepted(payload.value))
    else if up.kv && MarkerLive(w, hash, now) then (w, TokenRevoked)
    else (w, Accepted(payload.value))
  }

  /**
   * Each verdict by its cause. With D1 only the token's row counts, without it only its marker; a revocation seen
   * with both stores up leaves a marker for 24 hours, and nothing else changes.
   */
  lemma AuthMeans(w: World, token: string, secret: string, now: int, up: Health, p: Platform, other: string)
    ensures var (after, verdict) := AuthSpec(w, token, secret, now, up, p);
            var payload, hash := VerifyJWT(token, secret, now, p), HashToken(token, p);
            var revoked := up.d1 && hash in w.tokens && w.tokens[hash].revoked;
            var marked := !up.d1 && up.kv && hash in w.markers && now < w.markers[hash];
            && (verdict == InvalidToken <==> payload == None)
            && (verdict == TokenRevoked <==> payload != None && (revoked || marked))
            && (payload != None && !revoked && !marked ==> verdict == Accepted(payload.value))
            && after.tokens == w.tokens
            && (payload != None && revoked && up.kv ==>
                  (hash in after.markers && after.markers[hash] == now + 24 * 60 * 60 * 1000))
            && (other != hash || payload == None || !revoked || !up.kv ==>
                  ((other in after.markers <==> other in w.markers)
                   && (other in w.markers ==> after.markers[other] == w.markers[other])))
  {
  }

  /** A logout marks exactly the rows of the accepted token's `jti`, and only when D1 takes the update. */
  lemma LogoutMeans(w: World, token: string, secret: string, now: int, up: Health, updates: bool, p: Platform, other: string)
    ensures var (after, reply) := LogoutSpec(w, token, secret, now, up, updates, p);
            var verdict := AuthSpec(w, token, secret, now, up, p).1;
            && (reply == Refused <==> !verdict.Accepted?) && (reply == Failure <==> verdict.Accepted? && !updates)
            && (reply == LoggedOut <==> verdict.Accepted? && updates)
            && after.tokens.Keys == w.tokens.Keys
            && (other in w.tokens ==>
                  (after.tokens[other] == if reply == LoggedOut && w.tokens[other].id == verdict.payload.jti
                                          then TokenRow(w.tokens[other].id, true) else w.tokens[other]))
  {
  }

  /** A token is recorded unrevoked, unless D1 is down or its hash or id is on record; the others are kept. */
  lemma RecordMeans(w: World, id: string, hash: string, d1: bool, other: string)
    ensures var (after, ok) := RecordSpec(w, id, hash, d1);
            && (ok <==> d1 && hash !in w.tokens && forall h | h in w.tokens :: w.tokens[h].id != id)
            && after.markers == w.markers && after.tokens.Keys == w.tokens.Keys + (if ok then {hash} else {})
            && (ok ==> after.tokens[hash] == TokenRow(id, false))
            && (other in w.tokens ==> after.tokens[other] == w.tokens[other])
  {
  }

  class AuthGate {
    var tokens: map<string, TokenRow>
    var markers: map<string, int>
    const secret: string
    const platform: Platform

    function Contents(): World
      reads this
    {
      World(tokens, markers)
    }

    constructor (secret: string, platform: Platform)
      ensures Contents() == World(map[], map[]) && this.secret == secret && this.platform == platform
    {
      this.secret, this.platform := secret, platform;
      tokens, markers := map[], map[];
    }

    method AdminAuth(token: string, now: int, up: Health) returns (verdict: Verdict)
      modifies this
      ensures (Contents(), verdict) == AuthSpec(old(Contents()), token, secret, now, up, platform)
    {
      var payload := VerifyJWT(token, secret, now, platform);
      if payload.None? { return InvalidToken; }
      var hash := HashToken(token, platform);
      var dbCheckFailed := false;
      if up.d1 {
        if hash in tokens && tokens[hash].revoked {
          if up.kv {
            markers := markers[hash := now + REVOCATION_MARKER_TTL * 1000];
          }
          return TokenRevoked;
        }
      } else {
        dbCheckFailed := true;
      }
      if dbCheckFailed && up.kv {
        if hash in markers && now < markers[hash] { return TokenRevoked; }
      }
      verdict := Accepted(payload.value);
    }

    /** Recording a fresh token; an id or hash already on record is refused by its unique column. */
    method Record(id: string, hash: string, d1: bool) returns (ok: bool)
      modifies this`tokens
      ensures (Contents(), ok) == RecordSpec(old(Contents()), id, hash, d1)
    {
      if !d1 || hash in tokens || exists h :: h in tokens && tokens[h].id == id { return false; }
      tokens := tokens[hash := TokenRow(id, false)];
      ok := true;
    }

    /** Logout marks the rows of the accepted token's `jti`; `updates` says whether D1 answers that second statement. */
    method Logout(token: string, now: int, up: Health, updates: bool) returns (reply: LogoutReply)
      modifies this
      ensures (Contents(), reply) == LogoutSpec(old(Contents()), token, secret, now, up, updates, platform)
    {
      var verdict := AdminAuth(token, now, up);
      if !verdict.Accepted? { return Refused; }
      if !updates { return Failure; }
      tokens := Revoked(tokens, verdict.payload.jti);
      reply := LoggedOut;
    }
  }

  datatype LogoutReply = Refused | Failure | LoggedOut

  function RecordSpec(w: World, id: string, hash: string, d1: bool): (World, bool) {
    if !d1 || hash in w.tokens || exists h :: h in w.tokens && w.tokens[h].id == id then (w, false)
    else (w.(tokens := w.tokens[hash := TokenRow(id, false)]), true)
  }

  /** `UPDATE tokens SET revoked = 1 WHERE id = ?` */
  function Revoked(tokens: map<string, TokenRow>, id: string): map<string, TokenRow> {
    map h | h in tokens :: if tokens[h].id == id then tokens[h].(revoked := true) else tokens[h]
  }

  function LogoutSpec(w: World, token: string, secret: string, now: int, up: Health, updates: bool, p: Platform)
    : (World, LogoutReply)
  {
    var (w', verdict) := AuthSpec(w, token, secret, now, up, p);
    if !verdict.Accepted? then (w', Refused)
    else if !updates then (w', Failure)
    else (w'.(tokens := Revoked(w'.tokens, verdict.payload.jti)), LoggedOut)
  }

  // ---- Runs ----------------------------------------------------------------

  /** Requests, logouts, and recordings of fresh tokens; a refresh is a logout followed by a recording. */
  datatype Step =
    | Request(token: string, now: int, up: Health)
    | LogOut(token: string, now: int, up: Health, updates: bool)
    | Login(id: string, hash: string, now: int, d1: bool)

  function Next(w: World, step: Step, secret: string, p: Platform): World {
    match step
    case Request(token, now, up) => AuthSpec(w, token, secret, now, up, p).0
    case LogOut(token, now, up, updates) => LogoutSpec(w, token, secret, now, up, updates, p).0
    case Login(id, hash, _, d1) => RecordSpec(w, id, hash, d1).0
  }

  function Run(w: World, steps: seq<Step>, secret: string, p: Platform): World {
    if steps == [] then w else Next(Run(w, steps[..|steps| - 1], secret, p), steps[|steps| - 1], secret, p)
  }

  ghost predicate NotBefore(steps: seq<Step>, start: int) {
    forall i | 0 <= i < |steps| :: start <= steps[i].now
  }

  predicate RevokedRow(w: World, hash: string) {
    hash in w.tokens && w.tokens[hash].revoked
  }

  /** The token is on record as revoked and its marker lasts until at least `until`. */
  ghost predicate Held(w: World, hash: string, until: int) {
    RevokedRow(w, hash) && hash in w.markers && until <= w.markers[hash]
  }

  lemma {:induction false} RunHolds(w: World, steps: seq<Step>, secret: string, p: Platform, hash: string, observed: int)
    requires Held(w, hash, observed + REVOCATION_MARKER_TTL * 1000) && NotBefore(steps, observed)
    ensures Held(Run(w, steps, secret, p), hash, observed + REVOCATION_MARKER_TTL * 1000)
    decreases |steps|
  {
    if steps != [] {
      var n := |steps| - 1;
      RunHolds(w, steps[..n], secret, p, hash, observed);
      StepHolds(Run(w, steps[..n], secret, p), steps[n], secret, p, hash, observed);
    }
  }

  lemma AuthHolds(w: World, token: string, secret: string, now: int, up: Health, p: Platform, hash: string, observed: int)
    requires Held(w, hash, observed + REVOCATION_MARKER_TTL * 1000) && observed <= now
    ensures Held(AuthSpec(w, token, secret, now, up, p).0, hash, observed + REVOCATION_MARKER_TTL * 1000)
  {
  }

  lemma StepHolds(w: World, step: Step, secret: string, p: Platform, hash: string, observed: int)
    requires Held(w, hash, observed + REVOCATION_MARKER_TTL * 1000) && observed <= step.now
    ensures Held(Next(w, step, secret, p), hash, observed + REVOCATION_MARKER_TTL * 1000)
  {
    match step {
      case Request(token, now, up) => AuthHolds(w, token, secret, now, up, p, hash, observed);
      case LogOut(token, now, up, _) => AuthHolds(w, token, secret, now, up, p, hash, observed);
      case Login(_, _, _, _) =>
    }
  }

  /** The marker written at `observedMs` outlives the token issued at `issuedMs`. */
  ghost predicate MarkerCovers(issuedMs: int, observedMs: int) {
    forall now: int | Seconds(now) <= Seconds(issuedMs) + ADMIN_TTL :: now < observedMs + REVOCATION_MARKER_TTL * 1000
  }

  /** It does exactly when the revocation was observed in a later second than the issue. */
  lemma CoversFromTheNextSecond(issuedMs: int, observedMs: int)
    ensures MarkerCovers(issuedMs, observedMs) <==> Seconds(issuedMs) < Seconds(observedMs)
  {
    var last := (Seconds(issuedMs) + ADMIN_TTL) * 1000 + 999;
    assert Seconds(last) == Seconds(issuedMs) + ADMIN_TTL;
  }

  /** Whatever happens after the observation, the token is not accepted as long as one of the stores answers. */
  ghost predicate RejectedEver(seen: World, token: string, secret: string, observedMs: int, p: Platform) {
    forall steps: seq<Step>, now: int, up: Health | NotBefore(steps, observedMs) && observedMs <= now && (up.d1 || up.kv) ::
      !AuthSpec(Run(seen, steps, secret, p), token, secret, now, up, p).1.Accepted?
  }

  /**
   * A recorded 24 h admin token whose revocation was observed while both stores answered is rejected ever
   * after, through any outages of D1, exactly when the observation fell in a later second than the issue.
   */
  lemma RevokedStaysRejected(
      w: World, sub: string, kind: Kind, secret: string, jti: string, issuedMs: int, observedMs: int, p: Platform)
    requires Lawful(p) && issuedMs <= observedMs
    requires AuthSpec(w, SignJWT(sub, kind, ADMIN_TTL, secret, jti, issuedMs, p), secret, observedMs, Health(true, true), p).1
          == TokenRevoked
    ensures var token := SignJWT(sub, kind, ADMIN_TTL, secret, jti, issuedMs, p);
            var seen := AuthSpec(w, token, secret, observedMs, Health(true, true), p).0;
            RejectedEver(seen, token, secret, observedMs, p) <==> Seconds(issuedMs) < Seconds(observedMs)
  {
    var token := SignJWT(sub, kind, ADMIN_TTL, secret, jti, issuedMs, p);
    var seen := AuthSpec(w, token, secret, observedMs, Health(true, true), p).0;
    if Seconds(issuedMs) < Seconds(observedMs) {
      forall steps: seq<Step>, now: int, up: Health | NotBefore(steps, observedMs) && observedMs <= now && (up.d1 || up.kv)
        ensures !AuthSpec(Run(seen, steps, secret, p), token, secret, now, up, p).1.Accepted?
      {
        ObservedInTime(w, sub, kind, secret, jti, issuedMs, observedMs, steps, now, up, p);
      }
    } else {
      ObservedTooSoon(w, sub, kind, secret, jti, issuedMs, observedMs, p);
      assert Run(seen, [], secret, p) == seen && NotBefore([], observedMs);
    }
  }

  lemma ObservedInTime(
      w: World, sub: string, kind: Kind, secret: string, jti: string, issuedMs: int, observedMs: int,
      steps: seq<Step>, now: int, up: Health, p: Platform)
    requires Lawful(p) && Seconds(issuedMs) < Seconds(observedMs)
    requires observedMs <= now && NotBefore(steps, observedMs) && (up.d1 || up.kv)
    requires AuthSpec(w, SignJWT(sub, kind, ADMIN_TTL, secret, jti, issuedMs, p), secret, observedMs, Health(true, true), p).1
          == TokenRevoked
    ensures var token := SignJWT(sub, kind, ADMIN_TTL, secret, jti, issuedMs, p);
            var seen := AuthSpec(w, token, secret, observedMs, Health(true, true), p).0;
            !AuthSpec(Run(seen, steps, secret, p), token, secret, now, up, p).1.Accepted?
  {
    var token := SignJWT(sub, kind, ADMIN_TTL, secret, jti, issuedMs, p);
    var seen := AuthSpec(w, token, secret, observedMs, Health(true, true), p).0;
    RunHolds(seen, steps, secret, p, HashToken(token, p), observedMs);
    CoversFromTheNextSecond(issuedMs, observedMs);
    VerifyAfterSign(sub, kind, ADMIN_TTL, secret, jti, issuedMs, secret, now, p);
  }

  /** Observed within the second of issue, the token gets through in its last second when D1 is down. */
  lemma ObservedTooSoon(w: World, sub: string, kind: Kind, secret: string, jti: string, issuedMs: int, observedMs: int, p: Platform)
    requires Lawful(p) && issuedMs <= observedMs && Seconds(issuedMs) == Seconds(observedMs)
    requires AuthSpec(w, SignJWT(sub, kind, ADMIN_TTL, secret, jti, issuedMs, p), secret, observedMs, Health(true, true), p).1
          == TokenRevoked
    ensures var token := SignJWT(sub, kind, ADMIN_TTL, secret, jti, issuedMs, p);
            var seen := AuthSpec(w, token, secret, observedMs, Health(true, true), p).0;
            AuthSpec(seen, token, secret, observedMs + REVOCATION_MARKER_TTL * 1000, Health(false, true), p).1.Accepted?
  {
    var now := observedMs + REVOCATION_MARKER_TTL * 1000;
    assert Seconds(now) == Seconds(observedMs) + REVOCATION_MARKER_TTL;
    VerifyAfterSign(sub, kind, ADMIN_TTL, secret, jti, issuedMs, secret, now, p);
  }

  /** It can happen: issued at 0, revoked and observed 999 ms later, accepted a day after the observation. */
  lemma ObservedTooSoonExample(secret: string, p: Platform)
    requires Lawful(p)
    ensures var token := SignJWT("admin", Admin, ADMIN_TTL, secret, "id", 0, p);
            var w := World(map[HashToken(token, p) := TokenRow("id", true)], map[]);
            var (seen, verdict) := AuthSpec(w, token, secret, 999, Health(true, true), p);
            verdict == TokenRevoked && AuthSpec(seen, token, secret, 86400999, Health(false, true), p).1.Accepted?
  {
    var token := SignJWT("admin", Admin, ADMIN_TTL, secret, "id", 0, p);
    var w := World(map[HashToken(token, p) := TokenRow("id", true)], map[]);
    VerifyAfterSign("admin", Admin, ADMIN_TTL, secret, "id", 0, secret, 999, p);
    ObservedTooSoon(w, "admin", Admin, secret, "id", 0, 999, p);
  }

  // ---- Logging out -----------------------------------------------------------

  lemma {:induction false} RowStaysRevoked(w: World, steps: seq<Step>, secret: string, p: Platform, hash: string)
    requires RevokedRow(w, hash)
    ensures RevokedRow(Run(w, steps, secret, p), hash)
    decreases |steps|
  {
    if steps != [] {
      var n := |steps| - 1;
      RowStaysRevoked(w, steps[..n], secret, p, hash);
      StepKeepsRevoked(Run(w, steps[..n], secret, p), steps[n], secret, p, hash);
    }
  }

  lemma StepKeepsRevoked(w: World, step: Step, secret: string, p: Platform, hash: string)
    requires RevokedRow(w, hash)
    ensures RevokedRow(Next(w, step, secret, p), hash)
  {
  }

  /** A recorded token that was logged out is never accepted again while D1 answers, and its revocation can be observed. */
  lemma LoggedOutIsRevoked(w: World, sub: string, kind: Kind, ttl: int, secret: string, jti: string, issuedMs: int,
                           now: int, up: Health, steps: seq<Step>, later: int, kv: bool, p: Platform)
    requires Lawful(p)
    requires var token := SignJWT(sub, kind, ttl, secret, jti, issuedMs, p);
      && HashToken(token, p) in w.tokens && w.tokens[HashToken(token, p)].id == jti
      && LogoutSpec(w, token, secret, now, up, true, p).1 == LoggedOut
    ensures var token := SignJWT(sub, kind, ttl, secret, jti, issuedMs, p);
            var out := Run(LogoutSpec(w, token, secret, now, up, true, p).0, steps, secret, p);
            AuthSpec(out, token, secret, later, Health(true, kv), p).1
            == if Seconds(later) <= Seconds(issuedMs) + ttl then TokenRevoked else InvalidToken
  {
    var token := SignJWT(sub, kind, ttl, secret, jti, issuedMs, p);
    VerifyAfterSign(sub, kind, ttl, secret, jti, issuedMs, secret, now, p);
    VerifyAfterSign(sub, kind, ttl, secret, jti, issuedMs, secret, later, p);
    RowStaysRevoked(LogoutSpec(w, token, secret, now, up, true, p).0, steps, secret, p, HashToken(token, p));
  }
}
