// apps/signal/src/revocation.ts and validateSession in apps/signal/src/index.ts.
// Times are milliseconds; a token's iat and exp are seconds (sections 4.1.6 and 4.1.4 of RFC 7519).
module Revocation {
  import opened Common

  const REVOCATION_TTL_SECONDS: int := 20 * 60
  const SESSION_REVALIDATION_TTL_MS: int := 10000
  const SESSION_FALLBACK_MAX_AGE_MS: int := 15000

  datatype Cutoff = Cutoff(cutoffMs: int, expiresAt: int)

  /** The verified claims of a handshake token; `sub` is None when it is not a string, `iat` 0 when omitted. */
  datatype Token = Token(sub: Option<string>, iat: int, exp: int)

  datatype Cached = Cached(validatedAt: int, userId: string, iat: int)

  /**
   * `shared` selects the Redis-backed store. `tokens` holds the handshake token of every socket that brought
   * one, which outlives the connection for handlers still under way; `live` are the connected sockets.
   */
  datatype State = State(
    shared: bool, clock: int, entries: map<string, Cutoff>,
    cache: map<string, Cached>, tokens: map<string, Token>, live: set<string>)

  /** The stored cutoff, unless its time to live is over: Redis drops it then, the in-memory store a moment later. */
  function LiveCutoff(shared: bool, entries: map<string, Cutoff>, userId: string, now: int): Option<int> {
    if userId !in entries then None
    else if (if shared then now < entries[userId].expiresAt else now <= entries[userId].expiresAt)
    then Some(entries[userId].cutoffMs)
    else None
  }

  predicate Predates(iat: int, cutoff: Option<int>) {
    cutoff.Some? && iat * 1000 < cutoff.value
  }

  function WithRevocation(entries: map<string, Cutoff>, userId: string, now: int): map<string, Cutoff> {
    entries[userId := Cutoff(now, now + REVOCATION_TTL_SECONDS * 1000)]
  }

  /** In memory, a check deletes an entry it finds expired. */
  function AfterCheck(shared: bool, entries: map<string, Cutoff>, userId: string, now: int): map<string, Cutoff> {
    if !shared && userId in entries && now > entries[userId].expiresAt then entries - {userId} else entries
  }

  function Pruned(entries: map<string, Cutoff>, now: int): map<string, Cutoff> {
    map u | u in entries && now <= entries[u].expiresAt :: entries[u]
  }

  class SessionRevocationStore {
    const shared: bool
    var entries: map<string, Cutoff>

    constructor (shared: bool)
      ensures this.shared == shared && entries == map[]
    {
      this.shared := shared;
      entries := map[];
    }

    /** `down` says that Redis could not be reached. */
    method Revoke(userId: string, now: int, down: bool) returns (persisted: bool)
      modifies this
      ensures persisted <==> !(shared && down)
      ensures entries == if persisted then WithRevocation(old(entries), userId, now) else old(entries)
    {
      if shared && down { return false; }
      entries := entries[userId := Cutoff(now, now + REVOCATION_TTL_SECONDS * 1000)];
      persisted := true;
    }

    /** None stands for a thrown store error. */
    method IsRevoked(userId: string, iat: int, now: int, down: bool) returns (revoked: Option<bool>)
      modifies this
      ensures revoked == if shared && down then None
          else Some(Predates(iat, LiveCutoff(shared, old(entries), userId, now)))
      ensures entries == AfterCheck(shared, old(entries), userId, now)
      ensures forall u :: u in old(entries) && u !in entries ==>
          !shared && u == userId && now > old(entries)[u].expiresAt
      ensures !shared && userId in entries ==> now <= entries[userId].expiresAt
    {
      var iatMs := iat * 1000;
      if shared {
        if down { return None; }
        var cutoff := LiveCutoff(true, entries, userId, now);
        return Some(cutoff.Some? && iatMs < cutoff.value);
      }
      if userId !in entries { return Some(false); }
      var entry := entries[userId];
      if now > entry.expiresAt {
        entries := entries - {userId};
        return Some(false);
      }
      revoked := Some(iatMs < entry.cutoffMs);
    }

    /** Walks the in-memory cutoffs; with Redis there are none. */
    method PruneExpired(now: int)
      modifies this
      ensures entries == if shared then old(entries) else Pruned(old(entries), now)
      ensures forall u :: u in entries <==> u in old(entries) && (shared || now <= old(entries)[u].expiresAt)
      ensures forall u :: u in entries ==> entries[u] == old(entries)[u]
    {
      if shared { return; }
      var rest := entries.Keys;
      while rest != {}
        invariant rest <= old(entries).Keys
        invariant forall u :: u in entries <==> u in old(entries) && (u in rest || now <= old(entries)[u].expiresAt)
        invariant forall u :: u in entries ==> entries[u] == old(entries)[u]
        decreases |rest|
      {
        var u :| u in rest;
        rest := rest - {u};
        if now > entries[u].expiresAt {
          entries := entries - {u};
        }
      }
    }
  }

  // ---- validateSession as one step -------------------------------------------

  /** Verifying the handshake token throws for a bad or expired token and for an unreachable key set alike. */
  datatype Verification = Verified | Threw

  predicate FreshCache(s: State, sid: string, maxAge: int) {
    sid in s.cache && s.clock - s.cache[sid].validatedAt < maxAge
  }

  /** isSessionRevoked: an unreachable store counts as revoked. */
  predicate CountsAsRevoked(s: State, userId: string, iat: int, down: bool) {
    (s.shared && down) || Predates(iat, LiveCutoff(s.shared, s.entries, userId, s.clock))
  }

  function Checked(s: State, userId: string): State {
    s.(entries := AfterCheck(s.shared, s.entries, userId, s.clock))
  }

  /** The cache entry goes and the socket is disconnected. */
  function Dropped(s: State, sid: string): State {
    s.(cache := s.cache - {sid}, live := s.live - {sid})
  }

  function Validate(s: State, sid: string, v: Verification, down: bool): (State, bool) {
    if sid !in s.tokens then (s, false)
    else if FreshCache(s, sid, SESSION_REVALIDATION_TTL_MS) then ByCache(s, sid, down)
    else if v.Verified? then ByToken(s, sid, s.tokens[sid], down)
    else if FreshCache(s, sid, SESSION_FALLBACK_MAX_AGE_MS) then ByCache(s, sid, down)
    else (Dropped(s, sid), false)
  }

  /** The branch of a verified token. */
  function ByToken(s: State, sid: string, token: Token, down: bool): (State, bool) {
    if token.sub.None? then (s.(cache := s.cache - {sid}), false)
    else if CountsAsRevoked(s, token.sub.value, token.iat, down) then (Dropped(Checked(s, token.sub.value), sid), false)
    else (Checked(s, token.sub.value).(cache := s.cache[sid := Cached(s.clock, token.sub.value, token.iat)]), true)
  }

  /** The two branches that trust the cached claims, after the revocation check. */
  function ByCache(s: State, sid: string, down: bool): (State, bool)
    requires sid in s.cache
  {
    var c := s.cache[sid];
    if CountsAsRevoked(s, c.userId, c.iat, down) then (Dropped(Checked(s, c.userId), sid), false)
    else (Checked(s, c.userId), true)
  }

  datatype Action =
    | Revoke(userId: string, down: bool)
    | Prune
    | Open(sid: string, token: Option<Token>)
    | Close(sid: string)
    | Check(sid: string, v: Verification, down: bool)

  /** Something happens at time `at`. */
  datatype Op = Op(at: int, action: Action)

  /** Time does not run backwards, tokens live at most `lifetime` seconds, and only an unexpired token verifies. */
  predicate Enabled(s: State, op: Op, lifetime: int) {
    && op.at >= s.clock
    && match op.action
       case Open(sid, token) =>
         sid !in s.live && sid !in s.tokens && (token.Some? ==> token.value.exp <= token.value.iat + lifetime)
       case Check(sid, v, _) => v.Verified? ==> sid in s.tokens && op.at < s.tokens[sid].exp * 1000
       case _ => true
  }

  function Next(s0: State, op: Op): State {
    var s := s0.(clock := op.at);
    match op.action
    case Revoke(u, down) => if s.shared && down then s else s.(entries := WithRevocation(s.entries, u, s.clock))
    case Prune => if s.shared then s else s.(entries := Pruned(s.entries, s.clock))
    case Open(sid, token) =>
      s.(live := s.live + {sid}, tokens := if token.Some? then s.tokens[sid := token.value] else s.tokens)
    case Close(sid) => Dropped(s, sid)
    case Check(sid, v, down) => Validate(s, sid, v, down).0
  }

  /** What a session check answers. */
  predicate Admits(s: State, op: Op)
    requires op.action.Check?
  {
    Validate(s.(clock := op.at), op.action.sid, op.action.v, op.action.down).1
  }

  predicate CanRun(s: State, ops: seq<Op>, lifetime: int)
    decreases |ops|
  {
    ops == [] || (Enabled(s, ops[0], lifetime) && CanRun(Next(s, ops[0]), ops[1..], lifetime))
  }

  function Run(s: State, ops: seq<Op>, lifetime: int): State
    requires CanRun(s, ops, lifetime)
    decreases |ops|
  {
    if ops == [] then s else Run(Next(s, ops[0]), ops[1..], lifetime)
  }

  function Boot(shared: bool): State {
    State(shared, 0, map[], map[], map[], {})
  }

  // ---- Safety ---------------------------------------------------------------

  /** The cache only repeats the claims of the socket's own token. */
  ghost predicate Inv(s: State, lifetime: int) {
    && (forall sid :: sid in s.tokens ==> s.tokens[sid].exp <= s.tokens[sid].iat + lifetime)
    && (forall sid :: sid in s.cache ==>
          && sid in s.tokens && s.tokens[sid].sub == Some(s.cache[sid].userId) && s.tokens[sid].iat == s.cache[sid].iat
          && s.cache[sid].validatedAt <= s.clock)
  }

  /** A token of `u` minted before `T`. */
  predicate Old(token: Token, u: string, T: int) {
    token.sub == Some(u) && token.iat * 1000 < T
  }

  predicate HoldsOld(s: State, sid: string, u: string, T: int) {
    sid in s.tokens && Old(s.tokens[sid], u, T)
  }

  /** The revocation of `u` at `T` is in force: its cutoff is stored while it matters, no old token validated since. */
  ghost predicate Barred(s: State, u: string, T: int) {
    && s.clock >= T
    && (s.clock < T + REVOCATION_TTL_SECONDS * 1000 ==>
          u in s.entries && s.entries[u].cutoffMs >= T && s.entries[u].expiresAt >= T + REVOCATION_TTL_SECONDS * 1000)
    && (forall sid :: sid in s.cache && HoldsOld(s, sid, u, T) ==> s.cache[sid].validatedAt <= T)
  }

  lemma ByCacheKeepsInv(s: State, sid: string, down: bool, lifetime: int)
    requires Inv(s, lifetime) && sid in s.cache
    ensures Inv(ByCache(s, sid, down).0, lifetime)
  {
  }

  lemma DroppedKeepsInv(s: State, u: string, sid: string, lifetime: int)
    requires Inv(s, lifetime)
    ensures Inv(Dropped(s, sid), lifetime) && Inv(Dropped(Checked(s, u), sid), lifetime)
  {
  }

  lemma ByTokenKeepsInv(s: State, sid: string, down: bool, lifetime: int)
    requires Inv(s, lifetime) && sid in s.tokens
    ensures Inv(ByToken(s, sid, s.tokens[sid], down).0, lifetime)
  {
    var token := s.tokens[sid];
    if token.sub.Some? {
      DroppedKeepsInv(s, token.sub.value, sid, lifetime);
    }
  }

  lemma ValidateKeepsInv(s: State, sid: string, v: Verification, down: bool, lifetime: int)
    requires Inv(s, lifetime)
    ensures Inv(Validate(s, sid, v, down).0, lifetime)
  {
    if sid in s.cache {
      ByCacheKeepsInv(s, sid, down, lifetime);
    }
    if sid in s.tokens {
      ByTokenKeepsInv(s, sid, down, lifetime);
    }
    DroppedKeepsInv(s, "", sid, lifetime);
  }

  lemma NextKeepsInv(s: State, op: Op, lifetime: int)
    requires Inv(s, lifetime) && Enabled(s, op, lifetime)
    ensures Inv(Next(s, op), lifetime)
  {
    if op.action.Check? {
      ValidateKeepsInv(s.(clock := op.at), op.action.sid, op.action.v, op.action.down, lifetime);
    }
  }

  lemma {:induction false} RunKeepsInv(s: State, ops: seq<Op>, lifetime: int)
    requires Inv(s, lifetime) && CanRun(s, ops, lifetime)
    ensures Inv(Run(s, ops, lifetime), lifetime)
    decreases |ops|
  {
    if ops != [] {
      NextKeepsInv(s, ops[0], lifetime);
      RunKeepsInv(Next(s, ops[0]), ops[1..], lifetime);
    }
  }

  /** While the bar stands, no path admits an old token: not fresh, not the 10 s cache, not the 15 s fallback. */
  lemma BarredRefuses(s: State, op: Op, u: string, T: int, lifetime: int)
    requires Inv(s, lifetime) && Barred(s, u, T) && lifetime <= REVOCATION_TTL_SECONDS
    requires Enabled(s, op, lifetime) && op.action.Check? && HoldsOld(s, op.action.sid, u, T)
    ensures !Admits(s, op)
  {
  }

  lemma CheckedKeepsBar(s: State, userId: string, u: string, T: int)
    requires Barred(s, u, T)
    ensures Barred(Checked(s, userId), u, T)
  {
  }

  lemma DroppedKeepsBar(s: State, sid: string, u: string, T: int)
    requires Barred(s, u, T)
    ensures Barred(Dropped(s, sid), u, T) && Barred(s.(cache := s.cache - {sid}), u, T)
  {
  }

  lemma CachedKeepsBar(s: State, sid: string, c: Cached, u: string, T: int)
    requires Barred(s, u, T) && !HoldsOld(s, sid, u, T)
    ensures Barred(s.(cache := s.cache[sid := c]), u, T)
  {
  }

  lemma ByCacheKeepsBar(s: State, sid: string, down: bool, u: string, T: int)
    requires Barred(s, u, T) && sid in s.cache
    ensures Barred(ByCache(s, sid, down).0, u, T)
  {
    CheckedKeepsBar(s, s.cache[sid].userId, u, T);
    DroppedKeepsBar(Checked(s, s.cache[sid].userId), sid, u, T);
  }

  lemma ByTokenKeepsBar(s: State, sid: string, token: Token, down: bool, u: string, T: int)
    requires Barred(s, u, T)
    requires HoldsOld(s, sid, u, T) ==> !ByToken(s, sid, token, down).1
    ensures Barred(ByToken(s, sid, token, down).0, u, T)
  {
    DroppedKeepsBar(s, sid, u, T);
    if token.sub.Some? {
      var checked := Checked(s, token.sub.value);
      CheckedKeepsBar(s, token.sub.value, u, T);
      if CountsAsRevoked(s, token.sub.value, token.iat, down) {
        DroppedKeepsBar(checked, sid, u, T);
      } else {
        CachedKeepsBar(checked, sid, Cached(s.clock, token.sub.value, token.iat), u, T);
      }
    }
  }

  lemma ValidateKeepsBar(s: State, sid: string, v: Verification, down: bool, u: string, T: int)
    requires Barred(s, u, T)
    requires HoldsOld(s, sid, u, T) ==> !Validate(s, sid, v, down).1
    ensures Barred(Validate(s, sid, v, down).0, u, T)
  {
    DroppedKeepsBar(s, sid, u, T);
    if sid in s.cache {
      ByCacheKeepsBar(s, sid, down, u, T);
    }
    if sid in s.tokens && v.Verified? && !FreshCache(s, sid, SESSION_REVALIDATION_TTL_MS) {
      ByTokenKeepsBar(s, sid, s.tokens[sid], down, u, T);
    }
  }

  lemma NextKeepsBar(s: State, op: Op, u: string, T: int, lifetime: int)
    requires Inv(s, lifetime) && Barred(s, u, T) && lifetime <= REVOCATION_TTL_SECONDS && Enabled(s, op, lifetime)
    ensures Barred(Next(s, op), u, T)
  {
    if op.action.Check? {
      if HoldsOld(s, op.action.sid, u, T) {
        BarredRefuses(s, op, u, T, lifetime);
      }
      ValidateKeepsBar(s.(clock := op.at), op.action.sid, op.action.v, op.action.down, u, T);
    }
  }

  lemma {:induction false} RunKeepsBar(s: State, ops: seq<Op>, u: string, T: int, lifetime: int)
    requires Inv(s, lifetime) && Barred(s, u, T) && lifetime <= REVOCATION_TTL_SECONDS && CanRun(s, ops, lifetime)
    ensures Barred(Run(s, ops, lifetime), u, T)
    decreases |ops|
  {
    if ops != [] {
      NextKeepsInv(s, ops[0], lifetime);
      NextKeepsBar(s, ops[0], u, T, lifetime);
      RunKeepsBar(Next(s, ops[0]), ops[1..], u, T, lifetime);
    }
  }

  /**
   * After a successful revocation of `u` at time T no later session check, by any path, admits a token
   * of `u` minted before T. It needs tokens to live no longer than a cutoff is kept.
   */
  lemma RevokedForGood(shared: bool, before: seq<Op>, T: int, u: string, after: seq<Op>, check: Op, lifetime: int)
    requires lifetime <= REVOCATION_TTL_SECONDS && CanRun(Boot(shared), before, lifetime)
    requires var s := Run(Boot(shared), before, lifetime); T >= s.clock
    requires var s := Next(Run(Boot(shared), before, lifetime), Op(T, Revoke(u, false)));
      && CanRun(s, after, lifetime)
      && var t := Run(s, after, lifetime);
         Enabled(t, check, lifetime) && check.action.Check? && HoldsOld(t, check.action.sid, u, T)
    ensures var s := Next(Run(Boot(shared), before, lifetime), Op(T, Revoke(u, false)));
      !Admits(Run(s, after, lifetime), check)
  {
    var s0 := Run(Boot(shared), before, lifetime);
    RunKeepsInv(Boot(shared), before, lifetime);
    NextKeepsInv(s0, Op(T, Revoke(u, false)), lifetime);
    var s := Next(s0, Op(T, Revoke(u, false)));
    RunKeepsInv(s, after, lifetime);
    RunKeepsBar(s, after, u, T, lifetime);
    BarredRefuses(Run(s, after, lifetime), check, u, T, lifetime);
  }

  ghost predicate Leaks(shared: bool, s: State, op: Op, lifetime: int) {
    && Enabled(s, op, lifetime) && op.action.Check? && Admits(s, op)
    && exists u, T :: HoldsOld(s, op.action.sid, u, T)
        && s == Next(Next(Boot(shared), Op(0, Open(op.action.sid, Some(s.tokens[op.action.sid])))),
                     Op(T, Revoke(u, false)))
  }

  /** The bound is exact: with tokens that outlive the cutoff, a revoked one is admitted again. */
  lemma LongerTokensLeak(shared: bool, lifetime: int)
    requires lifetime > REVOCATION_TTL_SECONDS
    ensures exists s, op :: Leaks(shared, s, op, lifetime)
  {
    var token := Token(Some("u"), 1, 1 + lifetime);
    var start := Next(Boot(shared), Op(0, Open("s", Some(token))));
    var s := Next(start, Op(1001, Revoke("u", false)));
    var op := Op(1002 + REVOCATION_TTL_SECONDS * 1000, Check("s", Verified, false));
    assert s.tokens["s"] == token;
    assert s.entries["u"] == Cutoff(1001, 1001 + REVOCATION_TTL_SECONDS * 1000);
    assert HoldsOld(s, "s", "u", 1001);
    assert s == Next(Next(Boot(shared), Op(0, Open("s", Some(token)))), Op(1001, Revoke("u", false)));
    assert Leaks(shared, s, op, lifetime);
  }

  // ---- Fresh tokens heal -----------------------------------------------------

  /** Every cutoff stored for `u` is at or before the token's issue time. */
  predicate NoLaterCutoff(s: State, u: string, iat: int) {
    u in s.entries ==> s.entries[u].cutoffMs <= iat * 1000
  }

  predicate RevokesOnlyBefore(ops: seq<Op>, u: string, iat: int) {
    forall i :: 0 <= i < |ops| && ops[i].action.Revoke? && ops[i].action.userId == u ==> ops[i].at <= iat * 1000
  }

  lemma NextKeepsNoLaterCutoff(s: State, op: Op, u: string, iat: int)
    requires NoLaterCutoff(s, u, iat) && (op.action.Revoke? && op.action.userId == u ==> op.at <= iat * 1000)
    ensures NoLaterCutoff(Next(s, op), u, iat)
  {
  }

  lemma {:induction false} RunKeepsNoLaterCutoff(s: State, ops: seq<Op>, u: string, iat: int, lifetime: int)
    requires CanRun(s, ops, lifetime) && NoLaterCutoff(s, u, iat) && RevokesOnlyBefore(ops, u, iat)
    ensures NoLaterCutoff(Run(s, ops, lifetime), u, iat)
    decreases |ops|
  {
    if ops != [] {
      NextKeepsNoLaterCutoff(s, ops[0], u, iat);
      RunKeepsNoLaterCutoff(Next(s, ops[0]), ops[1..], u, iat, lifetime);
    }
  }

  /**
   * While no revocation of its user came after its issue time, a token is only refused for lack of
   * verification: a check with the store in reach admits it exactly when it verifies or a validation of
   * the last 15 seconds is cached.
   */
  lemma FreshTokenAdmitted(shared: bool, ops: seq<Op>, check: Op, u: string, lifetime: int)
    requires CanRun(Boot(shared), ops, lifetime)
    requires var s := Run(Boot(shared), ops, lifetime);
      && Enabled(s, check, lifetime) && check.action.Check? && !check.action.down
      && check.action.sid in s.tokens && s.tokens[check.action.sid].sub == Some(u)
      && RevokesOnlyBefore(ops, u, s.tokens[check.action.sid].iat)
    ensures var s := Run(Boot(shared), ops, lifetime);
      Admits(s, check) <==> (
        || check.action.v.Verified?
        || FreshCache(s.(clock := check.at), check.action.sid, SESSION_FALLBACK_MAX_AGE_MS))
  {
    var s := Run(Boot(shared), ops, lifetime);
    RunKeepsInv(Boot(shared), ops, lifetime);
    RunKeepsNoLaterCutoff(Boot(shared), ops, u, s.tokens[check.action.sid].iat, lifetime);
  }

  /**
   * A token minted at `m`, at or after a revocation at T, falls under that cutoff exactly when it was
   * minted in the same second and T is not a whole second; from the next whole second on it never does.
   */
  lemma RefusedOnlyInTheSameSecond(m: int, T: int)
    requires 0 <= T <= m
    ensures Predates(m / 1000, Some(T)) <==> m / 1000 == T / 1000 && T % 1000 != 0
  {
  }

  // ---- validateSession itself --------------------------------------------------

  class SessionGate {
    const store: SessionRevocationStore
    var cache: map<string, Cached>
    var tokens: map<string, Token>
    var live: set<string>

    ghost function View(now: int): State
      reads this, store
    {
      State(store.shared, now, store.entries, cache, tokens, live)
    }

    constructor (shared: bool)
      ensures fresh(store) && View(0) == Boot(shared)
    {
      store := new SessionRevocationStore(shared);
      cache, tokens, live := map[], map[], {};
    }

    /** Fails closed: a store that cannot be read counts as revoked. */
    method IsSessionRevoked(userId: string, iat: int, now: int, down: bool) returns (revoked: bool)
      modifies store
      ensures revoked == CountsAsRevoked(old(View(now)), userId, iat, down)
      ensures View(now) == Checked(old(View(now)), userId)
    {
      var answer := store.IsRevoked(userId, iat, now, down);
      revoked := answer.None? || answer.value;
    }

    method RejectRevokedSession(sid: string) returns (ok: bool)
      modifies this
      ensures !ok && cache == old(cache) - {sid} && live == old(live) - {sid} && tokens == old(tokens)
    {
      cache := cache - {sid};
      live := live - {sid};
      ok := false;
    }

    method ValidateSession(sid: string, now: int, v: Verification, down: bool) returns (ok: bool)
      modifies this, store
      ensures (View(now), ok) == Validate(old(View(now)), sid, v, down)
    {
      if sid !in tokens { return false; }
      if sid in cache && now - cache[sid].validatedAt < SESSION_REVALIDATION_TTL_MS {
        var revoked := IsSessionRevoked(cache[sid].userId, cache[sid].iat, now, down);
        if revoked {
          ok := RejectRevokedSession(sid);
          return;
        }
        return true;
      }
      match v
      case Verified =>
        var token := tokens[sid];
        if token.sub.None? {
          cache := cache - {sid};
          return false;
        }
        var revoked := IsSessionRevoked(token.sub.value, token.iat, now, down);
        if revoked {
          ok := RejectRevokedSession(sid);
          return;
        }
        cache := cache[sid := Cached(now, token.sub.value, token.iat)];
        return true;
      case Threw =>
        if sid in cache && now - cache[sid].validatedAt < SESSION_FALLBACK_MAX_AGE_MS {
          var revoked := IsSessionRevoked(cache[sid].userId, cache[sid].iat, now, down);
          if revoked {
            ok := RejectRevokedSession(sid);
            return;
          }
          return true;
        }
        ok := RejectRevokedSession(sid);
    }
  }
}
