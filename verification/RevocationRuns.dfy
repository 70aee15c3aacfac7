// Which session checks succeed, told by what happened before: tokens brought, revocations, earlier validations.
module RevocationRuns {
  import opened Common
  import opened Revocation

  // ---- The state, told by the run ---------------------------------------------------

  /** The handshake token the socket brought. */
  function Brought(ops: seq<Op>, sid: string, was: Option<Token>): Option<Token>
    decreases |ops|
  {
    if ops == [] then was else Brought(ops[1..], sid, BroughtBy(ops[0], sid, was))
  }

  function BroughtBy(op: Op, sid: string, was: Option<Token>): Option<Token> {
    if op.action.Open? && op.action.sid == sid && op.action.token.Some? then op.action.token else was
  }

  /** The time of the last revocation of `u` that was stored. */
  function LastRevoked(ops: seq<Op>, shared: bool, u: string, was: Option<int>): Option<int>
    decreases |ops|
  {
    if ops == [] then was else LastRevoked(ops[1..], shared, u, RevokedBy(ops[0], shared, u, was))
  }

  function RevokedBy(op: Op, shared: bool, u: string, was: Option<int>): Option<int> {
    if op.action.Revoke? && op.action.userId == u && !(shared && op.action.down) then Some(op.at) else was
  }

  /** A revocation stands for 20 minutes; in memory, where expired means later than that, one millisecond more. */
  predicate Stands(shared: bool, revoked: Option<int>, now: int) {
    && revoked.Some?
    && (now < revoked.value + 20 * 60 * 1000 || (!shared && now == revoked.value + 20 * 60 * 1000))
  }

  ghost predicate CutoffsTell(s: State, u: string, revoked: Option<int>) {
    forall now :: now >= s.clock ==>
      LiveCutoff(s.shared, s.entries, u, now) == if Stands(s.shared, revoked, now) then revoked else None
  }

  lemma ValidateKeepsCutoffs(s: State, sid: string, v: Verification, down: bool, u: string, now: int)
    requires now >= s.clock
    ensures var t := Validate(s, sid, v, down).0;
      && LiveCutoff(t.shared, t.entries, u, now) == LiveCutoff(s.shared, s.entries, u, now)
      && t.shared == s.shared && t.clock == s.clock && t.tokens == s.tokens
  {
  }

  lemma NextCutoff(s: State, op: Op, u: string, revoked: Option<int>, now: int)
    requires s.clock <= op.at <= now
    requires LiveCutoff(s.shared, s.entries, u, now) == if Stands(s.shared, revoked, now) then revoked else None
    ensures var t, last := Next(s, op), RevokedBy(op, s.shared, u, revoked);
      LiveCutoff(t.shared, t.entries, u, now) == if Stands(s.shared, last, now) then last else None
  {
    if op.action.Check? {
      ValidateKeepsCutoffs(s.(clock := op.at), op.action.sid, op.action.v, op.action.down, u, now);
    }
  }

  lemma NextTells(s: State, op: Op, u: string, sid: string, revoked: Option<int>, lifetime: int)
    requires Enabled(s, op, lifetime) && CutoffsTell(s, u, revoked)
    ensures Next(s, op).shared == s.shared && Next(s, op).clock == op.at
    ensures CutoffsTell(Next(s, op), u, RevokedBy(op, s.shared, u, revoked))
    ensures Lookup(Next(s, op).tokens, sid) == BroughtBy(op, sid, Lookup(s.tokens, sid))
  {
    var t, last := Next(s, op), RevokedBy(op, s.shared, u, revoked);
    if op.action.Check? {
      ValidateKeepsCutoffs(s.(clock := op.at), op.action.sid, op.action.v, op.action.down, u, op.at);
    }
    forall now | now >= t.clock
      ensures LiveCutoff(t.shared, t.entries, u, now) == if Stands(t.shared, last, now) then last else None
    {
      assert LiveCutoff(s.shared, s.entries, u, now) == if Stands(s.shared, revoked, now) then revoked else None;
      NextCutoff(s, op, u, revoked, now);
    }
  }

  lemma {:induction false} RunTells(
      s: State, ops: seq<Op>, u: string, sid: string, revoked: Option<int>, lifetime: int)
    requires CanRun(s, ops, lifetime) && CutoffsTell(s, u, revoked)
    ensures var t := Run(s, ops, lifetime);
      && t.shared == s.shared && CutoffsTell(t, u, LastRevoked(ops, s.shared, u, revoked))
      && Lookup(t.tokens, sid) == Brought(ops, sid, Lookup(s.tokens, sid))
    decreases |ops|
  {
    if ops != [] {
      NextTells(s, ops[0], u, sid, revoked, lifetime);
      RunTells(Next(s, ops[0]), ops[1..], u, sid, RevokedBy(ops[0], s.shared, u, revoked), lifetime);
    }
  }

  // ---- Every cached validation was one -----------------------------------------------

  /** At time `at` the token of the socket was verified. */
  ghost predicate VerifiedAt(ops: seq<Op>, sid: string, at: int) {
    exists i :: 0 <= i < |ops| && ops[i].at == at
             && ops[i].action.Check? && ops[i].action.sid == sid && ops[i].action.v == Verified
  }

  ghost predicate CacheTells(s: State, ops: seq<Op>) {
    forall sid :: sid in s.cache ==> VerifiedAt(ops, sid, s.cache[sid].validatedAt)
  }

  lemma ValidateCaches(s: State, sid: string, v: Verification, down: bool, other: string)
    requires other in Validate(s, sid, v, down).0.cache
    ensures var t := Validate(s, sid, v, down).0;
      || (other in s.cache && t.cache[other] == s.cache[other])
      || (other == sid && v.Verified? && t.cache[other].validatedAt == s.clock)
  {
  }

  lemma NextCacheTells(s: State, ops: seq<Op>, op: Op)
    requires CacheTells(s, ops)
    ensures CacheTells(Next(s, op), ops + [op])
  {
    var t := Next(s, op);
    forall sid | sid in t.cache ensures VerifiedAt(ops + [op], sid, t.cache[sid].validatedAt) {
      assert (ops + [op])[|ops|] == op;
      if op.action.Check? {
        ValidateCaches(s.(clock := op.at), op.action.sid, op.action.v, op.action.down, sid);
      }
      if sid in s.cache && t.cache[sid] == s.cache[sid] {
        var i :| 0 <= i < |ops| && ops[i].at == s.cache[sid].validatedAt
              && ops[i].action.Check? && ops[i].action.sid == sid && ops[i].action.v == Verified;
        assert (ops + [op])[i] == ops[i];
      }
    }
  }

  lemma {:induction false} RunCacheTells(s: State, done: seq<Op>, ops: seq<Op>, lifetime: int)
    requires CanRun(s, ops, lifetime) && CacheTells(s, done)
    ensures CacheTells(Run(s, ops, lifetime), done + ops)
    decreases |ops|
  {
    if ops == [] {
      assert done + ops == done;
    } else {
      NextCacheTells(s, done, ops[0]);
      RunCacheTells(Next(s, ops[0]), done + [ops[0]], ops[1..], lifetime);
      assert done + [ops[0]] + ops[1..] == done + ops;
    }
  }

  // ---- Which checks succeed ---------------------------------------------------------

  /** Verified now, or a validation less than 15 seconds old is cached. */
  predicate Trusted(s: State, check: Op)
    requires check.action.Check?
  {
    || check.action.v.Verified?
    || (check.action.sid in s.cache && check.at - s.cache[check.action.sid].validatedAt < 15 * 1000)
  }

  /**
   * A check succeeds exactly when the socket brought a token with a subject, the store is in reach, no revocation
   * of the subject later than the token stands, and the token verifies or a recent validation is cached.
   */
  lemma AdmittedExactly(shared: bool, ops: seq<Op>, check: Op, lifetime: int)
    requires CanRun(Boot(shared), ops, lifetime)
    requires Enabled(Run(Boot(shared), ops, lifetime), check, lifetime) && check.action.Check?
    ensures var s, token := Run(Boot(shared), ops, lifetime), Brought(ops, check.action.sid, None);
      Admits(s, check) <==> (
        && token.Some? && token.value.sub.Some? && !(shared && check.action.down)
        && (var revoked := LastRevoked(ops, shared, token.value.sub.value, None);
            Stands(shared, revoked, check.at) ==> token.value.iat * 1000 >= revoked.value)
        && Trusted(s, check))
  {
    var s, sid := Run(Boot(shared), ops, lifetime), check.action.sid;
    RunKeepsInv(Boot(shared), ops, lifetime);
    assert Lookup(Boot(shared).tokens, sid) == None;
    RunTells(Boot(shared), ops, "", sid, None, lifetime);
    if sid in s.tokens && s.tokens[sid].sub.Some? {
      RunTells(Boot(shared), ops, s.tokens[sid].sub.value, sid, None, lifetime);
    }
  }

  /** Nobody is admitted whose token did not verify at most 15 seconds ago, however often it was checked since. */
  lemma AdmittedWasVerified(shared: bool, ops: seq<Op>, check: Op, lifetime: int)
    requires CanRun(Boot(shared), ops, lifetime)
    requires Enabled(Run(Boot(shared), ops, lifetime), check, lifetime) && check.action.Check?
    requires Admits(Run(Boot(shared), ops, lifetime), check)
    ensures exists at :: check.at - 15 * 1000 < at <= check.at && VerifiedAt(ops + [check], check.action.sid, at)
  {
    var s, sid := Run(Boot(shared), ops, lifetime), check.action.sid;
    RunKeepsInv(Boot(shared), ops, lifetime);
    RunCacheTells(Boot(shared), [], ops, lifetime);
    assert [] + ops == ops;
    NextCacheTells(s, ops, check);
    AdmittedExactly(shared, ops, check, lifetime);
    var all := ops + [check];
    assert all[|ops|] == check;
    if check.action.v.Verified? {
      assert VerifiedAt(all, sid, check.at);
    } else {
      assert Next(s, check).cache[sid] == s.cache[sid];
      assert VerifiedAt(all, sid, s.cache[sid].validatedAt);
    }
  }

  /** The check refuses the socket and disconnects it: not without a token, nor after verifying one with no subject. */
  predicate Disconnects(s: State, op: Op, sid: string) {
    && op.action.Check? && op.action.sid == sid && !Admits(s, op)
    && sid in s.tokens && (s.tokens[sid].sub.Some? || op.action.v.Threw?)
  }

  /** A socket is connected from its opening to its closing or to a check that disconnects it. */
  lemma LiveExactly(s: State, op: Op, sid: string, lifetime: int)
    requires Inv(s, lifetime) && Enabled(s, op, lifetime)
    ensures sid in Next(s, op).live <==>
        || (op.action.Open? && op.action.sid == sid)
        || (sid in s.live && op.action != Close(sid) && !Disconnects(s, op, sid))
  {
    if op.action.Check? {
      CheckDisconnects(s.(clock := op.at), op.action.sid, op.action.v, op.action.down, lifetime);
    }
  }

  lemma CheckDisconnects(s: State, sid: string, v: Verification, down: bool, lifetime: int)
    requires Inv(s, lifetime)
    ensures var (t, ok) := Validate(s, sid, v, down);
      t.live == if !ok && sid in s.tokens && (s.tokens[sid].sub.Some? || v.Threw?) then s.live - {sid} else s.live
  {
  }

  /** After a check its socket has a cached validation exactly if it was admitted; other sockets keep what they had. */
  lemma CachedExactly(s: State, check: Op, sid: string, lifetime: int)
    requires Inv(s, lifetime) && Enabled(s, check, lifetime) && check.action.Check?
    ensures sid == check.action.sid ==> (sid in Next(s, check).cache <==> Admits(s, check))
    ensures sid != check.action.sid ==> Lookup(Next(s, check).cache, sid) == Lookup(s.cache, sid)
  {
  }

  /** The in-memory store forgets expired revocations: all of them when pruned, the user's own when checked. */
  lemma ExpiredOnesGo(s: State, op: Op, u: string, lifetime: int)
    requires !s.shared && Inv(s, lifetime) && Enabled(s, op, lifetime) && u in Next(s, op).entries
    requires || op.action.Prune?
             || (op.action.Check? && Admits(s, op) && s.tokens[op.action.sid].sub == Some(u))
    ensures op.at <= Next(s, op).entries[u].expiresAt
  {
  }

  /** After a check at which the token itself was verified, a failing verification is bridged for 15 seconds. */
  lemma OutageIsBridged(s: State, check: Op, later: Op, lifetime: int)
    requires Inv(s, lifetime) && Enabled(s, check, lifetime) && check.action.Check? && check.action.v.Verified?
    requires check.action.sid in s.cache ==> check.at - s.cache[check.action.sid].validatedAt >= 10 * 1000
    requires Admits(s, check) && check.at <= later.at && later.action == Check(check.action.sid, Threw, false)
    ensures Admits(Next(s, check), later) <==> later.at < check.at + 15 * 1000
  {
  }

  /** For 10 seconds after a validation the token is not even looked at: whether it would verify makes no difference. */
  lemma FreshCacheDecides(s: State, sid: string, down: bool)
    requires sid in s.cache && s.clock - s.cache[sid].validatedAt < 10 * 1000
    ensures Validate(s, sid, Verified, down) == Validate(s, sid, Threw, down)
    ensures !Validate(s, sid, Verified, down).1 || Validate(s, sid, Verified, down).0.cache == s.cache
  {
  }
}
