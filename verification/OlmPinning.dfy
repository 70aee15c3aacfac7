// apps/web/lib/olm-protocol-store.ts with decryptMessage of apps/web/lib/olm-protocol.ts: identity pinning.
// Olm is abstract: a session remembers the remote curve25519 key it was made with, and a ciphertext says
// who sent it, whether it continues the cached session, and whether it decrypts.
module OlmPinning {
  import opened Common

  datatype Identity = Identity(curve25519: string, ed25519: string)

  datatype Session = Session(remoteKey: string)

  datatype Ciphertext = Ciphertext(preKey: bool, sender: string, continues: bool, decrypts: bool)

  /** The stores, keyed by `userId:deviceId`. */
  datatype Stores = Stores(hasAccount: bool, pins: map<string, Identity>, sessions: map<string, Session>)

  function TargetKey(userId: string, deviceId: string): string {
    userId + ":" + deviceId
  }

  /** An absent key and an empty one are both falsy. */
  predicate Given(key: Option<string>) {
    key.Some? && key.value != ""
  }

  /** The cached session is used for this ciphertext. */
  predicate Reuses(session: Option<Session>, ct: Ciphertext, expected: Option<string>) {
    session.Some? && (!ct.preKey || (ct.continues && (Given(expected) ==> ct.sender == expected.value)))
  }

  /** decryptMessage: the session afterwards, None when it throws. */
  function DecryptMessage(session: Option<Session>, ct: Ciphertext, expected: Option<string>): Option<Session> {
    if Reuses(session, ct, expected) then (if ct.decrypts then session else None)
    else if !ct.preKey then None
    else if Given(expected) then
      (if ct.sender == expected.value && ct.decrypts then Some(Session(expected.value)) else None)
    else if ct.decrypts then Some(Session(ct.sender)) else None
  }

  datatype Op =
    | CreateAccount
    | EnsureOutbound(target: string, bundle: Identity, signatureOk: bool)
    | EncryptTo(target: string)
    | DecryptFrom(target: string, ct: Ciphertext, hint: Option<Identity>)

  function PinnedAfterCheck(s: Stores, target: string, identity: Identity): Stores {
    if target in s.pins then s else s.(pins := s.pins[target := identity])
  }

  function CurveOf(identity: Option<Identity>): Option<string> {
    if identity.None? then None else Some(identity.value.curve25519)
  }

  /** A pin always wins over the hint. */
  function Expected(s: Stores, target: string, hint: Option<Identity>): Option<Identity> {
    if target in s.pins then Some(s.pins[target]) else hint
  }

  /** The stores after an operation, and whether it returned normally. */
  function Next(s: Stores, op: Op): (Stores, bool) {
    match op
    case CreateAccount => (s.(hasAccount := true), true)
    case EnsureOutbound(target, bundle, signatureOk) =>
      if target in s.sessions then (s, true)
      else if !signatureOk then (s, false)
      else if target in s.pins && s.pins[target] != bundle then (s, false)
      else
        var t := PinnedAfterCheck(s, target, bundle);
        if !t.hasAccount then (t, false)
        else (t.(sessions := t.sessions[target := Session(bundle.curve25519)]), true)
    case EncryptTo(target) => (s, target in s.sessions)
    case DecryptFrom(target, ct, hint) =>
      var expected := Expected(s, target, hint);
      var session := DecryptMessage(Lookup(s.sessions, target), ct, CurveOf(expected));
      if !s.hasAccount || session.None? then (s, false)
      else
        (s.(sessions := s.sessions[target := session.value],
            pins := if expected.Some? then s.pins[target := expected.value] else s.pins), true)
  }

  function Run(s: Stores, ops: seq<Op>): Stores
    decreases |ops|
  {
    if ops == [] then s else Run(Next(s, ops[0]).0, ops[1..])
  }

  const EMPTY := Stores(false, map[], map[])

  /** Every stored session has a pin and was established under that pin's key. */
  ghost predicate SessionsArePinned(s: Stores) {
    forall t :: t in s.sessions ==> t in s.pins && s.sessions[t].remoteKey == s.pins[t].curve25519
  }

  /** Some identity vouches for the sender: a pin or a hint with a usable key, or a key that the sender has anyway. */
  predicate Vouched(s: Stores, op: Op) {
    op.DecryptFrom? ==>
      var expected := Expected(s, op.target, op.hint);
      expected.Some? && (expected.value.curve25519 != "" || op.ct.sender == ""
        || Reuses(Lookup(s.sessions, op.target), op.ct, CurveOf(expected)))
  }

  predicate AllVouched(s: Stores, ops: seq<Op>)
    decreases |ops|
  {
    ops == [] || ((Next(s, ops[0]).1 ==> Vouched(s, ops[0])) && AllVouched(Next(s, ops[0]).0, ops[1..]))
  }

  /** A successful operation keeps every session under its pin exactly when it was vouched for. */
  lemma NextKeepsPinnedExactly(s: Stores, op: Op)
    requires SessionsArePinned(s)
    ensures SessionsArePinned(Next(s, op).0) <==> (Next(s, op).1 ==> Vouched(s, op))
  {
  }

  /** No operation ever changes or drops a pin, vouched for or not. */
  lemma {:induction false} PinsNeverChange(s: Stores, ops: seq<Op>, target: string)
    requires target in s.pins
    ensures target in Run(s, ops).pins && Run(s, ops).pins[target] == s.pins[target]
    decreases |ops|
  {
    if ops != [] {
      PinsNeverChange(Next(s, ops[0]).0, ops[1..], target);
    }
  }

  /** Sessions are pinned after every operation of the run. */
  ghost predicate StaysPinned(s: Stores, ops: seq<Op>)
    decreases |ops|
  {
    SessionsArePinned(s) && (ops == [] || StaysPinned(Next(s, ops[0]).0, ops[1..]))
  }

  /** Sessions stay under their pins all along a run exactly when every decrypt that succeeds is vouched for. */
  lemma {:induction false} RunKeepsSessionsPinned(s: Stores, ops: seq<Op>)
    requires SessionsArePinned(s)
    ensures StaysPinned(s, ops) <==> AllVouched(s, ops)
    ensures AllVouched(s, ops) ==> SessionsArePinned(Run(s, ops))
    decreases |ops|
  {
    if ops != [] {
      NextKeepsPinnedExactly(s, ops[0]);
      if SessionsArePinned(Next(s, ops[0]).0) {
        RunKeepsSessionsPinned(Next(s, ops[0]).0, ops[1..]);
      }
    }
  }

  /** Every operation is vouched for when it is called, whether or not it succeeds. */
  predicate EveryVouched(s: Stores, ops: seq<Op>)
    decreases |ops|
  {
    ops == [] || (Vouched(s, ops[0]) && EveryVouched(Next(s, ops[0]).0, ops[1..]))
  }

  /** What a caller can check before each call is enough. */
  lemma {:induction false} VouchedCallsStayPinned(s: Stores, ops: seq<Op>)
    requires SessionsArePinned(s) && EveryVouched(s, ops)
    ensures AllVouched(s, ops) && StaysPinned(s, ops)
    decreases |ops|
  {
    if ops != [] {
      NextKeepsPinnedExactly(s, ops[0]);
      VouchedCallsStayPinned(Next(s, ops[0]).0, ops[1..]);
    }
  }

  /** A first contact by an account, without pin or hint: it decrypts, and its session stays without a pin. */
  lemma FirstContactIsUnpinned(target: string, sender: string)
    ensures var s := Run(EMPTY, [CreateAccount]);
      var op := DecryptFrom(target, Ciphertext(true, sender, false, true), None);
      && Next(s, op).1 && !Vouched(s, op)
      && Next(s, op).0.sessions == map[target := Session(sender)] && Next(s, op).0.pins == map[]
      && !SessionsArePinned(Next(s, op).0)
  {
    assert [CreateAccount][1..] == [];
    var t := EMPTY.(hasAccount := true);
    assert Run(EMPTY, [CreateAccount]) == t;
    assert target in Next(t, DecryptFrom(target, Ciphertext(true, sender, false, true), None)).0.sessions;
  }

  /** Once pinned with a usable key, a device can only be talked to, either way, under that key. */
  lemma PinnedDeviceKeepsItsKey(before: seq<Op>, op: Op, target: string)
    requires AllVouched(EMPTY, before)
    requires var s := Run(EMPTY, before);
      && target in s.pins && s.pins[target].curve25519 != ""
      && (op.EnsureOutbound? || op.DecryptFrom?) && op.target == target && Next(s, op).1
    ensures var s := Run(EMPTY, before);
      && Next(s, op).0.sessions[target].remoteKey == s.pins[target].curve25519
      && (op.DecryptFrom? && op.ct.preKey ==> op.ct.sender == s.pins[target].curve25519)
      && (op.EnsureOutbound? && target !in s.sessions ==> op.bundle == s.pins[target])
  {
    RunKeepsSessionsPinned(EMPTY, before);
    NextKeepsPinnedExactly(Run(EMPTY, before), op);
  }

  // ---- Where pins and sessions come from -----------------------------------------

  /** The contact pins `identity` for the device: a signed bundle of it, or a decrypt with it as the hint. */
  predicate CanPin(op: Op, target: string, identity: Identity) {
    || op == EnsureOutbound(target, identity, true)
    || (op.DecryptFrom? && op.target == target && op.hint == Some(identity))
  }

  /** The contact makes a session under that key: with a signed bundle, or from a pre-key message sent under it. */
  predicate CanMakeSession(op: Op, target: string, remoteKey: string) {
    || (op.EnsureOutbound? && op.target == target && op.signatureOk && op.bundle.curve25519 == remoteKey)
    || (op.DecryptFrom? && op.target == target && op.ct.preKey && op.ct.decrypts && op.ct.sender == remoteKey)
  }

  lemma NewPinComesFrom(s: Stores, op: Op, target: string)
    requires target !in s.pins && target in Next(s, op).0.pins
    ensures CanPin(op, target, Next(s, op).0.pins[target])
    ensures op.DecryptFrom? ==> Next(s, op).1
  {
  }

  lemma NewSessionComesFrom(s: Stores, op: Op, target: string)
    requires target in Next(s, op).0.sessions
    requires target !in s.sessions || s.sessions[target] != Next(s, op).0.sessions[target]
    ensures CanMakeSession(op, target, Next(s, op).0.sessions[target].remoteKey) && s.hasAccount && Next(s, op).1
    ensures op.EnsureOutbound? ==> target !in s.sessions && Next(s, op).0.pins[target] == op.bundle
  {
  }

  /** Some contact of the run pins that identity; some makes that session. */
  ghost predicate PinnedDuring(ops: seq<Op>, target: string, identity: Identity) {
    exists i :: 0 <= i < |ops| && CanPin(ops[i], target, identity)
  }

  ghost predicate MadeDuring(ops: seq<Op>, target: string, remoteKey: string) {
    exists i :: 0 <= i < |ops| && CanMakeSession(ops[i], target, remoteKey)
  }

  lemma {:induction false} ComesFromRun(s: Stores, ops: seq<Op>, target: string)
    ensures var t := Run(s, ops);
      && (target in t.pins && (target !in s.pins || s.pins[target] != t.pins[target]) ==>
            PinnedDuring(ops, target, t.pins[target]))
      && (target in t.sessions && (target !in s.sessions || s.sessions[target] != t.sessions[target]) ==>
            MadeDuring(ops, target, t.sessions[target].remoteKey))
    decreases |ops|
  {
    if ops != [] {
      var n, t := Next(s, ops[0]).0, Run(s, ops);
      ComesFromRun(n, ops[1..], target);
      assert forall i :: 0 <= i < |ops| - 1 ==> ops[1..][i] == ops[i + 1];
      if target in s.pins {
        PinsNeverChange(s, ops, target);
      } else if target in n.pins {
        NewPinComesFrom(s, ops[0], target);
        PinsNeverChange(n, ops[1..], target);
      }
      if target in n.sessions && (target !in s.sessions || s.sessions[target] != n.sessions[target]) {
        NewSessionComesFrom(s, ops[0], target);
      }
    }
  }

  /**
   * Every pin comes from a bundle whose signature was good or from a hint given to a decrypt, and every session
   * from such a bundle or from a pre-key message that its sender's key decrypts.
   */
  lemma EverythingStoredHasASource(ops: seq<Op>, target: string)
    ensures var s := Run(EMPTY, ops);
      && (target in s.pins ==> PinnedDuring(ops, target, s.pins[target]))
      && (target in s.sessions ==> MadeDuring(ops, target, s.sessions[target].remoteKey))
  {
    ComesFromRun(EMPTY, ops, target);
  }

  /** When an outbound contact succeeds, and that a refused one stores nothing. */
  lemma OutboundExactly(s: Stores, target: string, bundle: Identity, signatureOk: bool)
    ensures var trusted := signatureOk && (target in s.pins ==> s.pins[target] == bundle);
      var (t, ok) := Next(s, EnsureOutbound(target, bundle, signatureOk));
      && (ok <==> target in s.sessions || (trusted && s.hasAccount))
      && (target in s.sessions || !trusted ==> t == s)
      && (target !in s.sessions && trusted ==>
            && t.pins == s.pins[target := bundle] && t.hasAccount == s.hasAccount
            && t.sessions == if ok then s.sessions[target := Session(bundle.curve25519)] else s.sessions)
      && Next(s, EncryptTo(target)) == (s, target in s.sessions)
  {
  }

  /**
   * When a decrypt succeeds: a normal message needs a session, a pre-key message must come from the pinned key, or
   * from the hinted one when nothing is pinned. The session is kept if the message continues it.
   */
  lemma DecryptExactly(s: Stores, target: string, ct: Ciphertext, hint: Option<Identity>)
    ensures var key := if target in s.pins then s.pins[target].curve25519
                       else if hint.Some? then hint.value.curve25519 else "";
      var fromKey := key == "" || ct.sender == key;
      var (t, ok) := Next(s, DecryptFrom(target, ct, hint));
      && (ok <==> s.hasAccount && ct.decrypts && if ct.preKey then fromKey else target in s.sessions)
      && (!ok ==> t == s)
      && (ok ==>
            var kept := target in s.sessions && (!ct.preKey || ct.continues);
            && t.hasAccount
            && t.sessions == s.sessions[target := if kept then s.sessions[target] else Session(ct.sender)]
            && t.pins == if target !in s.pins && hint.Some? then s.pins[target := hint.value] else s.pins)
  {
  }

  // ---- The store itself ----------------------------------------------------------

  class OlmProtocolStore {
    var hasAccount: bool
    var pins: map<string, Identity>
    var sessions: map<string, Session>

    ghost function View(): Stores
      reads this
    {
      Stores(hasAccount, pins, sessions)
    }

    constructor ()
      ensures View() == EMPTY
    {
      hasAccount, pins, sessions := false, map[], map[];
    }

    /** False stands for the thrown OlmIdentityMismatchError. */
    method CheckAndPinIdentity(target: string, identity: Identity) returns (ok: bool)
      modifies this`pins
      ensures ok <==> target !in old(pins) || old(pins)[target] == identity
      ensures View() == PinnedAfterCheck(old(View()), target, identity)
    {
      if target !in pins {
        pins := pins[target := identity];
        return true;
      }
      ok := !(pins[target].curve25519 != identity.curve25519 || pins[target].ed25519 != identity.ed25519);
    }

    method EnsureOutboundSession(userId: string, deviceId: string, bundle: Identity, signatureOk: bool)
      returns (ok: bool)
      modifies this
      ensures (View(), ok) == Next(old(View()), EnsureOutbound(TargetKey(userId, deviceId), bundle, signatureOk))
    {
      var target := TargetKey(userId, deviceId);
      if target in sessions { return true; }
      if !signatureOk { return false; }
      var trusted := CheckAndPinIdentity(target, bundle);
      if !trusted { return false; }
      if !hasAccount { return false; }
      sessions := sessions[target := Session(bundle.curve25519)];
      ok := true;
    }

    /** decryptMessage: None stands for a throw. */
    method Decrypt(cached: Option<Session>, ct: Ciphertext, expected: Option<string>) returns (r: Option<Session>)
      ensures r == DecryptMessage(cached, ct, expected)
      decreases cached.Some?
    {
      var s: Session;
      if cached.Some? {
        s := cached.value;
        var matchesExisting := !ct.preKey
          || (if expected.Some? && expected.value != "" then ct.continues && ct.sender == expected.value
              else ct.continues);
        if !matchesExisting {
          r := Decrypt(None, ct, expected);
          return;
        }
      } else if !ct.preKey {
        return None;
      } else if expected.Some? && expected.value != "" {
        if ct.sender != expected.value { return None; }
        s := Session(expected.value);
      } else {
        s := Session(ct.sender);
      }
      r := if ct.decrypts then Some(s) else None;
    }

    method DecryptMessageFrom(userId: string, deviceId: string, ct: Ciphertext, hint: Option<Identity>)
      returns (ok: bool)
      modifies this
      ensures (View(), ok) == Next(old(View()), DecryptFrom(TargetKey(userId, deviceId), ct, hint))
    {
      var target := TargetKey(userId, deviceId);
      if !hasAccount { return false; }
      var pinned := Lookup(pins, target);
      var expected := if pinned.Some? then pinned else hint;
      var result := Decrypt(Lookup(sessions, target), ct, CurveOf(expected));
      if result.None? { return false; }
      sessions := sessions[target := result.value];
      if pinned.None? && expected.Some? {
        pins := pins[target := expected.value];
      }
      assert pinned.Some? ==> pins[target := pinned.value] == pins;
      ok := true;
    }
  }
}
