// apps/web/lib/olm-protocol-store.ts: single-flight creation of the wrap key and the account, for
// any interleaving of callers in one tab, for one user, without a reset.
// Code between two awaits is one step; a promise is a numbered flight.
module OlmSingleFlight {
  import opened Common

  type Key = nat

  /** A pickle and the key it was wrapped under. */
  datatype Wrapped = Wrapped(pickle: nat, key: Key)

  /** A wrap-key promise: reading the store, making a key, having made one, resolved inside, settled for its waiters. */
  datatype KeyFlight = Reading | Generating | Generated(key: Key) | Resolved(key: Key) | Settled(key: Key)

  /** Any operation that asked for the wrap key: saving plaintext, sessions, topping up, decrypting. */
  datatype Caller = AwaitsKey(flight: nat) | HasKey(key: Key) | HasAccount(key: Key)

  /** An ensureOlmIdentity promise. */
  datatype EnsureFlight =
    | EnsureAwaitsKey(flight: nat)
    | EnsureHasKey(key: Key)
    | Creating(key: Key)
    | Created(key: Key, pickle: nat)
    | EnsureResolved
    | EnsureSettled

  /**
   * The stored key, account and other pickles; the module variables `wrapKeyPromise` and the user's entry
   * of `ensureOlmIdentityPromises`; every promise and caller so far; the keys handed out and the identities created.
   */
  datatype State = State(
    storedKey: Option<Key>, account: Option<Wrapped>, pickles: map<string, Wrapped>,
    wrapKeyPromise: Option<nat>, ensurePromise: Option<nat>,
    flights: map<nat, KeyFlight>, identityFlights: map<nat, EnsureFlight>, callers: map<nat, Caller>,
    handedOut: set<Key>, identitiesCreated: nat)

  const FRESH := State(None, None, map[], None, None, map[], map[], map[], {}, 0)

  datatype Op =
    | CallForKey(caller: nat, flight: nat)
    | ReadKey(flight: nat) | Generate(flight: nat, key: Key) | PutKey(flight: nat) | Settle(flight: nat)
    | TakeKey(caller: nat) | PutPickle(caller: nat, name: string, pickle: nat)
    | LoadAccount(caller: nat) | SaveAccount(caller: nat, pickle: nat)
    | CallEnsure(ensure: nat, flight: nat)
    | EnsureTakesKey(ensure: nat) | EnsureLoads(ensure: nat) | CreateIdentity(ensure: nat, pickle: nat)
    | EnsureSaves(ensure: nat) | SettleEnsure(ensure: nat)

  /** The promise a caller of getOrCreateWrapKey awaits: the one in flight, else a new one. */
  function JoinOrStart(s: State, flight: nat): (State, nat) {
    if s.wrapKeyPromise.Some? then (s, s.wrapKeyPromise.value)
    else (s.(wrapKeyPromise := Some(flight), flights := s.flights[flight := Reading]), flight)
  }

  predicate IsSettled(s: State, flight: nat) {
    flight in s.flights && s.flights[flight].Settled?
  }

  predicate Enabled(s: State, op: Op) {
    match op
    case CallForKey(c, f) => c !in s.callers && f !in s.flights
    case ReadKey(f) => f in s.flights && s.flights[f].Reading?
    case Generate(f, _) => f in s.flights && s.flights[f].Generating?
    case PutKey(f) => f in s.flights && s.flights[f].Generated?
    case Settle(f) => f in s.flights && s.flights[f].Resolved?
    case TakeKey(c) => c in s.callers && s.callers[c].AwaitsKey? && IsSettled(s, s.callers[c].flight)
    case PutPickle(c, _, _) => c in s.callers && (s.callers[c].HasKey? || s.callers[c].HasAccount?)
    case LoadAccount(c) => c in s.callers && s.callers[c].HasKey?
    case SaveAccount(c, _) => c in s.callers && s.callers[c].HasAccount?
    case CallEnsure(e, f) => e !in s.identityFlights && f !in s.flights
    case EnsureTakesKey(e) =>
      && e in s.identityFlights && s.identityFlights[e].EnsureAwaitsKey?
      && IsSettled(s, s.identityFlights[e].flight)
    case EnsureLoads(e) => e in s.identityFlights && s.identityFlights[e].EnsureHasKey?
    case CreateIdentity(e, _) => e in s.identityFlights && s.identityFlights[e].Creating?
    case EnsureSaves(e) => e in s.identityFlights && s.identityFlights[e].Created?
    case SettleEnsure(e) => e in s.identityFlights && s.identityFlights[e].EnsureResolved?
  }

  function Next(s: State, op: Op): State
    requires Enabled(s, op)
  {
    match op
    case CallForKey(c, f) =>
      var (t, joined) := JoinOrStart(s, f);
      t.(callers := t.callers[c := AwaitsKey(joined)])
    case ReadKey(f) =>
      s.(flights := s.flights[f := if s.storedKey.Some? then Resolved(s.storedKey.value) else Generating])
    case Generate(f, key) => s.(flights := s.flights[f := Generated(key)])
    case PutKey(f) => s.(storedKey := Some(s.flights[f].key), flights := s.flights[f := Resolved(s.flights[f].key)])
    case Settle(f) => s.(wrapKeyPromise := None, flights := s.flights[f := Settled(s.flights[f].key)])
    case TakeKey(c) =>
      var key := s.flights[s.callers[c].flight].key;
      s.(callers := s.callers[c := HasKey(key)], handedOut := s.handedOut + {key})
    case PutPickle(c, name, pickle) => s.(pickles := s.pickles[name := Wrapped(pickle, s.callers[c].key)])
    case LoadAccount(c) =>
      if s.account.Some? then s.(callers := s.callers[c := HasAccount(s.callers[c].key)])
      else s.(callers := s.callers - {c})
    case SaveAccount(c, pickle) => s.(account := Some(Wrapped(pickle, s.callers[c].key)))
    case CallEnsure(e, f) =>
      if s.ensurePromise.Some? then s
      else
        var (t, joined) := JoinOrStart(s, f);
        t.(ensurePromise := Some(e), identityFlights := t.identityFlights[e := EnsureAwaitsKey(joined)])
    case EnsureTakesKey(e) =>
      var key := s.flights[s.identityFlights[e].flight].key;
      s.(identityFlights := s.identityFlights[e := EnsureHasKey(key)], handedOut := s.handedOut + {key})
    case EnsureLoads(e) =>
      var loaded := if s.account.Some? then EnsureResolved else Creating(s.identityFlights[e].key);
      s.(identityFlights := s.identityFlights[e := loaded])
    case CreateIdentity(e, pickle) =>
      s.(identityFlights := s.identityFlights[e := Created(s.identityFlights[e].key, pickle)],
         identitiesCreated := s.identitiesCreated + 1)
    case EnsureSaves(e) =>
      s.(account := Some(Wrapped(s.identityFlights[e].pickle, s.identityFlights[e].key)),
         identityFlights := s.identityFlights[e := EnsureResolved])
    case SettleEnsure(e) => s.(ensurePromise := None, identityFlights := s.identityFlights[e := EnsureSettled])
  }

  predicate CanRun(s: State, ops: seq<Op>)
    decreases |ops|
  {
    ops == [] || (Enabled(s, ops[0]) && CanRun(Next(s, ops[0]), ops[1..]))
  }

  function Run(s: State, ops: seq<Op>): State
    requires CanRun(s, ops)
    decreases |ops|
  {
    if ops == [] then s else Run(Next(s, ops[0]), ops[1..])
  }

  // ---- The invariant ---------------------------------------------------------------

  /** `key` is the stored key. */
  predicate IsStored(s: State, key: Key) {
    s.storedKey == Some(key)
  }

  /** Only the key promise in `wrapKeyPromise` is unsettled, and it makes a key only while none is stored. */
  ghost predicate FlightInv(s: State) {
    && (forall f :: f in s.flights && !s.flights[f].Settled? ==> s.wrapKeyPromise == Some(f))
    && (s.wrapKeyPromise.Some? ==> s.wrapKeyPromise.value in s.flights && !s.flights[s.wrapKeyPromise.value].Settled?)
    && (forall f :: f in s.flights && (s.flights[f].Generating? || s.flights[f].Generated?) ==> s.storedKey.None?)
    && (forall f :: f in s.flights && (s.flights[f].Resolved? || s.flights[f].Settled?) ==>
          IsStored(s, s.flights[f].key))
  }

  predicate Unfinished(e: EnsureFlight) {
    e.Creating? || e.Created?
  }

  /** Every key in anyone's hands, and every key a pickle is wrapped under, is the stored one. */
  ghost predicate KeyInv(s: State) {
    && (forall c :: c in s.callers && (s.callers[c].HasKey? || s.callers[c].HasAccount?) ==>
          IsStored(s, s.callers[c].key))
    && (forall e ::
          e in s.identityFlights && (s.identityFlights[e].EnsureHasKey? || Unfinished(s.identityFlights[e])) ==>
          IsStored(s, s.identityFlights[e].key))
    && (forall k :: k in s.handedOut ==> IsStored(s, k))
    && (forall n :: n in s.pickles ==> IsStored(s, s.pickles[n].key))
    && (s.account.Some? ==> IsStored(s, s.account.value.key))
  }

  /** One identity promise at a time, and it creates an identity only while there is no account. */
  ghost predicate AccountInv(s: State) {
    && (forall e :: e in s.identityFlights && !s.identityFlights[e].EnsureSettled? ==> s.ensurePromise == Some(e))
    && (s.ensurePromise.Some? ==> s.ensurePromise.value in s.identityFlights)
    && (forall c :: c in s.callers && s.callers[c].HasAccount? ==> s.account.Some?)
    && (forall e :: e in s.identityFlights && Unfinished(s.identityFlights[e]) ==> s.account.None?)
    && s.identitiesCreated == (if s.account.Some? then 1
         else if s.ensurePromise.Some? && s.identityFlights[s.ensurePromise.value].Created? then 1 else 0)
  }

  ghost predicate Inv(s: State) {
    FlightInv(s) && KeyInv(s) && AccountInv(s)
  }

  // ---- Proof that every step keeps it ------------------------------------------------

  lemma JoinKeepsFlight(s: State, flight: nat)
    requires FlightInv(s) && flight !in s.flights
    ensures FlightInv(JoinOrStart(s, flight).0)
  {
  }

  /** Steps of the key promises. */
  predicate KeyStep(op: Op) {
    op.ReadKey? || op.Generate? || op.PutKey? || op.Settle?
  }

  lemma KeyStepKeepsFlight(s: State, op: Op)
    requires FlightInv(s) && Enabled(s, op) && KeyStep(op)
    ensures FlightInv(Next(s, op))
  {
  }

  /** A key is stored only while there is none, so those handed out stay the stored one. */
  lemma KeyStepKeepsKeys(s: State, op: Op)
    requires FlightInv(s) && KeyInv(s) && Enabled(s, op) && KeyStep(op)
    ensures KeyInv(Next(s, op))
  {
    assert op.PutKey? ==> s.storedKey.None?;
  }

  lemma FlightKept(s: State, op: Op)
    requires FlightInv(s) && Enabled(s, op)
    ensures FlightInv(Next(s, op))
  {
    if KeyStep(op) {
      KeyStepKeepsFlight(s, op);
    } else if op.CallForKey? || op.CallEnsure? {
      JoinKeepsFlight(s, op.flight);
    }
  }

  /** A key taken from a settled promise is the stored one. */
  lemma TakenKeyIsStored(s: State, op: Op)
    requires FlightInv(s) && KeyInv(s) && Enabled(s, op) && (op.TakeKey? || op.EnsureTakesKey?)
    ensures KeyInv(Next(s, op))
  {
    var flight := if op.TakeKey? then s.callers[op.caller].flight else s.identityFlights[op.ensure].flight;
    assert IsStored(s, s.flights[flight].key);
  }

  lemma CallKeepsKeys(s: State, op: Op)
    requires KeyInv(s) && Enabled(s, op) && (op.CallForKey? || op.CallEnsure?)
    ensures KeyInv(Next(s, op))
  {
  }

  lemma WriteKeepsKeys(s: State, op: Op)
    requires KeyInv(s) && Enabled(s, op) && (op.PutPickle? || op.SaveAccount? || op.EnsureSaves?)
    ensures KeyInv(Next(s, op))
  {
  }

  lemma LoadKeepsKeys(s: State, op: Op)
    requires KeyInv(s) && Enabled(s, op)
    requires op.LoadAccount? || op.EnsureLoads? || op.CreateIdentity? || op.SettleEnsure?
    ensures KeyInv(Next(s, op))
  {
  }

  lemma KeysKept(s: State, op: Op)
    requires FlightInv(s) && KeyInv(s) && Enabled(s, op)
    ensures KeyInv(Next(s, op))
  {
    match op {
      case ReadKey(_) => KeyStepKeepsKeys(s, op);
      case Generate(_, _) => KeyStepKeepsKeys(s, op);
      case PutKey(_) => KeyStepKeepsKeys(s, op);
      case Settle(_) => KeyStepKeepsKeys(s, op);
      case TakeKey(_) => TakenKeyIsStored(s, op);
      case EnsureTakesKey(_) => TakenKeyIsStored(s, op);
      case CallForKey(_, _) => CallKeepsKeys(s, op);
      case CallEnsure(_, _) => CallKeepsKeys(s, op);
      case PutPickle(_, _, _) => WriteKeepsKeys(s, op);
      case SaveAccount(_, _) => WriteKeepsKeys(s, op);
      case EnsureSaves(_) => WriteKeepsKeys(s, op);
      case LoadAccount(_) => LoadKeepsKeys(s, op);
      case EnsureLoads(_) => LoadKeepsKeys(s, op);
      case CreateIdentity(_, _) => LoadKeepsKeys(s, op);
      case SettleEnsure(_) => LoadKeepsKeys(s, op);
    }
  }

  lemma CallerKeepsAccount(s: State, op: Op)
    requires AccountInv(s) && Enabled(s, op)
    requires op.CallForKey? || op.TakeKey? || op.PutPickle? || op.LoadAccount? || op.SaveAccount?
    ensures AccountInv(Next(s, op))
  {
  }

  lemma EnsureKeepsAccount(s: State, op: Op)
    requires AccountInv(s) && Enabled(s, op)
    requires op.CallEnsure? || op.EnsureTakesKey? || op.EnsureLoads?
    ensures AccountInv(Next(s, op))
  {
  }

  lemma IdentityKeepsAccount(s: State, op: Op)
    requires AccountInv(s) && Enabled(s, op) && (op.CreateIdentity? || op.EnsureSaves? || op.SettleEnsure?)
    ensures AccountInv(Next(s, op))
  {
  }

  lemma AccountKept(s: State, op: Op)
    requires AccountInv(s) && Enabled(s, op)
    ensures AccountInv(Next(s, op))
  {
    if op.CallEnsure? || op.EnsureTakesKey? || op.EnsureLoads? {
      EnsureKeepsAccount(s, op);
    } else if op.CreateIdentity? || op.EnsureSaves? || op.SettleEnsure? {
      IdentityKeepsAccount(s, op);
    } else if !KeyStep(op) {
      CallerKeepsAccount(s, op);
    }
  }

  lemma StoredStays(s: State, op: Op)
    requires FlightInv(s) && Enabled(s, op)
    ensures s.storedKey.Some? ==> Next(s, op).storedKey == s.storedKey
    ensures s.account.Some? ==> Next(s, op).account.Some?
  {
  }

  /** Every step of every caller, in any interleaving, keeps the invariant and never changes a stored key. */
  lemma NextKeeps(s: State, op: Op)
    requires Inv(s) && Enabled(s, op)
    ensures Inv(Next(s, op))
    ensures s.storedKey.Some? ==> Next(s, op).storedKey == s.storedKey
    ensures s.account.Some? ==> Next(s, op).account.Some?
  {
    FlightKept(s, op);
    KeysKept(s, op);
    AccountKept(s, op);
    StoredStays(s, op);
  }

  lemma {:induction false} RunKeeps(s: State, ops: seq<Op>)
    requires Inv(s) && CanRun(s, ops)
    ensures Inv(Run(s, ops))
    ensures s.storedKey.Some? ==> Run(s, ops).storedKey == s.storedKey
    decreases |ops|
  {
    if ops != [] {
      NextKeeps(s, ops[0]);
      RunKeeps(Next(s, ops[0]), ops[1..]);
    }
  }

  lemma {:induction false} RunSplits(s: State, before: seq<Op>, after: seq<Op>)
    requires CanRun(s, before + after)
    ensures CanRun(s, before) && CanRun(Run(s, before), after) && Run(s, before + after) == Run(Run(s, before), after)
    decreases |before|
  {
    if before == [] {
      assert before + after == after;
    } else {
      assert (before + after)[1..] == before[1..] + after;
      RunSplits(Next(s, before[0]), before[1..], after);
    }
  }

  /**
   * Single flight, for every interleaving of any number of callers: a stored wrap key never changes again, every
   * key handed to a caller is the stored one, every stored pickle is wrapped under it, and at most one identity
   * is ever created, exactly one once an account is stored.
   */
  lemma OneKeyOneIdentity(before: seq<Op>, after: seq<Op>)
    requires CanRun(FRESH, before + after)
    ensures CanRun(FRESH, before)
    ensures var s, t := Run(FRESH, before), Run(FRESH, before + after);
      && (s.storedKey.Some? ==> t.storedKey == s.storedKey)
      && (forall k :: k in t.handedOut ==> t.storedKey == Some(k))
      && (forall n :: n in t.pickles ==> t.storedKey == Some(t.pickles[n].key))
      && (t.account.Some? ==> t.storedKey == Some(t.account.value.key) && t.identitiesCreated == 1)
      && t.identitiesCreated <= 1
  {
    RunSplits(FRESH, before, after);
    RunKeeps(FRESH, before);
    RunKeeps(Run(FRESH, before), after);
  }

  // ---- Nobody gets stuck ----------------------------------------------------------------

  /** Whoever awaits a key promise awaits one that exists; an identity promise resolves only with an account. */
  ghost predicate WaitInv(s: State) {
    && (forall c :: c in s.callers && s.callers[c].AwaitsKey? ==> s.callers[c].flight in s.flights)
    && (forall e :: e in s.identityFlights && s.identityFlights[e].EnsureAwaitsKey? ==>
          s.identityFlights[e].flight in s.flights)
    && (forall e :: e in s.identityFlights && EnsureLeft(s.identityFlights[e]) <= 1 ==> s.account.Some?)
  }

  lemma {:induction false} RunKeepsWaits(s: State, ops: seq<Op>)
    requires Inv(s) && WaitInv(s) && CanRun(s, ops)
    ensures WaitInv(Run(s, ops))
    decreases |ops|
  {
    if ops != [] {
      NextKeeps(s, ops[0]);
      NextKeepsWaits(s, ops[0]);
      RunKeepsWaits(Next(s, ops[0]), ops[1..]);
    }
  }

  lemma NextKeepsWaits(s: State, op: Op)
    requires FlightInv(s) && WaitInv(s) && Enabled(s, op)
    ensures WaitInv(Next(s, op))
  {
    FlightsStay(s, op);
    if op.CallForKey? || op.CallEnsure? {
      CallKeepsWaits(s, op);
    }
  }

  lemma FlightsStay(s: State, op: Op)
    requires Enabled(s, op)
    ensures s.flights.Keys <= Next(s, op).flights.Keys
  {
  }

  lemma CallKeepsWaits(s: State, op: Op)
    requires FlightInv(s) && WaitInv(s) && Enabled(s, op) && (op.CallForKey? || op.CallEnsure?)
    ensures WaitInv(Next(s, op))
  {
    var joined := JoinOrStart(s, op.flight).1;
    assert joined in JoinOrStart(s, op.flight).0.flights;
  }

  /** How many steps a key promise has left. */
  function StepsLeft(flight: KeyFlight): nat {
    match flight
    case Reading => 4
    case Generating => 3
    case Generated(_) => 2
    case Resolved(_) => 1
    case Settled(_) => 0
  }

  function NextOfFlight(s: State, f: nat, key: Key): Op
    requires f in s.flights && !s.flights[f].Settled?
  {
    match s.flights[f]
    case Reading => ReadKey(f)
    case Generating => Generate(f, key)
    case Generated(_) => PutKey(f)
    case Resolved(_) => Settle(f)
  }

  lemma RunCons(s: State, op: Op, ops: seq<Op>)
    requires Enabled(s, op) && CanRun(Next(s, op), ops)
    ensures CanRun(s, [op] + ops) && Run(s, [op] + ops) == Run(Next(s, op), ops)
  {
    assert ([op] + ops)[1..] == ops;
  }

  /** A key promise comes to its end, and nobody else moves meanwhile. */
  lemma {:induction false} FlightSettles(s: State, f: nat, key: Key) returns (ops: seq<Op>)
    requires f in s.flights
    ensures CanRun(s, ops) && IsSettled(Run(s, ops), f)
    ensures var t := Run(s, ops);
      && t.callers == s.callers && t.identityFlights == s.identityFlights && t.ensurePromise == s.ensurePromise
      && t.account == s.account && t.pickles == s.pickles && t.identitiesCreated == s.identitiesCreated
    decreases StepsLeft(s.flights[f])
  {
    if s.flights[f].Settled? {
      ops := [];
    } else {
      var op := NextOfFlight(s, f, key);
      var rest := FlightSettles(Next(s, op), f, key);
      RunCons(s, op, rest);
      ops := [op] + rest;
    }
  }

  lemma {:induction false} RunAppend(s: State, before: seq<Op>, op: Op)
    requires CanRun(s, before) && Enabled(Run(s, before), op)
    ensures CanRun(s, before + [op]) && Run(s, before + [op]) == Next(Run(s, before), op)
    decreases |before|
  {
    if before == [] {
      assert before + [op] == [op] && [op][1..] == [];
    } else {
      assert (before + [op])[1..] == before[1..] + [op];
      RunAppend(Next(s, before[0]), before[1..], op);
    }
  }

  /**
   * From every state that can come up, a caller that awaits the wrap key gets it: the stored key, or the one made
   * for the flight it joined. What it then stores is kept under that key.
   */
  lemma CallerGetsKey(before: seq<Op>, c: nat, key: Key, name: string, pickle: nat) returns (ops: seq<Op>)
    requires CanRun(FRESH, before)
    requires c in Run(FRESH, before).callers && Run(FRESH, before).callers[c].AwaitsKey?
    ensures CanRun(Run(FRESH, before), ops)
    ensures var s, t := Run(FRESH, before), Run(Run(FRESH, before), ops);
      && t.storedKey.Some? && c in t.callers && t.callers[c] == HasKey(t.storedKey.value)
      && t.handedOut == {t.storedKey.value}
      && t.pickles == s.pickles[name := Wrapped(pickle, t.storedKey.value)]
  {
    RunKeeps(FRESH, before);
    RunKeepsWaits(FRESH, before);
    ops := CallerIsServed(Run(FRESH, before), c, key, name, pickle);
  }

  lemma CallerIsServed(s: State, c: nat, key: Key, name: string, pickle: nat) returns (ops: seq<Op>)
    requires Inv(s) && WaitInv(s) && c in s.callers && s.callers[c].AwaitsKey?
    ensures CanRun(s, ops)
    ensures var t := Run(s, ops);
      && t.storedKey.Some? && c in t.callers && t.callers[c] == HasKey(t.storedKey.value)
      && t.handedOut == {t.storedKey.value}
      && t.pickles == s.pickles[name := Wrapped(pickle, t.storedKey.value)]
  {
    var settle := FlightSettles(s, s.callers[c].flight, key);
    RunKeeps(s, settle);
    var mid := Run(s, settle);
    RunAppend(s, settle, TakeKey(c));
    NextKeeps(mid, TakeKey(c));
    var took := Next(mid, TakeKey(c));
    assert took.callers[c].key in took.handedOut;
    RunAppend(s, settle + [TakeKey(c)], PutPickle(c, name, pickle));
    ops := settle + [TakeKey(c)] + [PutPickle(c, name, pickle)];
  }

  /** How many steps an identity promise that holds the key has left. */
  function EnsureLeft(flight: EnsureFlight): nat {
    match flight
    case EnsureAwaitsKey(_) => 5
    case EnsureHasKey(_) => 4
    case Creating(_) => 3
    case Created(_, _) => 2
    case EnsureResolved => 1
    case EnsureSettled => 0
  }

  function NextOfEnsure(s: State, e: nat, pickle: nat): Op
    requires e in s.identityFlights && EnsureLeft(s.identityFlights[e]) in {1, 2, 3, 4}
  {
    match s.identityFlights[e]
    case EnsureHasKey(_) => EnsureLoads(e)
    case Creating(_) => CreateIdentity(e, pickle)
    case Created(_, _) => EnsureSaves(e)
    case EnsureResolved => SettleEnsure(e)
  }

  /** No account is there yet, and the promise has or will have this pickle for it. */
  predicate Intends(s: State, e: nat, pickle: nat) {
    && s.account.None? && e in s.identityFlights
    && (s.identityFlights[e].Created? ==> s.identityFlights[e].pickle == pickle)
  }

  lemma EnsureMoves(s: State, e: nat, pickle: nat)
    requires e in s.identityFlights && EnsureLeft(s.identityFlights[e]) in {1, 2, 3, 4}
    ensures var op := NextOfEnsure(s, e, pickle);
      && Enabled(s, op)
      && var t := Next(s, op);
         && e in t.identityFlights && EnsureLeft(t.identityFlights[e]) < EnsureLeft(s.identityFlights[e])
         && (t.identityFlights[e].EnsureSettled? ==> t.ensurePromise.None?)
         && t.handedOut == s.handedOut
         && (s.account.Some? && !s.identityFlights[e].Created? ==> t.account == s.account)
         && (Intends(s, e, pickle) && !s.identityFlights[e].EnsureResolved? ==>
               Intends(t, e, pickle) || (t.account.Some? && t.account.value.pickle == pickle))
  {
  }

  /** Every call is taken up: a new caller awaits the key, a new ensureOlmIdentity call too unless one is under way. */
  lemma CallsAreTakenUp(s: State, n: nat, flight: nat)
    requires FlightInv(s) && flight !in s.flights
    ensures n !in s.callers ==>
        var t := Next(s, CallForKey(n, flight));
        n in t.callers && t.callers[n].AwaitsKey? && t.callers[n].flight in t.flights
    ensures n !in s.identityFlights && s.ensurePromise.None? ==>
        n in Next(s, CallEnsure(n, flight)).identityFlights
    ensures n !in s.identityFlights && s.ensurePromise.Some? ==> Next(s, CallEnsure(n, flight)) == s
  {
  }

  /** A caller that holds the key saves the account it loaded, under the stored key; without one to load it is done. */
  lemma CallerSavesAccount(before: seq<Op>, c: nat, pickle: nat)
    requires CanRun(FRESH, before)
    requires c in Run(FRESH, before).callers && Run(FRESH, before).callers[c].HasKey?
    ensures var s := Run(FRESH, before);
      var t := Next(s, LoadAccount(c));
      && s.storedKey.Some? && t.account == s.account
      && (if s.account.None? then c !in t.callers
          else && Enabled(t, SaveAccount(c, pickle))
               && Next(t, SaveAccount(c, pickle)).account == Some(Wrapped(pickle, s.storedKey.value)))
  {
    RunKeeps(FRESH, before);
  }

  /** What is left of an identity promise that holds the key: load, and create and save if there was nothing. */
  lemma {:induction false} EnsureFinishes(s: State, e: nat, pickle: nat) returns (ops: seq<Op>)
    requires Inv(s) && WaitInv(s) && e in s.identityFlights && EnsureLeft(s.identityFlights[e]) in {1, 2, 3, 4}
    ensures CanRun(s, ops)
    ensures var t := Run(s, ops);
      && e in t.identityFlights && t.identityFlights[e].EnsureSettled? && t.ensurePromise.None?
      && Inv(t) && t.account.Some? && (s.account.Some? ==> t.account == s.account) && t.handedOut == s.handedOut
      && (Intends(s, e, pickle) ==> t.account.value.pickle == pickle)
    decreases EnsureLeft(s.identityFlights[e])
  {
    var op := NextOfEnsure(s, e, pickle);
    EnsureMoves(s, e, pickle);
    NextKeeps(s, op);
    NextKeepsWaits(s, op);
    var t, rest := Next(s, op), [];
    if !t.identityFlights[e].EnsureSettled? {
      rest := EnsureFinishes(t, e, pickle);
    }
    RunCons(s, op, rest);
    ops := [op] + rest;
  }

  /** An identity promise that awaits the key gets it. */
  lemma EnsureGetsKey(s: State, e: nat, key: Key) returns (ops: seq<Op>)
    requires Inv(s) && WaitInv(s) && e in s.identityFlights && s.identityFlights[e].EnsureAwaitsKey?
    ensures CanRun(s, ops)
    ensures var t := Run(s, ops);
      && Inv(t) && WaitInv(t) && e in t.identityFlights && t.identityFlights[e].EnsureHasKey? && t.account == s.account
      && t.handedOut != {}
  {
    var settle := FlightSettles(s, s.identityFlights[e].flight, key);
    RunAppend(s, settle, EnsureTakesKey(e));
    ops := settle + [EnsureTakesKey(e)];
    RunKeeps(s, ops);
    RunKeepsWaits(s, ops);
  }

  /** Either way to the end. */
  lemma EnsureEnds(s: State, e: nat, key: Key, pickle: nat) returns (ops: seq<Op>)
    requires Inv(s) && WaitInv(s) && e in s.identityFlights && !s.identityFlights[e].EnsureSettled?
    ensures CanRun(s, ops)
    ensures var t := Run(s, ops);
      && e in t.identityFlights && t.identityFlights[e].EnsureSettled? && t.ensurePromise.None?
      && Inv(t) && t.account.Some? && (s.account.Some? ==> t.account == s.account)
      && (Intends(s, e, pickle) ==> t.account.value.pickle == pickle)
      && (s.identityFlights[e].EnsureAwaitsKey? ==> t.handedOut != {})
  {
    if s.identityFlights[e].EnsureAwaitsKey? {
      var get := EnsureGetsKey(s, e, key);
      var rest := EnsureFinishes(Run(s, get), e, pickle);
      RunJoins(s, get, rest);
      ops := get + rest;
    } else {
      ops := EnsureFinishes(s, e, pickle);
    }
  }

  /**
   * From every state that can come up, an ensureOlmIdentity call under way comes to its end and leaves an account,
   * wrapped under the stored key, and exactly one identity created; an account that was there stays as it is.
   */
  lemma EnsureCompletes(before: seq<Op>, e: nat, key: Key, pickle: nat) returns (ops: seq<Op>)
    requires CanRun(FRESH, before)
    requires var s := Run(FRESH, before); e in s.identityFlights && !s.identityFlights[e].EnsureSettled?
    ensures CanRun(Run(FRESH, before), ops)
    ensures var s, t := Run(FRESH, before), Run(Run(FRESH, before), ops);
      && e in t.identityFlights && t.identityFlights[e].EnsureSettled? && t.ensurePromise.None?
      && t.storedKey.Some? && t.account.Some? && t.account.value.key == t.storedKey.value && t.identitiesCreated == 1
      && (s.account.Some? ==> t.account == s.account)
      && (s.account.None? && !s.identityFlights[e].Created? ==> t.account.value.pickle == pickle)
      && (s.identityFlights[e].EnsureAwaitsKey? ==> t.handedOut == {t.storedKey.value})
  {
    RunKeeps(FRESH, before);
    RunKeepsWaits(FRESH, before);
    ops := EnsureEnds(Run(FRESH, before), e, key, pickle);
    var t := Run(Run(FRESH, before), ops);
    if t.handedOut != {} {
      assert forall k :: k in t.handedOut ==> k == t.storedKey.value;
    }
  }

  lemma {:induction false} RunJoins(s: State, before: seq<Op>, after: seq<Op>)
    requires CanRun(s, before) && CanRun(Run(s, before), after)
    ensures CanRun(s, before + after) && Run(s, before + after) == Run(Run(s, before), after)
    decreases |before|
  {
    if before == [] {
      assert before + after == after;
    } else {
      assert (before + after)[1..] == before[1..] + after;
      RunJoins(Next(s, before[0]), before[1..], after);
    }
  }
}
