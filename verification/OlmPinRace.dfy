// apps/web/lib/olm-protocol-store.ts: first contacts that overlap. Reading the pin and writing it are two steps
// with an await between them, so two callers can both find none.
module OlmPinRace {
  import OlmPinning

  type Identity = OlmPinning.Identity

  /**
   * A contact with a device under an identity: the bundle's for an outbound session, the hint for a decrypt.
   * A decrypt takes the pin when there is one; an outbound contact must match it.
   */
  datatype Contact =
    | Started(target: string, identity: Identity, inbound: bool)
    | FoundNone(target: string, identity: Identity)
    | Ended

  /** The pins, the contacts so far, and under which identities contacts passed. */
  datatype State = State(pins: map<string, Identity>, contacts: map<nat, Contact>, passed: set<(string, Identity)>)

  const NOTHING_PINNED := State(map[], map[], {})

  datatype Op =
    | Begin(k: nat, target: string, identity: Identity, inbound: bool)
    | ReadPin(k: nat)
    | WritePin(k: nat)
    | Fail(k: nat)

  predicate Enabled(s: State, op: Op) {
    match op
    case Begin(k, _, _, _) => k !in s.contacts
    case ReadPin(k) => k in s.contacts && s.contacts[k].Started?
    case WritePin(k) => k in s.contacts && s.contacts[k].FoundNone?
    case Fail(k) => k in s.contacts
  }

  function Next(s: State, op: Op): State
    requires Enabled(s, op)
  {
    match op
    case Begin(k, target, identity, inbound) =>
      s.(contacts := s.contacts[k := Started(target, identity, inbound)])
    case ReadPin(k) =>
      var c := s.contacts[k];
      if c.target !in s.pins then s.(contacts := s.contacts[k := FoundNone(c.target, c.identity)])
      else if c.inbound || s.pins[c.target] == c.identity then
        s.(contacts := s.contacts[k := Ended], passed := s.passed + {(c.target, s.pins[c.target])})
      else s.(contacts := s.contacts[k := Ended])
    case WritePin(k) =>
      var c := s.contacts[k];
      State(s.pins[c.target := c.identity], s.contacts[k := Ended], s.passed + {(c.target, c.identity)})
    case Fail(k) => s.(contacts := s.contacts[k := Ended])
  }

  predicate CanRun(s: State, ops: seq<Op>)
    decreases |ops|
  {
    ops == [] || (Enabled(s, ops[0]) && CanRun(Next(s, ops[0]), ops[1..]))
  }

  function Run(s: State, ops: seq<Op>): State
    requires CanRun(s, ops)
    decreases |ops|
  {
    if ops == [] then s else Run(Next(s, ops[0]), ops[1..])
  }

  /** The read finds no pin while another contact with the device, under another identity, has found none either. */
  ghost predicate Overlaps(s: State, op: Op)
    requires Enabled(s, op)
  {
    && op.ReadPin? && s.contacts[op.k].target !in s.pins
    && exists j :: j in s.contacts && Disagree(s.contacts[j], s.contacts[op.k].target, s.contacts[op.k].identity)
  }

  predicate Disagree(c: Contact, target: string, identity: Identity) {
    c.FoundNone? && c.target == target && c.identity != identity
  }

  ghost predicate NoOverlap(s: State, ops: seq<Op>)
    requires CanRun(s, ops)
    decreases |ops|
  {
    ops == [] || (!Overlaps(s, ops[0]) && NoOverlap(Next(s, ops[0]), ops[1..]))
  }

  /** No pin is ever replaced along the run. */
  predicate PinsKept(s: State, ops: seq<Op>)
    requires CanRun(s, ops)
    decreases |ops|
  {
    ops == [] || (
      && (forall t :: t in s.pins ==> t in Next(s, ops[0]).pins && Next(s, ops[0]).pins[t] == s.pins[t])
      && PinsKept(Next(s, ops[0]), ops[1..]))
  }

  /** Contact `k` is about to write over a pin that it disagrees with. */
  predicate WritesOver(s: State, k: nat) {
    && k in s.contacts && s.contacts[k].FoundNone? && s.contacts[k].target in s.pins
    && s.pins[s.contacts[k].target] != s.contacts[k].identity
  }

  /** Whoever is about to write agrees with the pin and with everyone else about to write. */
  ghost predicate Agreed(s: State) {
    && (forall k :: k in s.contacts ==> !WritesOver(s, k))
    && (forall j, k :: j in s.contacts && k in s.contacts && s.contacts[k].FoundNone? ==>
          !Disagree(s.contacts[j], s.contacts[k].target, s.contacts[k].identity))
  }

  /** Whoever passed did so under the pin. */
  ghost predicate PassedUnderPin(s: State) {
    forall p :: p in s.passed ==> p.0 in s.pins && s.pins[p.0] == p.1
  }

  /** A step keeps the agreement exactly when it does not overlap, and then it keeps every pin. */
  lemma NextAgreesExactly(s: State, op: Op)
    requires Agreed(s) && Enabled(s, op)
    ensures Agreed(Next(s, op)) <==> !Overlaps(s, op)
    ensures forall t :: t in s.pins ==> t in Next(s, op).pins && Next(s, op).pins[t] == s.pins[t]
    ensures PassedUnderPin(s) ==> PassedUnderPin(Next(s, op))
  {
    if Overlaps(s, op) {
      var t := Next(s, op);
      var j :| j in s.contacts && Disagree(s.contacts[j], s.contacts[op.k].target, s.contacts[op.k].identity);
      assert j in t.contacts && t.contacts[j] == s.contacts[j] && t.contacts[op.k].FoundNone?;
    }
  }

  /** However the callers go on without overlapping again, no pin is replaced. */
  ghost predicate Fixed(s: State) {
    forall ops :: CanRun(s, ops) && NoOverlap(s, ops) ==> PinsKept(s, ops)
  }

  lemma {:induction false} AgreedKeepsPins(s: State, ops: seq<Op>)
    requires Agreed(s) && CanRun(s, ops) && NoOverlap(s, ops)
    ensures PinsKept(s, ops) && Agreed(Run(s, ops))
    ensures PassedUnderPin(s) ==> PassedUnderPin(Run(s, ops))
    decreases |ops|
  {
    if ops != [] {
      NextAgreesExactly(s, ops[0]);
      AgreedKeepsPins(Next(s, ops[0]), ops[1..]);
    }
  }

  /** Two writers that disagree: both pass, and the second one replaces the pin of the first. */
  lemma DisagreementReplacesPin(s: State, j: nat, k: nat)
    requires j in s.contacts && k in s.contacts && s.contacts[k].FoundNone?
    requires Disagree(s.contacts[j], s.contacts[k].target, s.contacts[k].identity)
    ensures var ops, target := [WritePin(j), WritePin(k)], s.contacts[k].target;
      && CanRun(s, ops) && NoOverlap(s, ops) && !PinsKept(s, ops)
      && {(target, s.contacts[j].identity), (target, s.contacts[k].identity)} <= Run(s, ops).passed
  {
    var ops := [WritePin(j), WritePin(k)];
    assert ops[1..] == [WritePin(k)] && [WritePin(k)][1..] == [];
    var t := Next(s, WritePin(j));
    assert t.contacts[k] == s.contacts[k];
    assert CanRun(t, [WritePin(k)]) && NoOverlap(t, [WritePin(k)]);
    assert Next(t, WritePin(k)).pins[s.contacts[k].target] != t.pins[s.contacts[k].target];
    assert !PinsKept(t, [WritePin(k)]);
    assert Run(t, [WritePin(k)]) == Next(t, WritePin(k));
  }

  lemma LateWriteReplacesPin(s: State, k: nat)
    requires WritesOver(s, k)
    ensures CanRun(s, [WritePin(k)]) && NoOverlap(s, [WritePin(k)]) && !PinsKept(s, [WritePin(k)])
  {
    assert [WritePin(k)][1..] == [];
    assert Next(s, WritePin(k)).pins[s.contacts[k].target] != s.pins[s.contacts[k].target];
  }

  lemma FixedIsAgreed(s: State)
    ensures Fixed(s) <==> Agreed(s)
  {
    if Agreed(s) {
      forall ops | CanRun(s, ops) && NoOverlap(s, ops) ensures PinsKept(s, ops) {
        AgreedKeepsPins(s, ops);
      }
    } else if k :| WritesOver(s, k) {
      LateWriteReplacesPin(s, k);
    } else {
      var j, k :| j in s.contacts && k in s.contacts && s.contacts[k].FoundNone?
        && Disagree(s.contacts[j], s.contacts[k].target, s.contacts[k].identity);
      DisagreementReplacesPin(s, j, k);
    }
  }

  /** Fixed after every step of the run. */
  ghost predicate StaysFixed(s: State, ops: seq<Op>)
    requires CanRun(s, ops)
    decreases |ops|
  {
    Fixed(s) && (ops == [] || StaysFixed(Next(s, ops[0]), ops[1..]))
  }

  lemma {:induction false} StaysFixedExactly(s: State, ops: seq<Op>)
    requires Agreed(s) && CanRun(s, ops)
    ensures StaysFixed(s, ops) <==> NoOverlap(s, ops)
    decreases |ops|
  {
    FixedIsAgreed(s);
    if ops != [] {
      NextAgreesExactly(s, ops[0]);
      FixedIsAgreed(Next(s, ops[0]));
      if Agreed(Next(s, ops[0])) {
        StaysFixedExactly(Next(s, ops[0]), ops[1..]);
      }
    }
  }

  /**
   * For every interleaving of first and later contacts: at no moment of the run can a pin come to be replaced,
   * exactly when no two contacts that disagree about a device's identity both find it without a pin. Then every
   * contact that passed did so under the device's pin.
   */
  lemma PinsStandExactly(ops: seq<Op>)
    requires CanRun(NOTHING_PINNED, ops)
    ensures StaysFixed(NOTHING_PINNED, ops) <==> NoOverlap(NOTHING_PINNED, ops)
    ensures NoOverlap(NOTHING_PINNED, ops) ==>
        PinsKept(NOTHING_PINNED, ops) && PassedUnderPin(Run(NOTHING_PINNED, ops))
  {
    StaysFixedExactly(NOTHING_PINNED, ops);
    if NoOverlap(NOTHING_PINNED, ops) {
      AgreedKeepsPins(NOTHING_PINNED, ops);
    }
  }

  /** A contact that reads the pin passes under it, an outbound one only if it is its own; a writer under its own. */
  lemma PassesExactly(s: State, op: Op, target: string, identity: Identity)
    requires Enabled(s, op)
    ensures (target, identity) in Next(s, op).passed <==>
        || (target, identity) in s.passed
        || (op.WritePin? && s.contacts[op.k] == FoundNone(target, identity))
        || (op.ReadPin? && target in s.pins && s.pins[target] == identity
            && (s.contacts[op.k] == Started(target, identity, false)
                || (s.contacts[op.k].inbound && s.contacts[op.k].target == target)))
    ensures op.WritePin? && s.contacts[op.k] == FoundNone(target, identity) ==>
        target in Next(s, op).pins && Next(s, op).pins[target] == identity
  {
  }

  /** A contact gets one answer: reading a pin, writing one or failing ends it, and then it neither reads nor writes. */
  lemma {:induction false} AnsweredOnce(s: State, op: Op, ops: seq<Op>)
    requires Enabled(s, op) && CanRun(Next(s, op), ops)
    requires op.WritePin? || op.Fail? || (op.ReadPin? && s.contacts[op.k].target in s.pins)
    ensures ReadPin(op.k) !in ops && WritePin(op.k) !in ops
  {
    EndedStays(Next(s, op), ops, op.k);
  }

  lemma {:induction false} EndedStays(s: State, ops: seq<Op>, k: nat)
    requires CanRun(s, ops) && k in s.contacts && s.contacts[k].Ended?
    ensures ReadPin(k) !in ops && WritePin(k) !in ops
    decreases |ops|
  {
    if ops != [] {
      EndedStays(Next(s, ops[0]), ops[1..], k);
      assert ops == [ops[0]] + ops[1..];
    }
  }

  ghost predicate LosesPin(ops: seq<Op>) {
    CanRun(NOTHING_PINNED, ops) && !NoOverlap(NOTHING_PINNED, ops) && !PinsKept(NOTHING_PINNED, ops)
  }

  /** Two outbound first contacts that overlap: both pass, and the second one's identity stays pinned. */
  lemma OverlapCanHappen(target: string, a: Identity, b: Identity)
    requires a != b
    ensures exists ops :: LosesPin(ops)
  {
    var s1 := Next(NOTHING_PINNED, Begin(0, target, a, false));
    var s2 := Next(s1, Begin(1, target, b, false));
    var s3 := Next(s2, ReadPin(0));
    var s4 := Next(s3, ReadPin(1));
    assert Disagree(s3.contacts[0], target, b);
    assert s4.contacts[0] == s3.contacts[0];
    DisagreementReplacesPin(s4, 0, 1);
    var writes := [WritePin(0), WritePin(1)];
    Prepend(s3, ReadPin(1), writes);
    Prepend(s2, ReadPin(0), [ReadPin(1)] + writes);
    Prepend(s1, Begin(1, target, b, false), [ReadPin(0)] + ([ReadPin(1)] + writes));
    var rest := [Begin(1, target, b, false)] + ([ReadPin(0)] + ([ReadPin(1)] + writes));
    Prepend(NOTHING_PINNED, Begin(0, target, a, false), rest);
    assert LosesPin([Begin(0, target, a, false)] + rest);
  }

  lemma Prepend(s: State, op: Op, ops: seq<Op>)
    requires Enabled(s, op) && CanRun(Next(s, op), ops)
    ensures CanRun(s, [op] + ops)
    ensures Overlaps(s, op) || !NoOverlap(Next(s, op), ops) ==> !NoOverlap(s, [op] + ops)
    ensures !PinsKept(Next(s, op), ops) ==> !PinsKept(s, [op] + ops)
  {
    assert ([op] + ops)[1..] == ops;
  }
}
