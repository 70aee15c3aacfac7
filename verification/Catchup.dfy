// Reconnect catch-up, end to end: gateway.ts joins the room and replays, event-bus.ts stores and
// fans out, use-gateway.ts keeps the cursor. One channel, one client, one replica; the client
// stays subscribed and authorized. Events are named by their position in the channel's stream.
module Catchup {
  import opened Common
  import EventBus
  import GatewayClient

  datatype Msg = Live(e: nat) | Batch(es: seq<nat>) | ResumeComplete

  /** How far the gateway:resume handler of this connection has come. */
  datatype Resume = NotAsked | Asked | Joined | HasRead(batch: seq<nat>) | Done

  /** What moved the client's cursor last on this connection. */
  datatype Last = Nothing | ByLive | ByBatch

  /**
   * A connection: the cursor the client sent, whether the socket is in the room, its FIFO inbox.
   * The other fields only record history: what the client held on connecting, the fan-out position on joining,
   * the next live event to deliver, the range that the replay read, whether it has been delivered.
   */
  datatype Conn = Conn(
    base: Option<nat>, resume: Resume, inRoom: bool, inbox: seq<Msg>,
    before: set<nat>, joinedAt: nat, nextLive: nat, readFrom: nat, readTo: nat, replayed: bool, last: Last)

  /** `published` events are in the stream, `fanned` of them are fanned out, the first `trimmed` are gone. */
  datatype State = State(
    published: nat, fanned: nat, trimmed: nat,
    cursor: Option<nat>, received: set<nat>, first: Option<nat>,
    conn: Option<Conn>)

  const START := State(0, 0, 0, None, {}, None, None)

  datatype Op =
    | Publish | FanOut | Trim(upTo: nat)
    | Connect | Disconnect
    | SubscribeJoin | ResumeJoin | ResumeRead | ResumeReadFails | ResumeEmit
    | Take

  function Range(a: nat, b: nat): (r: seq<nat>)
    ensures |r| == if a < b then b - a else 0
    ensures forall i :: 0 <= i < |r| ==> r[i] == a + i
  {
    if a < b then seq(b - a, i => a + i) else []
  }

  function StreamOf(trimmed: nat, published: nat): seq<EventBus.Entry<nat>>
    requires trimmed <= published
  {
    seq(published - trimmed, i => EventBus.Entry(EventBus.StreamId(trimmed + i + 1, 0), Some(trimmed + i)))
  }

  /** What the replay for cursor `b` answers. */
  function ReadBatch(s: State, b: nat): seq<nat>
    requires s.trimmed <= s.published
  {
    EventBus.ReplayFrom(StreamOf(s.trimmed, s.published), b, EventBus.MAX_REPLAY_EVENTS)
  }

  /** The client takes a batch of events: cursor, record and first event. */
  function Receive(s: State, es: seq<nat>): State {
    if es == [] then s else
    s.(cursor := GatewayClient.CursorAfter(s.cursor, es),
       received := s.received + (set e | e in es),
       first := if s.first.None? then Some(es[0]) else s.first)
  }

  function Join(s: State, c: Conn): Conn {
    if c.inRoom then c else c.(inRoom := true, joinedAt := s.fanned, nextLive := s.fanned)
  }

  predicate Enabled(s: State, op: Op) {
    match op
    case Publish => true
    case FanOut => s.fanned < s.published
    case Trim(upTo) => s.trimmed <= upTo <= s.fanned && upTo + EventBus.EVENT_STREAM_MAXLEN <= s.published
    case Connect => s.conn.None?
    case Disconnect => s.conn.Some?
    case SubscribeJoin => s.conn.Some?
    case ResumeJoin => s.conn.Some? && s.conn.value.resume.Asked?
    case ResumeRead =>
      s.conn.Some? && s.conn.value.resume.Joined? && s.conn.value.base.Some? && s.trimmed <= s.published
    case ResumeReadFails => s.conn.Some? && s.conn.value.resume.Joined?
    case ResumeEmit => s.conn.Some? && s.conn.value.resume.HasRead?
    case Take => s.conn.Some? && s.conn.value.inbox != []
  }

  /** The handler holds the batch that it read. */
  function HasReadBatch(c: Conn, batch: seq<nat>): Conn {
    if batch == [] then c.(resume := HasRead(batch))
    else c.(resume := HasRead(batch), readFrom := batch[0], readTo := batch[|batch| - 1] + 1)
  }

  /** What the handler sends at its end. */
  function Sent(batch: seq<nat>): seq<Msg> {
    (if batch == [] then [] else [Batch(batch)]) + [ResumeComplete]
  }

  function Next(s: State, op: Op): State
    requires Enabled(s, op)
  {
    match op
    case Publish => s.(published := s.published + 1)
    case FanOut =>
      var t := s.(fanned := s.fanned + 1);
      if s.conn.Some? && s.conn.value.inRoom
      then t.(conn := Some(s.conn.value.(inbox := s.conn.value.inbox + [Live(s.fanned)])))
      else t
    case Trim(upTo) => s.(trimmed := upTo)
    case Connect =>
      var resume := if s.cursor.Some? then Asked else NotAsked;
      s.(conn := Some(Conn(s.cursor, resume, false, [], s.received, 0, 0, 0, 0, false, Nothing)))
    case Disconnect => s.(conn := None)
    case SubscribeJoin => s.(conn := Some(Join(s, s.conn.value)))
    case ResumeJoin => s.(conn := Some(Join(s, s.conn.value).(resume := Joined)))
    case ResumeRead => s.(conn := Some(HasReadBatch(s.conn.value, ReadBatch(s, s.conn.value.base.value))))
    case ResumeReadFails => s.(conn := Some(HasReadBatch(s.conn.value, [])))
    case ResumeEmit =>
      var c := s.conn.value;
      s.(conn := Some(c.(resume := Done, inbox := c.inbox + Sent(c.resume.batch),
                         replayed := c.resume.batch == [])))
    case Take =>
      var c := s.conn.value;
      var rest := c.(inbox := c.inbox[1..]);
      match c.inbox[0]
      case Live(e) => Receive(s, [e]).(conn := Some(rest.(nextLive := e + 1, last := ByLive)))
      case Batch(es) =>
        Receive(s, es).(conn := Some(rest.(replayed := true, last := if es == [] then rest.last else ByBatch)))
      case ResumeComplete => s.(conn := Some(rest))
  }

  predicate CanRun(s: State, ops: seq<Op>)
    decreases |ops|
  {
    ops == [] || (Enabled(s, ops[0]) && CanRun(Next(s, ops[0]), ops[1..]))
  }

  function Run(s: State, ops: seq<Op>): State
    requires CanRun(s, ops)
    decreases |ops|
  {
    if ops == [] then s else Run(Next(s, ops[0]), ops[1..])
  }

  /** Dropping the connection now loses nothing: no event that the client lacks lies behind its cursor. */
  predicate Intact(s: State) {
    s.first.Some? && s.cursor.Some? ==> forall e :: s.first.value <= e <= s.cursor.value ==> e in s.received
  }

  predicate OnlyIntactDrops(s: State, ops: seq<Op>)
    requires CanRun(s, ops)
    decreases |ops|
  {
    ops == [] || ((ops[0].Disconnect? ==> Intact(s)) && OnlyIntactDrops(Next(s, ops[0]), ops[1..]))
  }

  /** Connected, in the room, resume finished if one was asked for, nothing left to take. */
  predicate CaughtUp(s: State) {
    && s.conn.Some? && s.conn.value.inRoom && s.conn.value.inbox == []
    && (s.conn.value.base.None? || s.conn.value.resume.Done?)
  }

  ghost predicate Complete(s: State) {
    s.first.Some? ==> forall e :: s.first.value <= e < s.fanned ==> e in s.received
  }

  // ---- The invariant -----------------------------------------------------------

  function LiveOf(inbox: seq<Msg>): seq<nat> {
    if inbox == [] then []
    else (if inbox[0].Live? then [inbox[0].e] else []) + LiveOf(inbox[1..])
  }

  function BatchesOf(inbox: seq<Msg>): seq<seq<nat>> {
    if inbox == [] then []
    else (if inbox[0].Batch? then [inbox[0].es] else []) + BatchesOf(inbox[1..])
  }

  lemma {:induction false} LiveAppend(a: seq<Msg>, b: seq<Msg>)
    ensures LiveOf(a + b) == LiveOf(a) + LiveOf(b)
  {
    if a == [] {
      assert a + b == b;
    } else {
      var head := if a[0].Live? then [a[0].e] else [];
      assert (a + b)[0] == a[0] && (a + b)[1..] == a[1..] + b;
      LiveAppend(a[1..], b);
      assert LiveOf(a + b) == head + (LiveOf(a[1..]) + LiveOf(b));
    }
  }

  lemma {:induction false} BatchesAppend(a: seq<Msg>, b: seq<Msg>)
    ensures BatchesOf(a + b) == BatchesOf(a) + BatchesOf(b)
  {
    if a == [] {
      assert a + b == b;
    } else {
      var head := if a[0].Batch? then [a[0].es] else [];
      assert (a + b)[0] == a[0] && (a + b)[1..] == a[1..] + b;
      BatchesAppend(a[1..], b);
      assert BatchesOf(a + b) == head + (BatchesOf(a[1..]) + BatchesOf(b));
    }
  }

  lemma InboxAppend(a: seq<Msg>, b: seq<Msg>)
    ensures LiveOf(a + b) == LiveOf(a) + LiveOf(b) && BatchesOf(a + b) == BatchesOf(a) + BatchesOf(b)
  {
    LiveAppend(a, b);
    BatchesAppend(a, b);
  }

  /** The live events in front of the first batch. */
  function LiveAhead(inbox: seq<Msg>): nat {
    if inbox == [] || inbox[0].Batch? then 0 else (if inbox[0].Live? then 1 else 0) + LiveAhead(inbox[1..])
  }

  lemma {:induction false} LiveAheadAppend(a: seq<Msg>, b: seq<Msg>)
    ensures LiveAhead(a + b) == if BatchesOf(a) == [] then |LiveOf(a)| + LiveAhead(b) else LiveAhead(a)
  {
    if a == [] {
      assert a + b == b;
    } else {
      assert (a + b)[0] == a[0] && (a + b)[1..] == a[1..] + b;
      LiveAheadAppend(a[1..], b);
    }
  }

  ghost predicate StreamInv(s: State) {
    && s.trimmed <= s.fanned <= s.published
    && (s.trimmed == 0 || s.trimmed + EventBus.EVENT_STREAM_MAXLEN <= s.published)
    && (s.cursor.Some? <==> s.first.Some?) && (s.first.None? ==> s.received == {})
    && (s.first.Some? ==> s.first.value in s.received && s.first.value < s.fanned && s.cursor.value < s.published)
  }

  /** A first connection: live events only. */
  ghost predicate FreshConnInv(s: State, c: Conn) {
    && c.resume.NotAsked? && BatchesOf(c.inbox) == [] && c.before == {} && !c.last.ByBatch?
    && (c.inRoom && c.nextLive > c.joinedAt ==> s.first == Some(c.joinedAt) && s.cursor == Some(c.nextLive - 1))
    && (!c.inRoom || c.nextLive == c.joinedAt ==> s.first.None?)
    && (forall e: nat :: e in s.received <==> c.inRoom && c.joinedAt <= e < c.nextLive)
  }

  /** How far the replay of a resumed connection has come, and what of it is still in the inbox. */
  ghost predicate ReplayInv(s: State, c: Conn)
    requires c.base.Some?
  {
    && !c.resume.NotAsked?
    && (!c.inRoom ==> c.resume.Asked? && c.nextLive == c.joinedAt == 0)
    && (c.resume.Asked? || c.resume.Joined? ==> c.readFrom == c.readTo == 0)
    && (!c.resume.Done? ==> !c.replayed && BatchesOf(c.inbox) == [])
    && (c.readFrom < c.readTo ==> c.readTo <= s.published && (c.readFrom <= c.base.value + 1 || c.readFrom <= s.fanned))
    && (c.resume.HasRead? ==> c.resume.batch == Range(c.readFrom, c.readTo))
    && (c.resume.Done? ==> BatchesOf(c.inbox) == if c.replayed then [] else [Range(c.readFrom, c.readTo)])
    && (c.resume.Done? && !c.replayed ==> c.readFrom < c.readTo)
    && (c.resume.Done? && c.readFrom < c.readTo ==>
          c.readFrom <= Max(c.base.value + 1, c.nextLive + (if c.replayed then 0 else LiveAhead(c.inbox))))
  }

  /** What a client on a resumed connection holds, and where its cursor is. */
  ghost predicate HoldsInv(s: State, c: Conn)
    requires c.base.Some?
  {
    && s.first.Some? && s.first.value in c.before && c.base.value < s.published
    && (forall e :: s.first.value <= e <= c.base.value ==> e in c.before)
    && (forall e: nat :: e in s.received <==>
          e in c.before || c.joinedAt <= e < c.nextLive || (c.replayed && c.readFrom <= e < c.readTo))
    && (c.last.Nothing? ==> s.cursor == c.base)
    && (c.last.ByLive? ==> c.nextLive > c.joinedAt && s.cursor == Some(c.nextLive - 1))
    && (c.last.ByBatch? ==> c.replayed && c.readFrom < c.readTo && s.cursor == Some(c.readTo - 1))
  }

  ghost predicate ResumedConnInv(s: State, c: Conn)
    requires c.base.Some?
  {
    ReplayInv(s, c) && HoldsInv(s, c)
  }

  ghost predicate Inv(s: State) {
    && StreamInv(s)
    && (s.conn.None? ==> Intact(s))
    && (s.conn.Some? ==>
          var c := s.conn.value;
          && (c.inRoom ==> c.joinedAt <= c.nextLive <= s.fanned && LiveOf(c.inbox) == Range(c.nextLive, s.fanned))
          && (!c.inRoom ==> c.inbox == [])
          && if c.base.None? then FreshConnInv(s, c) else ResumedConnInv(s, c))
  }

  /** The cursor is in the stream and among the newest 1000 entries. */
  predicate Known(s: State, b: nat) {
    s.trimmed <= b && s.published - b <= EventBus.MAX_SEARCHED
  }

  /** Where the replay for cursor `b` starts: behind a known cursor, else at the oldest entry. */
  function ReadsFrom(s: State, b: nat): nat {
    if Known(s, b) then b + 1 else s.trimmed
  }

  lemma UnknownInStream(s: State, b: nat)
    requires s.trimmed <= s.published && !Known(s, b)
    ensures EventBus.Unknown(StreamOf(s.trimmed, s.published), b)
  {
  }

  lemma NumberedEvents(s: State, n: nat)
    requires s.trimmed <= s.published && n <= s.published - s.trimmed
    ensures EventBus.Events(StreamOf(s.trimmed, s.published)[..n]) == Range(s.trimmed, s.trimmed + n)
  {
    EventBus.EventsWellFormed(StreamOf(s.trimmed, s.published)[..n]);
  }

  /** The replay is a stretch of at most 500 events of the stream. */
  lemma ReadRange(s: State, b: nat)
    requires s.trimmed <= s.published && b < s.published
    ensures var from := ReadsFrom(s, b);
      ReadBatch(s, b) == Range(from, Min(s.published, from + EventBus.MAX_REPLAY_EVENTS))
  {
    var stream := StreamOf(s.trimmed, s.published);
    if Known(s, b) {
      assert EventBus.FoundAt(stream, b, b - s.trimmed);
      EventBus.ReplayInOrder(stream, b, EventBus.MAX_REPLAY_EVENTS, b - s.trimmed);
    } else {
      UnknownInStream(s, b);
      EventBus.UnknownCursorReadsOldest(stream, b, EventBus.MAX_REPLAY_EVENTS);
      NumberedEvents(s, Min(|stream|, EventBus.MAX_REPLAY_EVENTS));
    }
  }

  /** The stream of the run is one that the batched search reads like the plain scan. */
  lemma StreamIsSteppable(trimmed: nat, published: nat)
    requires trimmed <= published
    ensures EventBus.IsStream(StreamOf(trimmed, published)) && EventBus.Steppable(StreamOf(trimmed, published))
  {
    EventBus.SmallSequenceNumbers(StreamOf(trimmed, published));
  }

  /** What trimming drops no read returns any more, and at least the newest 1000 events stay. */
  lemma TrimmedIsGone(s: State, upTo: nat, b: nat)
    requires Enabled(s, Trim(upTo)) && b < s.published
    ensures var t := Next(s, Trim(upTo));
      && (forall e :: e in ReadBatch(t, b) ==> upTo <= e < s.published)
      && |StreamOf(t.trimmed, t.published)| == s.published - upTo >= 1000
  {
    ReadRange(Next(s, Trim(upTo)), b);
  }

  lemma RangeExtend(a: nat, b: nat)
    requires a <= b
    ensures Range(a, b + 1) == Range(a, b) + [b]
  {
  }

  lemma RangeMember(a: nat, b: nat, e: nat)
    ensures e in Range(a, b) <==> a <= e < b
  {
    if a <= e < b {
      assert Range(a, b)[e - a] == e;
    }
  }

  /** What taking the head does to the two projections of the inbox. */
  lemma InboxHead(s: State)
    requires Inv(s) && Enabled(s, Take)
    ensures var c := s.conn.value;
      && c.inRoom
      && (c.inbox[0].Live? ==>
            && c.inbox[0].e == c.nextLive < s.fanned
            && LiveOf(c.inbox[1..]) == Range(c.nextLive + 1, s.fanned)
            && BatchesOf(c.inbox[1..]) == BatchesOf(c.inbox)
            && LiveAhead(c.inbox) == LiveAhead(c.inbox[1..]) + 1)
      && (c.inbox[0].Batch? ==>
            && c.base.Some? && c.resume.Done? && !c.replayed && LiveAhead(c.inbox) == 0
            && c.inbox[0].es == Range(c.readFrom, c.readTo) && c.readFrom < c.readTo && s.first.Some?
            && LiveOf(c.inbox[1..]) == Range(c.nextLive, s.fanned)
            && BatchesOf(c.inbox[1..]) == [])
  {
    var c := s.conn.value;
    match c.inbox[0]
    case Live(e) =>
      assert LiveOf(c.inbox)[0] == e;
      assert LiveOf(c.inbox[1..]) == LiveOf(c.inbox)[1..];
    case Batch(es) => assert BatchesOf(c.inbox)[0] == es;
    case ResumeComplete =>
  }

  /** The state after one live event, with what the client did as facts. */
  ghost predicate TookLive(s: State, t: State, c: Conn, rest: seq<Msg>) {
    && s.conn == Some(c) && c.inRoom && c.nextLive < s.fanned
    && LiveOf(rest) == Range(c.nextLive + 1, s.fanned) && BatchesOf(rest) == BatchesOf(c.inbox)
    && LiveAhead(c.inbox) == LiveAhead(rest) + 1
    && t == s.(cursor := Some(c.nextLive), received := s.received + {c.nextLive},
               first := if s.first.None? then Some(c.nextLive) else s.first,
               conn := Some(c.(inbox := rest, nextLive := c.nextLive + 1, last := ByLive)))
  }

  lemma LiveKeepsFresh(s: State, t: State, c: Conn, rest: seq<Msg>)
    requires Inv(s) && TookLive(s, t, c, rest) && c.base.None?
    ensures Inv(t)
  {
  }

  lemma LiveKeepsHolds(s: State, t: State, c: Conn, rest: seq<Msg>)
    requires TookLive(s, t, c, rest) && c.base.Some? && c.joinedAt <= c.nextLive && HoldsInv(s, c)
    ensures HoldsInv(t, t.conn.value)
  {
    assert forall e: nat :: e in t.received <==> e in s.received || e == c.nextLive;
  }

  lemma LiveKeepsReplay(s: State, t: State, c: Conn, rest: seq<Msg>)
    requires TookLive(s, t, c, rest) && c.base.Some? && ReplayInv(s, c)
    ensures ReplayInv(t, t.conn.value)
  {
  }

  lemma LiveKeepsResumed(s: State, t: State, c: Conn, rest: seq<Msg>)
    requires Inv(s) && TookLive(s, t, c, rest) && c.base.Some?
    ensures Inv(t)
  {
    LiveKeepsHolds(s, t, c, rest);
    LiveKeepsReplay(s, t, c, rest);
  }

  /** The client's side of taking the replayed batch. */
  lemma ReceiveBatch(s: State, from: nat, to: nat)
    requires from < to && s.first.Some?
    ensures var t := Receive(s, Range(from, to));
      && t == s.(cursor := Some((to - 1) as nat), received := t.received)
      && forall e: nat :: e in t.received <==> e in s.received || from <= e < to
  {
    var es := Range(from, to);
    forall e: nat ensures e in es <==> from <= e < to {
      RangeMember(from, to, e);
    }
  }

  /** The state once the batch is taken, with what the client did as facts. */
  ghost predicate TookBatch(s: State, t: State, c: Conn, rest: seq<Msg>) {
    && s.conn == Some(c) && c.inRoom && c.base.Some? && c.resume.Done? && !c.replayed && c.readFrom < c.readTo
    && LiveOf(rest) == Range(c.nextLive, s.fanned) && BatchesOf(rest) == [] && LiveAhead(c.inbox) == 0
    && t == s.(cursor := Some((c.readTo - 1) as nat), received := t.received,
               conn := Some(c.(inbox := rest, replayed := true, last := ByBatch)))
    && forall e: nat :: e in t.received <==> e in s.received || c.readFrom <= e < c.readTo
  }

  lemma BatchKeeps(s: State, t: State, c: Conn, rest: seq<Msg>)
    requires Inv(s) && TookBatch(s, t, c, rest)
    ensures Inv(t)
  {
  }

  /** A connection whose inbox changes without batches going in or out. */
  lemma InboxKeepsFresh(s: State, t: State, c: Conn, d: Conn)
    requires FreshConnInv(s, c) && t == s.(fanned := t.fanned, conn := Some(d))
    requires d == c.(inbox := d.inbox) && BatchesOf(d.inbox) == BatchesOf(c.inbox)
    ensures FreshConnInv(t, d)
  {
  }

  lemma InboxKeepsResumed(s: State, t: State, c: Conn, d: Conn)
    requires c.base.Some? && ResumedConnInv(s, c)
    requires t == s.(fanned := t.fanned, conn := Some(d)) && s.fanned <= t.fanned
    requires d == c.(inbox := d.inbox) && BatchesOf(d.inbox) == BatchesOf(c.inbox)
    requires BatchesOf(c.inbox) != [] ==> LiveAhead(d.inbox) == LiveAhead(c.inbox)
    ensures ResumedConnInv(t, d)
  {
  }

  lemma TakeCompleteKeeps(s: State)
    requires Inv(s) && Enabled(s, Take) && s.conn.value.inbox[0].ResumeComplete?
    ensures Inv(Next(s, Take))
  {
    var c, t := s.conn.value, Next(s, Take);
    if c.base.None? {
      InboxKeepsFresh(s, t, c, t.conn.value);
    } else {
      InboxKeepsResumed(s, t, c, t.conn.value);
    }
  }

  lemma NextOnLive(s: State, c: Conn)
    requires Enabled(s, Take) && s.conn == Some(c)
    requires c.inbox[0] == Live(c.nextLive) && c.inRoom && c.nextLive < s.fanned
    requires LiveOf(c.inbox[1..]) == Range(c.nextLive + 1, s.fanned) && BatchesOf(c.inbox[1..]) == BatchesOf(c.inbox)
    requires LiveAhead(c.inbox) == LiveAhead(c.inbox[1..]) + 1
    ensures TookLive(s, Next(s, Take), c, c.inbox[1..])
  {
    assert (set e | e in [c.nextLive]) == {c.nextLive};
  }

  lemma TakeLiveKeeps(s: State)
    requires Inv(s) && Enabled(s, Take) && s.conn.value.inbox[0].Live?
    ensures Inv(Next(s, Take))
  {
    var c := s.conn.value;
    InboxHead(s);
    NextOnLive(s, c);
    if c.base.None? {
      LiveKeepsFresh(s, Next(s, Take), c, c.inbox[1..]);
    } else {
      LiveKeepsResumed(s, Next(s, Take), c, c.inbox[1..]);
    }
  }

  lemma NextOnBatch(s: State, c: Conn)
    requires Enabled(s, Take) && s.conn == Some(c) && c.inbox[0] == Batch(Range(c.readFrom, c.readTo)) && s.first.Some?
    requires c.inRoom && c.base.Some? && c.resume.Done? && !c.replayed && c.readFrom < c.readTo
    requires LiveOf(c.inbox[1..]) == Range(c.nextLive, s.fanned) && BatchesOf(c.inbox[1..]) == []
    requires LiveAhead(c.inbox) == 0
    ensures TookBatch(s, Next(s, Take), c, c.inbox[1..])
  {
    ReceiveBatch(s, c.readFrom, c.readTo);
  }

  lemma TakeBatchKeeps(s: State)
    requires Inv(s) && Enabled(s, Take) && s.conn.value.inbox[0].Batch?
    ensures Inv(Next(s, Take))
  {
    InboxHead(s);
    var c := s.conn.value;
    NextOnBatch(s, c);
    BatchKeeps(s, Next(s, Take), c, c.inbox[1..]);
  }

  lemma TakeKeeps(s: State)
    requires Inv(s) && Enabled(s, Take)
    ensures Inv(Next(s, Take))
  {
    match s.conn.value.inbox[0]
    case Live(_) => TakeLiveKeeps(s);
    case Batch(_) => TakeBatchKeeps(s);
    case ResumeComplete => TakeCompleteKeeps(s);
  }

  lemma FanOutProjections(inbox: seq<Msg>, next: nat, fanned: nat)
    requires LiveOf(inbox) == Range(next, fanned) && next <= fanned
    ensures LiveOf(inbox + [Live(fanned)]) == Range(next, fanned + 1)
    ensures BatchesOf(inbox + [Live(fanned)]) == BatchesOf(inbox)
    ensures BatchesOf(inbox) != [] ==> LiveAhead(inbox + [Live(fanned)]) == LiveAhead(inbox)
  {
    InboxAppend(inbox, [Live(fanned)]);
    LiveAheadAppend(inbox, [Live(fanned)]);
    RangeExtend(next, fanned);
    assert LiveOf([Live(fanned)]) == [fanned] && BatchesOf([Live(fanned)]) == [];
  }

  lemma FanOutKeeps(s: State)
    requires Inv(s) && Enabled(s, FanOut)
    ensures Inv(Next(s, FanOut))
  {
    if s.conn.Some? {
      var c, t := s.conn.value, Next(s, FanOut);
      if c.inRoom {
        FanOutProjections(c.inbox, c.nextLive, s.fanned);
      }
      if c.base.None? {
        InboxKeepsFresh(s, t, c, t.conn.value);
      } else {
        InboxKeepsResumed(s, t, c, t.conn.value);
      }
    }
  }

  lemma StreamStepKeeps(s: State, op: Op)
    requires Inv(s) && Enabled(s, op) && (op.Publish? || op.Trim?)
    ensures Inv(Next(s, op))
  {
  }

  lemma ConnectKeeps(s: State)
    requires Inv(s) && s.conn.None?
    ensures Inv(Next(s, Connect))
  {
  }

  lemma DisconnectKeeps(s: State)
    requires Inv(s) && s.conn.Some? && Intact(s)
    ensures Inv(Next(s, Disconnect))
  {
  }

  lemma JoinKeeps(s: State, op: Op)
    requires Inv(s) && Enabled(s, op) && (op.SubscribeJoin? || op.ResumeJoin?)
    ensures Inv(Next(s, op))
  {
  }

  lemma HasReadKeeps(s: State, c: Conn, from: nat, to: nat)
    requires c.base.Some? && ResumedConnInv(s, c) && c.resume.Joined? && from <= to
    requires from < to ==> to <= s.published && (from <= c.base.value + 1 || from <= s.fanned)
    ensures var d := HasReadBatch(c, Range(from, to)); ResumedConnInv(s.(conn := Some(d)), d)
  {
    assert from < to ==> Range(from, to)[0] == from && Range(from, to)[to - from - 1] == to - 1;
  }

  lemma ReadKeeps(s: State)
    requires Inv(s) && Enabled(s, ResumeRead)
    ensures Inv(Next(s, ResumeRead))
  {
    var c := s.conn.value;
    var from := ReadsFrom(s, c.base.value);
    ReadRange(s, c.base.value);
    HasReadKeeps(s, c, from, Min(s.published, from + EventBus.MAX_REPLAY_EVENTS));
  }

  lemma FailedReadKeeps(s: State)
    requires Inv(s) && Enabled(s, ResumeReadFails)
    ensures Inv(Next(s, ResumeReadFails))
  {
    HasReadKeeps(s, s.conn.value, 0, 0);
  }

  lemma SentProjections(batch: seq<nat>)
    ensures LiveOf(Sent(batch)) == [] && LiveAhead(Sent(batch)) == 0
    ensures BatchesOf(Sent(batch)) == if batch == [] then [] else [batch]
  {
    assert [ResumeComplete][1..] == [];
    assert BatchesOf([ResumeComplete]) == [] && LiveOf([ResumeComplete]) == [];
    assert batch != [] ==> Sent(batch)[1..] == [ResumeComplete];
  }

  lemma ReplayProjections(inbox: seq<Msg>, batch: seq<nat>)
    ensures LiveOf(inbox + Sent(batch)) == LiveOf(inbox)
    ensures BatchesOf(inbox + Sent(batch)) == BatchesOf(inbox) + (if batch == [] then [] else [batch])
    ensures BatchesOf(inbox) == [] ==> LiveAhead(inbox + Sent(batch)) == |LiveOf(inbox)|
  {
    SentProjections(batch);
    InboxAppend(inbox, Sent(batch));
    LiveAheadAppend(inbox, Sent(batch));
  }

  /** The connection once the handler has sent what it read. */
  ghost predicate Emitted(c: Conn, d: Conn) {
    && c.base.Some? && c.resume.HasRead?
    && d == c.(resume := Done, inbox := d.inbox, replayed := c.resume.batch == [])
    && LiveOf(d.inbox) == LiveOf(c.inbox)
    && BatchesOf(d.inbox) == BatchesOf(c.inbox) + (if c.resume.batch == [] then [] else [c.resume.batch])
    && LiveAhead(d.inbox) == |LiveOf(c.inbox)|
  }

  lemma EmitKeepsResumed(s: State, c: Conn, d: Conn)
    requires Emitted(c, d) && ReplayInv(s, c) && HoldsInv(s, c) && s.fanned <= c.nextLive + |LiveOf(c.inbox)|
    ensures ReplayInv(s.(conn := Some(d)), d) && HoldsInv(s.(conn := Some(d)), d)
  {
    assert d.replayed ==> c.readTo <= c.readFrom;
  }

  lemma EmitKeeps(s: State)
    requires Inv(s) && Enabled(s, ResumeEmit)
    ensures Inv(Next(s, ResumeEmit))
  {
    var c, d := s.conn.value, Next(s, ResumeEmit).conn.value;
    assert c.base.Some? && ResumedConnInv(s, c);
    ReplayProjections(c.inbox, c.resume.batch);
    EmitKeepsResumed(s, c, d);
  }

  /** Every step keeps the invariant, a disconnect when it drops an intact connection. */
  lemma NextKeeps(s: State, op: Op)
    requires Inv(s) && Enabled(s, op) && (op.Disconnect? ==> Intact(s))
    ensures Inv(Next(s, op))
  {
    match op
    case Connect => ConnectKeeps(s);
    case Disconnect => DisconnectKeeps(s);
    case ResumeRead => ReadKeeps(s);
    case ResumeReadFails => FailedReadKeeps(s);
    case ResumeEmit => EmitKeeps(s);
    case Take => TakeKeeps(s);
    case FanOut => FanOutKeeps(s);
    case SubscribeJoin => JoinKeeps(s, op);
    case ResumeJoin => JoinKeeps(s, op);
    case _ => StreamStepKeeps(s, op);
  }

  lemma {:induction false} RunKeeps(s: State, ops: seq<Op>)
    requires Inv(s) && CanRun(s, ops) && OnlyIntactDrops(s, ops)
    ensures Inv(Run(s, ops))
    decreases |ops|
  {
    if ops != [] {
      NextKeeps(s, ops[0]);
      RunKeeps(Next(s, ops[0]), ops[1..]);
    }
  }

  // ---- Completeness -------------------------------------------------------------

  /** The client did not hold `e` when it joined the room on this connection. */
  predicate Lacks(s: State, c: Conn, e: nat) {
    s.first.Some? && s.first.value <= e < c.joinedAt && e !in c.before
  }

  /** The replay of this connection covers everything that was missed before its join. */
  ghost predicate Covered(s: State, c: Conn) {
    forall e: nat :: Lacks(s, c, e) ==> c.readFrom <= e < c.readTo
  }

  /**
   * Catch-up is complete over any number of disconnects: whenever the client is back in the room, its
   * resume is done and its inbox is empty, it holds every event fanned out since the first one it ever got,
   * exactly when the range that the replay read covers what the client lacked on joining. A read that fails
   * covers nothing, one of more than 500 events its first 500, and one for an unknown cursor the oldest 500.
   */
  lemma CatchUpIsComplete(ops: seq<Op>)
    requires CanRun(START, ops) && OnlyIntactDrops(START, ops) && CaughtUp(Run(START, ops))
    ensures Complete(Run(START, ops)) <==> Covered(Run(START, ops), Run(START, ops).conn.value)
  {
    RunKeeps(START, ops);
    CaughtUpExactly(Run(START, ops));
  }

  lemma CaughtUpExactly(s: State)
    requires Inv(s) && CaughtUp(s)
    ensures Complete(s) <==> Covered(s, s.conn.value)
  {
    var c := s.conn.value;
    assert LiveOf(c.inbox) == [] && BatchesOf(c.inbox) == [];
    assert c.nextLive == s.fanned by {
      assert |Range(c.nextLive, s.fanned)| == 0;
    }
    if Covered(s, c) && s.first.Some? {
      forall e: nat | s.first.value <= e < s.fanned ensures e in s.received {
        assert Lacks(s, c, e) ==> c.readFrom <= e < c.readTo;
      }
    }
    forall e: nat | Complete(s) && Lacks(s, c, e) ensures c.readFrom <= e < c.readTo {
      assert e in s.received;
    }
  }

  /** No read fails, and none is of more than 500 events. */
  predicate ShortReads(s: State, ops: seq<Op>)
    requires CanRun(s, ops)
    decreases |ops|
  {
    ops == [] || (
      && !ops[0].ResumeReadFails?
      && (ops[0].ResumeRead? ==> s.published <= s.conn.value.base.value + 1 + EventBus.MAX_REPLAY_EVENTS)
      && ShortReads(Next(s, ops[0]), ops[1..]))
  }

  ghost predicate CoveredOnceRead(s: State) {
    s.conn.Some? && (s.conn.value.resume.HasRead? || s.conn.value.resume.Done?) ==> Covered(s, s.conn.value)
  }

  lemma ShortReadCovers(s: State)
    requires Inv(s) && Enabled(s, ResumeRead)
    requires s.published <= s.conn.value.base.value + 1 + EventBus.MAX_REPLAY_EVENTS
    ensures CoveredOnceRead(Next(s, ResumeRead))
  {
    var b := s.conn.value.base.value;
    ReadRange(s, b);
    assert b + 1 < s.published ==> ReadBatch(s, b)[0] == b + 1 && |ReadBatch(s, b)| == s.published - b - 1;
  }

  lemma NextStaysCovered(s: State, op: Op)
    requires Inv(s) && Enabled(s, op) && CoveredOnceRead(s) && !op.ResumeRead? && !op.ResumeReadFails?
    ensures CoveredOnceRead(Next(s, op))
  {
    if op.Take? {
      InboxHead(s);
    }
    var t := Next(s, op);
    if s.conn.Some? && t.conn.Some? && (t.conn.value.resume.HasRead? || t.conn.value.resume.Done?) {
      var c, d := s.conn.value, t.conn.value;
      assert c.base.Some? && d.before == c.before && d.joinedAt == c.joinedAt && t.first == s.first;
      forall e: nat | Lacks(t, d, e) ensures d.readFrom <= e < d.readTo {
        assert Lacks(s, c, e);
      }
    }
  }

  lemma {:induction false} RunStaysCovered(s: State, ops: seq<Op>)
    requires Inv(s) && CanRun(s, ops) && OnlyIntactDrops(s, ops) && ShortReads(s, ops) && CoveredOnceRead(s)
    ensures CoveredOnceRead(Run(s, ops)) && Inv(Run(s, ops))
    decreases |ops|
  {
    if ops != [] {
      NextKeeps(s, ops[0]);
      if ops[0].ResumeRead? {
        ShortReadCovers(s);
      } else {
        NextStaysCovered(s, ops[0]);
      }
      RunStaysCovered(Next(s, ops[0]), ops[1..]);
    }
  }

  /** With reads that succeed and gaps of at most 500 events, catch-up is always complete. */
  lemma ShortGapsAreComplete(ops: seq<Op>)
    requires CanRun(START, ops) && OnlyIntactDrops(START, ops) && ShortReads(START, ops) && CaughtUp(Run(START, ops))
    ensures Complete(Run(START, ops))
  {
    RunStaysCovered(START, ops);
    CaughtUpExactly(Run(START, ops));
  }

  /**
   * When a disconnect loses nothing on a resumed connection: nothing was delivered yet; or a live event came
   * last, and what was missed before the join has been replayed; or the replay came last, and did not start
   * behind something missed.
   */
  lemma IntactExactly(s: State)
    requires Inv(s) && s.conn.Some? && s.conn.value.base.Some?
    ensures var c := s.conn.value;
      Intact(s) <==> match c.last
        case Nothing => true
        case ByLive => forall e: nat :: Lacks(s, c, e) ==> c.replayed && c.readFrom <= e < c.readTo
        case ByBatch => forall e: nat :: Lacks(s, c, e) ==> c.readFrom <= e
  {
    var c := s.conn.value;
    forall e: nat | Intact(s) && Lacks(s, c, e) && e <= s.cursor.value ensures e in s.received {
    }
    forall e: nat | s.first.value <= e <= s.cursor.value && e !in s.received
      ensures Lacks(s, c, e) && !(c.replayed && c.readFrom <= e < c.readTo)
    {
      assert e !in c.before;
    }
  }

  // ---- What is lost for good ------------------------------------------------------

  /**
   * The client's cursor has moved past event `h`, which it never got; on a connection, `h` was missed before the
   * join, and the replay that is done or on its way does not bring it.
   */
  predicate PassedOver(s: State, h: nat) {
    && s.first.Some? && s.cursor.Some? && s.first.value <= h <= s.cursor.value && h !in s.received && h < s.fanned
    && (s.conn.Some? ==>
          var c := s.conn.value;
          && c.base.Some? && c.inRoom && h < c.joinedAt && (c.resume.HasRead? || c.resume.Done?)
          && (c.readFrom < c.readTo ==> h < c.readFrom || (c.replayed && c.readTo <= h)))
  }

  /** No known cursor at `at` reads event `h`, now or later. */
  predicate Behind(s: State, h: nat, at: nat) {
    h <= at || h + EventBus.MAX_SEARCHED < s.published
  }

  ghost predicate HarmlessBatch(s: State, h: nat, es: seq<nat>) {
    h !in es && (es != [] ==> es[|es| - 1] < s.published && Behind(s, h, es[|es| - 1]))
  }

  /** Event `h` is missing, and only a read that returns it can bring it back. */
  ghost predicate Hole(s: State, h: nat) {
    && h !in s.received && h < s.fanned <= s.published
    && s.first.Some? && s.first.value <= h && s.cursor.Some? && s.cursor.value < s.published
    && Behind(s, h, s.cursor.value)
    && (s.conn.Some? ==>
          var c := s.conn.value;
          && c.base.Some? && c.base.value < s.published
          && (c.resume.HasRead? || c.resume.Done? || Behind(s, h, c.base.value))
          && (forall i :: 0 <= i < |c.inbox| ==>
                && (c.inbox[i].Live? ==> h < c.inbox[i].e < s.published)
                && (c.inbox[i].Batch? ==> HarmlessBatch(s, h, c.inbox[i].es)))
          && (c.resume.HasRead? ==> HarmlessBatch(s, h, c.resume.batch)))
  }

  lemma {:induction false} Projected(inbox: seq<Msg>, i: nat)
    requires i < |inbox|
    ensures inbox[i].Live? ==> inbox[i].e in LiveOf(inbox)
    ensures inbox[i].Batch? ==> inbox[i].es in BatchesOf(inbox)
  {
    if i > 0 {
      Projected(inbox[1..], i - 1);
    }
  }

  lemma InboxIsAhead(s: State, i: nat)
    requires Inv(s) && s.conn.Some? && i < |s.conn.value.inbox|
    ensures var c := s.conn.value;
      && (c.inbox[i].Live? ==> c.nextLive <= c.inbox[i].e < s.fanned)
      && (c.inbox[i].Batch? && c.base.Some? ==>
            c.inbox[i].es == Range(c.readFrom, c.readTo) && c.readFrom < c.readTo && !c.replayed)
  {
    Projected(s.conn.value.inbox, i);
  }

  lemma RangeIsHarmless(s: State, h: nat, from: nat, to: nat)
    requires from < to ==> h < from && to <= s.published
    ensures HarmlessBatch(s, h, Range(from, to))
  {
    RangeMember(from, to, h);
  }

  lemma PassedOverIsHole(s: State, h: nat)
    requires Inv(s) && PassedOver(s, h)
    ensures Hole(s, h)
  {
    if s.conn.Some? {
      var c := s.conn.value;
      if !c.replayed {
        RangeIsHarmless(s, h, c.readFrom, c.readTo);
      }
      forall i | 0 <= i < |c.inbox|
        ensures c.inbox[i].Live? ==> h < c.inbox[i].e < s.published
        ensures c.inbox[i].Batch? ==> HarmlessBatch(s, h, c.inbox[i].es)
      {
        InboxIsAhead(s, i);
      }
    }
  }

  /** A read that does not return `h` leaves the cursor where no known cursor reads it. */
  lemma ReadIsHarmless(s: State, h: nat)
    requires Hole(s, h) && Enabled(s, ResumeRead) && h !in ReadBatch(s, s.conn.value.base.value)
    ensures HarmlessBatch(s, h, ReadBatch(s, s.conn.value.base.value))
  {
    var b := s.conn.value.base.value;
    var from := ReadsFrom(s, b);
    ReadRange(s, b);
    RangeMember(from, Min(s.published, from + EventBus.MAX_REPLAY_EVENTS), h);
  }

  lemma HoleStaysOnRead(s: State, h: nat)
    requires Hole(s, h) && Enabled(s, ResumeRead) && h !in ReadBatch(s, s.conn.value.base.value)
    ensures Hole(Next(s, ResumeRead), h)
  {
    ReadIsHarmless(s, h);
  }

  lemma HoleStaysOnTake(s: State, h: nat)
    requires Hole(s, h) && Enabled(s, Take)
    ensures Hole(Next(s, Take), h)
  {
    var c := s.conn.value;
    assert forall i :: 0 <= i < |c.inbox| - 1 ==> c.inbox[1..][i] == c.inbox[i + 1];
  }

  lemma HoleStaysOnFanOut(s: State, h: nat)
    requires Hole(s, h) && Enabled(s, FanOut)
    ensures Hole(Next(s, FanOut), h)
  {
  }

  lemma HoleStaysOnPublish(s: State, h: nat)
    requires Hole(s, h)
    ensures Hole(Next(s, Publish), h)
  {
  }

  lemma HoleStaysOnEmit(s: State, h: nat)
    requires Hole(s, h) && Enabled(s, ResumeEmit)
    ensures Hole(Next(s, ResumeEmit), h)
  {
  }

  lemma HoleStaysOnConnection(s: State, op: Op, h: nat)
    requires Hole(s, h) && Enabled(s, op)
    requires op.Connect? || op.Disconnect? || op.SubscribeJoin? || op.ResumeJoin? || op.ResumeReadFails?
    ensures Hole(Next(s, op), h)
  {
  }

  /** A missed event behind the cursor is never delivered by any step, unless a read returns it. */
  lemma HoleStays(s: State, op: Op, h: nat)
    requires Hole(s, h) && Enabled(s, op) && (op.ResumeRead? ==> h !in ReadBatch(s, s.conn.value.base.value))
    ensures Hole(Next(s, op), h)
  {
    match op
    case Publish => HoleStaysOnPublish(s, h);
    case Trim(_) =>
    case FanOut => HoleStaysOnFanOut(s, h);
    case ResumeRead => HoleStaysOnRead(s, h);
    case ResumeEmit => HoleStaysOnEmit(s, h);
    case Take => HoleStaysOnTake(s, h);
    case _ => HoleStaysOnConnection(s, op, h);
  }

  /** No read of the run returns `h`. */
  predicate NeverReadBack(s: State, ops: seq<Op>, h: nat)
    requires CanRun(s, ops)
    decreases |ops|
  {
    ops == [] || (
      && (ops[0].ResumeRead? ==> h !in ReadBatch(s, s.conn.value.base.value))
      && NeverReadBack(Next(s, ops[0]), ops[1..], h))
  }

  lemma {:induction false} HoleIsForever(s: State, ops: seq<Op>, h: nat)
    requires Hole(s, h) && CanRun(s, ops) && NeverReadBack(s, ops, h)
    ensures Hole(Run(s, ops), h)
    decreases |ops|
  {
    if ops != [] {
      HoleStays(s, ops[0], h);
      HoleIsForever(Next(s, ops[0]), ops[1..], h);
    }
  }

  /**
   * Once the cursor has passed over a missed event, no continuation, reconnects included, is complete again,
   * unless a read returns that event.
   */
  lemma PassedOverIsLost(ops: seq<Op>, h: nat, more: seq<Op>)
    requires CanRun(START, ops) && OnlyIntactDrops(START, ops) && PassedOver(Run(START, ops), h)
    requires CanRun(Run(START, ops), more) && NeverReadBack(Run(START, ops), more, h)
    ensures h !in Run(Run(START, ops), more).received && !Complete(Run(Run(START, ops), more))
  {
    RunKeeps(START, ops);
    PassedOverIsHole(Run(START, ops), h);
    HoleIsForever(Run(START, ops), more, h);
  }

  /**
   * The exception: a read returns a missed event behind the cursor exactly when the cursor is unknown and the
   * event is among the oldest 500 of the stream, which then holds more than 1000.
   */
  lemma ReadsBackExactly(s: State, h: nat)
    requires Hole(s, h) && Enabled(s, ResumeRead)
    ensures var b := s.conn.value.base.value;
      h in ReadBatch(s, b) <==> !Known(s, b) && s.trimmed <= h < s.trimmed + EventBus.MAX_REPLAY_EVENTS
    ensures h in ReadBatch(s, s.conn.value.base.value) ==> s.published - s.trimmed > EventBus.EVENT_STREAM_MAXLEN
  {
    var b := s.conn.value.base.value;
    var from := ReadsFrom(s, b);
    ReadRange(s, b);
    RangeMember(from, Min(s.published, from + EventBus.MAX_REPLAY_EVENTS), h);
  }

  /** Every read finds the stream trimmed to its 1000 entries. */
  predicate ReadsTrimmed(s: State, ops: seq<Op>)
    requires CanRun(s, ops)
    decreases |ops|
  {
    ops == [] || (
      && (ops[0].ResumeRead? ==> s.published - s.trimmed <= EventBus.EVENT_STREAM_MAXLEN)
      && ReadsTrimmed(Next(s, ops[0]), ops[1..]))
  }

  lemma {:induction false} TrimmedNeverReadsBack(s: State, ops: seq<Op>, h: nat)
    requires Hole(s, h) && CanRun(s, ops) && ReadsTrimmed(s, ops)
    ensures NeverReadBack(s, ops, h)
    decreases |ops|
  {
    if ops != [] {
      if ops[0].ResumeRead? {
        ReadsBackExactly(s, h);
      }
      HoleStays(s, ops[0], h);
      TrimmedNeverReadsBack(Next(s, ops[0]), ops[1..], h);
    }
  }

  /** Dropping a connection that is not intact passes over an event. */
  lemma BrokenDropPassesOver(s: State) returns (h: nat)
    requires Inv(s) && s.conn.Some? && !Intact(s)
    ensures PassedOver(Next(s, Disconnect), h)
  {
    h :| s.first.value <= h <= s.cursor.value && h !in s.received;
    var c := s.conn.value;
    assert c.base.Some? ==> h !in c.before;
  }

  lemma HoleWithoutConnection(s: State, h: nat)
    requires StreamInv(s) && s.conn.None? && PassedOver(s, h)
    ensures Hole(s, h)
  {
  }

  /**
   * Dropping a connection that is not intact loses an event for good: however many reconnects follow, none of
   * them is ever complete again, as long as replays read a stream that is trimmed to its 1000 entries.
   */
  lemma BrokenDropIsNeverRepaired(ops: seq<Op>, more: seq<Op>)
    requires CanRun(START, ops) && OnlyIntactDrops(START, ops)
    requires Run(START, ops).conn.Some? && !Intact(Run(START, ops))
    requires CanRun(Next(Run(START, ops), Disconnect), more)
    requires ReadsTrimmed(Next(Run(START, ops), Disconnect), more)
    ensures !Complete(Run(Next(Run(START, ops), Disconnect), more))
  {
    RunKeeps(START, ops);
    var s := Run(START, ops);
    var t := Next(s, Disconnect);
    var h := BrokenDropPassesOver(s);
    HoleWithoutConnection(t, h);
    TrimmedNeverReadsBack(t, more, h);
    HoleIsForever(t, more, h);
  }

  // ---- All of this does come up ----------------------------------------------------

  lemma {:induction false} RunSnoc(s: State, ops: seq<Op>, op: Op)
    requires CanRun(s, ops) && OnlyIntactDrops(s, ops) && Enabled(Run(s, ops), op)
    requires op.Disconnect? ==> Intact(Run(s, ops))
    ensures CanRun(s, ops + [op]) && OnlyIntactDrops(s, ops + [op]) && Run(s, ops + [op]) == Next(Run(s, ops), op)
    decreases |ops|
  {
    if ops == [] {
      assert [op][1..] == [] && ops + [op] == [op];
    } else {
      assert (ops + [op])[1..] == ops[1..] + [op];
      RunSnoc(Next(s, ops[0]), ops[1..], op);
    }
  }

  /** `s` comes after `a`, by intact drops only. */
  ghost predicate ReachesFrom(a: State, s: State) {
    exists ops :: CanRun(a, ops) && OnlyIntactDrops(a, ops) && Run(a, ops) == s
  }

  ghost predicate Reaches(s: State) {
    ReachesFrom(START, s)
  }

  lemma ReachesSelf(a: State)
    ensures ReachesFrom(a, a)
  {
    assert CanRun(a, []) && OnlyIntactDrops(a, []) && Run(a, []) == a;
  }

  lemma ReachesNext(a: State, s: State, op: Op)
    requires ReachesFrom(a, s) && Enabled(s, op) && (op.Disconnect? ==> Intact(s))
    ensures ReachesFrom(a, Next(s, op))
  {
    var ops :| CanRun(a, ops) && OnlyIntactDrops(a, ops) && Run(a, ops) == s;
    RunSnoc(a, ops, op);
  }

  /** Events published and fanned out while the client is away. */
  lemma {:induction false} GoneFor(a: State, s: State, n: nat)
    requires ReachesFrom(a, s) && s.conn.None? && s.fanned == s.published
    ensures ReachesFrom(a, s.(published := s.published + n, fanned := s.fanned + n))
    decreases n
  {
    if n > 0 {
      GoneFor(a, s, n - 1);
      var t := s.(published := s.published + n - 1, fanned := s.fanned + n - 1);
      ReachesNext(a, t, Publish);
      ReachesNext(a, Next(t, Publish), FanOut);
    } else {
      assert s.(published := s.published + n, fanned := s.fanned + n) == s;
    }
  }

  /** One event published, fanned out and taken. */
  lemma TakeNew(a: State, s: State) returns (t: State)
    requires ReachesFrom(a, s) && s.conn.Some? && s.conn.value.inRoom && s.conn.value.inbox == []
    requires s.fanned == s.published == s.conn.value.nextLive
    ensures ReachesFrom(a, t)
    ensures t == s.(published := s.published + 1, fanned := s.fanned + 1, cursor := Some(s.fanned),
                    received := s.received + {s.fanned},
                    first := if s.first.None? then Some(s.fanned) else s.first,
                    conn := Some(s.conn.value.(nextLive := s.fanned + 1, last := ByLive)))
  {
    ReachesNext(a, s, Publish);
    var b := Next(s, Publish);
    ReachesNext(a, b, FanOut);
    var c := Next(b, FanOut);
    assert c.conn.value.inbox == [Live(s.fanned)] && c.conn.value.inbox[1..] == [];
    assert (set e | e in [s.fanned]) == {s.fanned};
    ReachesNext(a, c, Take);
    t := Next(c, Take);
  }

  /** The client got event 0 and left. */
  lemma GotFirst() returns (s: State)
    ensures Reaches(s) && s == State(1, 1, 0, Some(0), {0}, Some(0), None)
  {
    ReachesSelf(START);
    ReachesNext(START, START, Connect);
    var s1 := Next(START, Connect);
    ReachesNext(START, s1, SubscribeJoin);
    var s2 := TakeNew(START, Next(s1, SubscribeJoin));
    assert s2.received == {0};
    ReachesNext(START, s2, Disconnect);
    s := Next(s2, Disconnect);
  }

  /** It missed `n` more, is back, and its resume has joined the room. */
  lemma Missed(n: nat) returns (s: State)
    ensures Reaches(s)
    ensures s == State(n + 1, n + 1, 0, Some(0), {0}, Some(0),
                       Some(Conn(Some(0), Joined, true, [], {0}, n + 1, n + 1, 0, 0, false, Nothing)))
  {
    var a := GotFirst();
    GoneFor(START, a, n);
    var b := a.(published := n + 1, fanned := n + 1);
    assert b == a.(published := a.published + n, fanned := a.fanned + n);
    ReachesNext(START, b, Connect);
    var c := Next(b, Connect);
    ReachesNext(START, c, ResumeJoin);
    s := Next(c, ResumeJoin);
  }

  /** A connection that is not intact: one event missed, a later one delivered live, no replay yet. */
  lemma BrokenDropCanHappen()
    ensures exists s :: Reaches(s) && s.conn.Some? && !Intact(s)
  {
    var s := Missed(1);
    var t := TakeNew(START, s);
    assert !Intact(t) by {
      assert 1 !in t.received;
    }
  }

  /** A failed read: the event missed is passed over by the next live one. */
  lemma FailedReadCanHappen()
    ensures exists s :: Reaches(s) && s.conn.Some? && PassedOver(s, 1)
  {
    var s := Missed(1);
    ReachesNext(START, s, ResumeReadFails);
    var t := TakeNew(START, Next(s, ResumeReadFails));
    assert PassedOver(t, 1);
  }

  lemma ReadHolds(s: State, from: nat, to: nat)
    requires Enabled(s, ResumeRead) && from < to && ReadBatch(s, s.conn.value.base.value) == Range(from, to)
    ensures Next(s, ResumeRead)
         == s.(conn := Some(s.conn.value.(resume := HasRead(Range(from, to)), readFrom := from, readTo := to)))
  {
    var batch := Range(from, to);
    assert batch != [] && batch[0] == from && batch[|batch| - 1] == to - 1;
  }

  lemma EmitSends(s: State, from: nat, to: nat)
    requires s.conn.Some? && s.conn.value.inbox == [] && from < to
    requires s.conn.value.resume == HasRead(Range(from, to))
    ensures Next(s, ResumeEmit) == s.(conn := Some(s.conn.value.(
              resume := Done, replayed := false, inbox := [Batch(Range(from, to)), ResumeComplete])))
  {
    assert Range(from, to) != [];
    assert [] + Sent(Range(from, to)) == [Batch(Range(from, to)), ResumeComplete];
  }

  /** The replay is read and sent. */
  lemma SendReplay(a: State, s: State, from: nat, to: nat) returns (t: State)
    requires ReachesFrom(a, s) && Enabled(s, ResumeRead) && s.conn.value.inbox == [] && from < to
    requires ReadBatch(s, s.conn.value.base.value) == Range(from, to)
    ensures ReachesFrom(a, t)
    ensures t == s.(conn := Some(s.conn.value.(resume := Done, readFrom := from, readTo := to, replayed := false,
                                               inbox := [Batch(Range(from, to)), ResumeComplete])))
  {
    ReachesNext(a, s, ResumeRead);
    ReadHolds(s, from, to);
    var b := Next(s, ResumeRead);
    ReachesNext(a, b, ResumeEmit);
    EmitSends(b, from, to);
    t := Next(b, ResumeEmit);
  }

  /** The client takes what its replay read, and the end of the resume. */
  lemma TakeSent(a: State, s: State, from: nat, to: nat) returns (t: State)
    requires ReachesFrom(a, s) && s.conn.Some? && s.first.Some? && from < to
    requires s.conn.value.inbox == [Batch(Range(from, to)), ResumeComplete]
    ensures ReachesFrom(a, t)
    ensures t == s.(cursor := Some((to - 1) as nat), received := t.received,
                    conn := Some(s.conn.value.(replayed := true, last := ByBatch, inbox := [])))
    ensures forall e: nat :: e in t.received <==> e in s.received || from <= e < to
  {
    ReachesNext(a, s, Take);
    var b := Next(s, Take);
    ReceiveBatch(s, from, to);
    assert b.conn.value.inbox == [ResumeComplete];
    ReachesNext(a, b, Take);
    t := Next(b, Take);
    assert t.conn.value.inbox == [];
  }

  lemma TakeReplay(a: State, s: State) returns (t: State)
    requires ReachesFrom(a, s) && Enabled(s, ResumeRead) && s.conn.value.inbox == [] && s.first.Some?
    requires s.conn.value.base.value < s.published && ReadsFrom(s, s.conn.value.base.value) < s.published
    ensures ReachesFrom(a, t)
    ensures var from := ReadsFrom(s, s.conn.value.base.value);
      var to := Min(s.published, from + EventBus.MAX_REPLAY_EVENTS);
      && t == s.(cursor := Some((to - 1) as nat), received := t.received,
                 conn := Some(s.conn.value.(resume := Done, readFrom := from, readTo := to,
                                            replayed := true, last := ByBatch)))
      && forall e: nat :: e in t.received <==> e in s.received || from <= e < to
  {
    var from := ReadsFrom(s, s.conn.value.base.value);
    var to := Min(s.published, from + EventBus.MAX_REPLAY_EVENTS);
    ReadRange(s, s.conn.value.base.value);
    var b := SendReplay(a, s, from, to);
    t := TakeSent(a, b, from, to);
  }

  /** A gap of more than 500 events: the replay ends at 500, and the next live event passes over the rest. */
  lemma LongGapCanHappen()
    ensures exists s, h :: Reaches(s) && s.conn.Some? && s.conn.value.readFrom < s.conn.value.readTo && PassedOver(s, h)
  {
    var s := Missed(600);
    var t := TakeReplay(START, s);
    var u := TakeNew(START, t);
    assert PassedOver(u, 501);
  }

  /** Event `h`, passed over by dropping connection state `u`, is back in `t`. */
  ghost predicate ReadBack(u: State, t: State, h: nat) {
    && Reaches(u) && u.conn.Some? && PassedOver(Next(u, Disconnect), h)
    && ReachesFrom(Next(u, Disconnect), t) && h in t.received
  }

  /** The exception comes up as well: an event passed over is read back from a stream longer than 1000 entries. */
  lemma ReadBackCanHappen()
    ensures exists u, t, h :: ReadBack(u, t, h)
  {
    var m := Missed(1);
    var u := TakeNew(START, m);
    var s := Next(u, Disconnect);
    assert PassedOver(s, 1);
    ReachesSelf(s);
    GoneFor(s, s, 1100);
    var a := s.(published := s.published + 1100, fanned := s.fanned + 1100);
    ReachesNext(s, a, Connect);
    var b := Next(a, Connect);
    ReachesNext(s, b, ResumeJoin);
    var t := TakeReplay(s, Next(b, ResumeJoin));
    assert ReadBack(u, t, 1);
  }
}
