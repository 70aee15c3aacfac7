// apps/signal/src/gateway.ts: per-socket state, rooms and presence announcements.
// A handler is split at its awaits; each piece between two awaits is one step. Awaiting
// validateSession first reads and writes nothing, so a handler starts here once it returned true.
module Gateway {
  import opened Common
  import ChannelAccess

  datatype UserStatus = Online | Idle | Dnd | Invisible | Offline

  function Mask(status: UserStatus): UserStatus {
    if status == Invisible then Offline else status
  }

  datatype SocketState = SocketState(userId: string, subscribed: set<string>, status: UserStatus, statusKnown: bool)

  /** Where a suspended handler will continue. */
  datatype Handler =
    | AwaitingAccess(ids: seq<string>)
    | AwaitingResumeAccess(channels: seq<string>)
    | Replaying(rest: seq<string>, allowed: set<string>, rejoined: set<string>)
    | Announcing

  /** One `socket.to(rooms).emit("gateway:presence", ...)`. */
  datatype Broadcast = Broadcast(rooms: set<string>, status: UserStatus)

  /**
   * A live socket: the user its session belongs to, its entry in `socketStates`, its `gateway:`
   * rooms, `socket.data.userId`, its suspended handlers, what it broadcast, and what it was granted.
   */
  datatype Sock = Sock(
    userId: string,
    state: Option<SocketState>,
    rooms: set<string>,
    dataUserId: Option<string>,
    handlers: map<nat, Handler>,
    sent: seq<Broadcast>,
    granted: set<string>)

  function NewSock(userId: string): Sock {
    Sock(userId, None, {}, None, map[], [], {})
  }

  // ---- The steps, as functions of the socket ---------------------------------

  function GetOrCreateState(s: Sock): SocketState {
    if s.state.None? then SocketState(s.userId, {}, Online, false) else s.state.value.(userId := s.userId)
  }

  function BroadcastPresence(s: Sock, channels: set<string>): Sock {
    if s.state.None? || !s.state.value.statusKnown || channels == {} then s
    else s.(sent := s.sent + [Broadcast(channels, Mask(s.state.value.status))])
  }

  function Subscribed(s: Sock, h: nat, valid: seq<string>): Sock {
    var state := GetOrCreateState(s);
    var joined := Elements(valid);
    BroadcastPresence(
      s.(state := Some(state.(subscribed := state.subscribed + joined)), rooms := s.rooms + joined,
         dataUserId := Some(s.userId), handlers := s.handlers - {h}, granted := s.granted + joined),
      joined - state.subscribed)
  }

  function Unsubscribed(s: Sock, ids: set<string>): Sock {
    if s.state.None? then s
    else s.(state := Some(s.state.value.(subscribed := s.state.value.subscribed - ids)), rooms := s.rooms - ids)
  }

  function PresenceWritten(s: Sock, h: nat, status: UserStatus): Sock {
    if s.state.None? then s
    else s.(state := Some(s.state.value.(status := status, statusKnown := true)),
            handlers := s.handlers[h := Announcing])
  }

  function InitWritten(s: Sock, h: nat, status: UserStatus): Sock {
    s.(state := Some(GetOrCreateState(s).(status := status, statusKnown := true)),
       dataUserId := Some(s.userId), handlers := s.handlers[h := Announcing])
  }

  function Announced(s: Sock, h: nat): Sock {
    var t := s.(handlers := s.handlers - {h});
    if s.state.None? then t else BroadcastPresence(t, s.state.value.subscribed)
  }

  /** The resume loop from the next entry on: join it and suspend on its replay, or finish. */
  function ResumeFrom(s: Sock, h: nat, rest: seq<string>, allowed: set<string>, rejoined: set<string>): Sock
    requires s.state.Some?
    decreases |rest|
  {
    if rest == [] then BroadcastPresence(s.(handlers := s.handlers - {h}), rejoined)
    else if rest[0] !in allowed then ResumeFrom(s, h, rest[1..], allowed, rejoined)
    else
      var subscribed := s.state.value.subscribed;
      s.(rooms := s.rooms + {rest[0]},
         state := Some(s.state.value.(subscribed := subscribed + {rest[0]})),
         handlers := s.handlers[h := Replaying(rest[1..], allowed, rejoined + ({rest[0]} - subscribed))])
  }

  /** The socket as the resume loop finds it. */
  function ResumeReady(s: Sock, valid: seq<string>): (r: Sock)
    ensures r.state.Some?
  {
    s.(state := Some(GetOrCreateState(s)), dataUserId := Some(s.userId), granted := s.granted + Elements(valid))
  }

  function ResumeGranted(s: Sock, h: nat, channels: seq<string>, valid: seq<string>): Sock {
    ResumeFrom(ResumeReady(s, valid), h, channels, Elements(valid), {})
  }

  /** What revokeChannelAccess does to one socket, `listed` when fetchSockets had returned it. */
  function Revoked(s: Sock, target: string, channel: string, listed: bool): Sock {
    s.(rooms := if listed && s.dataUserId == Some(target) then s.rooms - {channel} else s.rooms,
       state := if s.state.Some? && s.state.value.userId == target
                then Some(s.state.value.(subscribed := s.state.value.subscribed - {channel}))
                else s.state)
  }

  datatype SockOp =
    | StartSubscribe(h: nat, ids: seq<string>)
    | AccessReplied(h: nat, configured: bool, reply: ChannelAccess.Reply)
    | Unsubscribe(ids: seq<string>)
    | Presence(h: nat, status: UserStatus)
    | Init(h: nat, status: UserStatus)
    | RedisDone(h: nat)
    | StartResume(h: nat, channels: seq<string>)
    | ReplayDone(h: nat)

  /** A new handler takes an unused number; a continuation resumes a handler suspended at that await. */
  predicate Enabled(s: Sock, op: SockOp) {
    match op
    case StartSubscribe(h, _) => h !in s.handlers
    case AccessReplied(h, _, _) =>
      h in s.handlers && (s.handlers[h].AwaitingAccess? || s.handlers[h].AwaitingResumeAccess?)
    case Unsubscribe(_) => true
    case Presence(h, _) => h !in s.handlers
    case Init(h, _) => h !in s.handlers
    case RedisDone(h) => h in s.handlers && s.handlers[h].Announcing?
    case StartResume(h, _) => h !in s.handlers
    case ReplayDone(h) => h in s.handlers && s.handlers[h].Replaying? && s.state.Some?
  }

  function Step(s: Sock, op: SockOp): Sock
    requires Enabled(s, op)
  {
    match op
    case StartSubscribe(h, ids) => s.(handlers := s.handlers[h := AwaitingAccess(ids)])
    case AccessReplied(h, configured, reply) =>
      (match s.handlers[h]
       case AwaitingAccess(ids) => Subscribed(s, h, ChannelAccess.Granted(s.userId, configured, reply, ids))
       case AwaitingResumeAccess(channels) =>
         ResumeGranted(s, h, channels, ChannelAccess.Granted(s.userId, configured, reply, channels)))
    case Unsubscribe(ids) => Unsubscribed(s, Elements(ids))
    case Presence(h, status) => PresenceWritten(s, h, status)
    case Init(h, status) => InitWritten(s, h, status)
    case RedisDone(h) => Announced(s, h)
    case StartResume(h, channels) => s.(handlers := s.handlers[h := AwaitingResumeAccess(channels)])
    case ReplayDone(h) => ResumeFrom(s, h, s.handlers[h].rest, s.handlers[h].allowed, s.handlers[h].rejoined)
  }

  // ---- What every step keeps --------------------------------------------------

  /** The status of the last broadcast of this socket that reached `c`. */
  function LastSent(sent: seq<Broadcast>, c: string): Option<UserStatus> {
    if sent == [] then None
    else if c in sent[|sent| - 1].rooms then Some(sent[|sent| - 1].status)
    else LastSent(sent[..|sent| - 1], c)
  }

  /** A handler past its status write, or a resume that rejoined `c`, broadcasts to `c` before it ends. */
  predicate Promises(handler: Handler, c: string) {
    handler.Announcing? || (handler.Replaying? && c in handler.rejoined)
  }

  /** A suspended handler will still broadcast this socket's status to `c`. */
  ghost predicate WillAnnounce(s: Sock, c: string) {
    exists h :: h in s.handlers && Promises(s.handlers[h], c)
  }

  /** The last status `c` saw from this socket is its current one, `invisible` shown as `offline`. */
  predicate UpToDate(s: Sock, c: string)
    requires s.state.Some?
  {
    LastSent(s.sent, c) == Some(Mask(s.state.value.status))
  }

  ghost predicate PresenceInv(s: Sock) {
    && (s.state.None? || !s.state.value.statusKnown ==>
          s.sent == [] && forall h :: h in s.handlers ==> !s.handlers[h].Announcing?)
    && (s.state.Some? && s.state.value.statusKnown ==>
          forall c :: c in s.state.value.subscribed ==> UpToDate(s, c) || WillAnnounce(s, c))
    && (forall i :: 0 <= i < |s.sent| ==> s.sent[i].status != Invisible && s.sent[i].rooms <= s.granted)
  }

  ghost predicate RoomInv(s: Sock) {
    && (s.state.None? ==>
          s.rooms == {} && s.dataUserId.None? && forall h :: h in s.handlers ==> !s.handlers[h].Replaying?)
    && (s.state.Some? ==> s.state.value.userId == s.userId && s.dataUserId == Some(s.userId))
    && (s.state.Some? ==> s.state.value.subscribed <= s.rooms)
    && s.rooms <= s.granted
    && (forall h :: h in s.handlers && s.handlers[h].Replaying? ==>
          s.handlers[h].allowed <= s.granted && s.handlers[h].rejoined <= s.granted)
    && (forall c :: c in s.granted && ChannelAccess.IsUserChannel(c) ==> ChannelAccess.OwnsUserChannel(s.userId, c))
  }

  /** Rooms and bookkeeping agree. */
  predicate RoomsMatch(s: Sock) {
    s.rooms == if s.state.Some? then s.state.value.subscribed else {}
  }

  ghost predicate SockInv(s: Sock) {
    RoomInv(s) && PresenceInv(s)
  }

  // ---- Proof that every step keeps them --------------------------------------

  /** A broadcast brings its rooms up to date and leaves what the others saw last. */
  lemma BroadcastReaches(s: Sock, channels: set<string>, c: string)
    requires s.state.Some?
    ensures var t := BroadcastPresence(s, channels);
            && t == s.(sent := t.sent)
            && (c in channels && s.state.value.statusKnown ==> UpToDate(t, c))
            && (c !in channels ==> LastSent(t.sent, c) == LastSent(s.sent, c))
  {
  }

  lemma BroadcastKeepsLog(s: Sock, channels: set<string>)
    requires s.state.Some? && channels <= s.granted
    requires forall i :: 0 <= i < |s.sent| ==> s.sent[i].status != Invisible && s.sent[i].rooms <= s.granted
    ensures var t := BroadcastPresence(s, channels);
            forall i :: 0 <= i < |t.sent| ==> t.sent[i].status != Invisible && t.sent[i].rooms <= t.granted
  {
  }

  lemma SubscribedKeeps(s: Sock, h: nat, valid: seq<string>)
    requires SockInv(s) && h in s.handlers && s.handlers[h].AwaitingAccess?
    requires forall c :: c in valid && ChannelAccess.IsUserChannel(c) ==> ChannelAccess.OwnsUserChannel(s.userId, c)
    ensures SockInv(Subscribed(s, h, valid))
  {
    var state := GetOrCreateState(s);
    var joined := Elements(valid);
    var newly := joined - state.subscribed;
    var mid := s.(state := Some(state.(subscribed := state.subscribed + joined)), rooms := s.rooms + joined,
                  dataUserId := Some(s.userId), handlers := s.handlers - {h}, granted := s.granted + joined);
    var t := Subscribed(s, h, valid);
    BroadcastKeepsLog(mid, newly);
    BroadcastReaches(mid, newly, "");
    if state.statusKnown {
      forall c | c in t.state.value.subscribed ensures UpToDate(t, c) || WillAnnounce(t, c) {
        BroadcastReaches(mid, newly, c);
        if c !in newly {
          assert UpToDate(s, c) || WillAnnounce(s, c);
          if !UpToDate(s, c) {
            var k :| k in s.handlers && Promises(s.handlers[k], c);
            assert k in t.handlers && t.handlers[k] == s.handlers[k];
          }
        }
      }
    }
  }

  /** The announcement at the end of init and presence shows every subscribed channel the current status. */
  lemma AnnouncedKeeps(s: Sock, h: nat)
    requires SockInv(s) && h in s.handlers && s.handlers[h].Announcing?
    ensures SockInv(Announced(s, h))
    ensures var t := Announced(s, h);
      t.state == s.state && t.state.Some? && forall c :: c in t.state.value.subscribed ==> UpToDate(t, c)
  {
  }

  /** The invariant in the middle of a resume: handler `h` has stopped waiting and holds `rejoined`. */
  ghost predicate MidResume(s: Sock, h: nat, allowed: set<string>, rejoined: set<string>) {
    && RoomInv(s) && s.state.Some? && s.dataUserId == Some(s.userId)
    && allowed <= s.granted && rejoined <= s.granted
    && (!s.state.value.statusKnown ==> s.sent == [] && forall k :: k in s.handlers ==> !s.handlers[k].Announcing?)
    && (forall i :: 0 <= i < |s.sent| ==> s.sent[i].status != Invisible && s.sent[i].rooms <= s.granted)
    && h in s.handlers && !s.handlers[h].Announcing?
    && (s.state.value.statusKnown ==> forall c :: c in s.state.value.subscribed ==>
          UpToDate(s, c) || c in rejoined || exists k :: k in s.handlers && k != h && Promises(s.handlers[k], c))
  }

  lemma ResumeFinishKeeps(s: Sock, h: nat, allowed: set<string>, rejoined: set<string>)
    requires MidResume(s, h, allowed, rejoined)
    ensures SockInv(ResumeFrom(s, h, [], allowed, rejoined))
  {
    var mid := s.(handlers := s.handlers - {h});
    var t := BroadcastPresence(mid, rejoined);
    BroadcastKeepsLog(mid, rejoined);
    BroadcastReaches(mid, rejoined, "");
    if s.state.value.statusKnown {
      forall c | c in t.state.value.subscribed ensures UpToDate(t, c) || WillAnnounce(t, c) {
        BroadcastReaches(mid, rejoined, c);
        if c !in rejoined && !UpToDate(s, c) {
          var k :| k in s.handlers && k != h && Promises(s.handlers[k], c);
          assert k in t.handlers && t.handlers[k] == s.handlers[k];
        }
      }
    }
  }

  lemma ResumeJoinKeeps(s: Sock, h: nat, rest: seq<string>, allowed: set<string>, rejoined: set<string>)
    requires MidResume(s, h, allowed, rejoined) && rest != [] && rest[0] in allowed
    ensures SockInv(ResumeFrom(s, h, rest, allowed, rejoined))
  {
    var t := ResumeFrom(s, h, rest, allowed, rejoined);
    if s.state.value.statusKnown {
      forall c | c in t.state.value.subscribed ensures UpToDate(t, c) || WillAnnounce(t, c) {
        if c in t.handlers[h].rejoined {
          assert WillAnnounce(t, c);
        } else if !UpToDate(s, c) {
          var k :| k in s.handlers && k != h && Promises(s.handlers[k], c);
          assert k in t.handlers && t.handlers[k] == s.handlers[k];
        }
      }
    }
  }

  lemma {:induction false} ResumeKeeps(s: Sock, h: nat, rest: seq<string>, allowed: set<string>, rejoined: set<string>)
    requires MidResume(s, h, allowed, rejoined)
    ensures SockInv(ResumeFrom(s, h, rest, allowed, rejoined))
    ensures ResumeFrom(s, h, rest, allowed, rejoined).userId == s.userId
    decreases |rest|
  {
    if rest == [] {
      ResumeFinishKeeps(s, h, allowed, rejoined);
    } else if rest[0] in allowed {
      ResumeJoinKeeps(s, h, rest, allowed, rejoined);
    } else {
      ResumeKeeps(s, h, rest[1..], allowed, rejoined);
    }
  }

  lemma ResumeGrantedKeeps(s: Sock, h: nat, channels: seq<string>, valid: seq<string>)
    requires SockInv(s) && h in s.handlers && s.handlers[h].AwaitingResumeAccess?
    requires forall c :: c in valid && ChannelAccess.IsUserChannel(c) ==> ChannelAccess.OwnsUserChannel(s.userId, c)
    ensures SockInv(ResumeGranted(s, h, channels, valid)) && ResumeGranted(s, h, channels, valid).userId == s.userId
  {
    var mid := ResumeReady(s, valid);
    if mid.state.value.statusKnown {
      forall c | c in mid.state.value.subscribed && !UpToDate(mid, c)
        ensures exists k :: k in mid.handlers && k != h && Promises(mid.handlers[k], c)
      {
        assert WillAnnounce(s, c);
      }
    }
    ResumeKeeps(mid, h, channels, Elements(valid), {});
  }

  /** A status write leaves every channel, subscribed later or already, owed an announcement. */
  lemma WrittenKeeps(s: Sock, h: nat, status: UserStatus)
    requires SockInv(s) && h !in s.handlers
    ensures SockInv(InitWritten(s, h, status)) && SockInv(PresenceWritten(s, h, status))
    ensures forall c :: WillAnnounce(InitWritten(s, h, status), c)
    ensures s.state.Some? ==> forall c :: WillAnnounce(PresenceWritten(s, h, status), c)
  {
    forall t | t == InitWritten(s, h, status) || (s.state.Some? && t == PresenceWritten(s, h, status))
      ensures PresenceInv(t) && forall c :: WillAnnounce(t, c)
    {
      assert h in t.handlers && t.handlers[h].Announcing?;
      assert forall c :: WillAnnounce(t, c);
    }
  }

  lemma StartedKeeps(s: Sock, h: nat, handler: Handler)
    requires SockInv(s) && h !in s.handlers && (handler.AwaitingAccess? || handler.AwaitingResumeAccess?)
    ensures SockInv(s.(handlers := s.handlers[h := handler]))
  {
    var t := s.(handlers := s.handlers[h := handler]);
    forall c | WillAnnounce(s, c) ensures WillAnnounce(t, c) {
      var k :| k in s.handlers && Promises(s.handlers[k], c);
      assert k in t.handlers && t.handlers[k] == s.handlers[k];
    }
  }

  /** Every step of every handler, in any interleaving, keeps the socket invariant. */
  lemma StepKeeps(s: Sock, op: SockOp)
    requires SockInv(s) && Enabled(s, op)
    ensures SockInv(Step(s, op)) && Step(s, op).userId == s.userId
  {
    match op
    case StartSubscribe(h, ids) => StartedKeeps(s, h, AwaitingAccess(ids));
    case AccessReplied(h, configured, reply) =>
      forall ids, c | c in ChannelAccess.Granted(s.userId, configured, reply, ids) && ChannelAccess.IsUserChannel(c)
        ensures ChannelAccess.OwnsUserChannel(s.userId, c)
      {
        ChannelAccess.GrantedExactly(s.userId, configured, reply, ids, c);
      }
      match s.handlers[h] {
        case AwaitingAccess(ids) => SubscribedKeeps(s, h, ChannelAccess.Granted(s.userId, configured, reply, ids));
        case AwaitingResumeAccess(channels) =>
          ResumeGrantedKeeps(s, h, channels, ChannelAccess.Granted(s.userId, configured, reply, channels));
      }
    case Unsubscribe(ids) =>
      forall c | WillAnnounce(s, c) ensures WillAnnounce(Step(s, op), c) {}
    case Presence(h, status) => WrittenKeeps(s, h, status);
    case Init(h, status) => WrittenKeeps(s, h, status);
    case RedisDone(h) => AnnouncedKeeps(s, h);
    case StartResume(h, channels) => StartedKeeps(s, h, AwaitingResumeAccess(channels));
    case ReplayDone(h) =>
      var handler := s.handlers[h];
      ResumeKeeps(s, h, handler.rest, handler.allowed, handler.rejoined);
  }

  // ---- Rooms, bookkeeping and revocation --------------------------------------

  lemma {:induction false} ResumeKeepsMatch(
      s: Sock, h: nat, rest: seq<string>, allowed: set<string>, rejoined: set<string>)
    requires s.state.Some? && RoomsMatch(s)
    ensures RoomsMatch(ResumeFrom(s, h, rest, allowed, rejoined))
    decreases |rest|
  {
    if rest != [] && rest[0] !in allowed {
      ResumeKeepsMatch(s, h, rest[1..], allowed, rejoined);
    }
  }

  lemma StepKeepsMatch(s: Sock, op: SockOp)
    requires SockInv(s) && RoomsMatch(s) && Enabled(s, op)
    ensures RoomsMatch(Step(s, op))
  {
    match op
    case ReplayDone(h) => ResumeKeepsMatch(s, h, s.handlers[h].rest, s.handlers[h].allowed, s.handlers[h].rejoined);
    case AccessReplied(h, configured, reply) =>
      if s.handlers[h].AwaitingResumeAccess? {
        var channels := s.handlers[h].channels;
        var valid := ChannelAccess.Granted(s.userId, configured, reply, channels);
        ResumeKeepsMatch(ResumeReady(s, valid), h, channels, Elements(valid), {});
      }
    case _ =>
  }

  /**
   * Revoking keeps the invariant, and it keeps rooms and bookkeeping in agreement exactly when it did
   * not miss the socket: a socket of the target user that is in the room must have been fetched.
   */
  lemma RevokedExactly(s: Sock, target: string, channel: string, listed: bool)
    requires SockInv(s)
    ensures SockInv(Revoked(s, target, channel, listed)) && Revoked(s, target, channel, listed).userId == s.userId
    ensures RoomsMatch(s) ==>
        (RoomsMatch(Revoked(s, target, channel, listed)) <==> !(s.userId == target && channel in s.rooms && !listed))
  {
  }

  // ---- The whole gateway of one replica ----------------------------------------

  /** A revokeChannelAccess call suspended on fetchSockets, with the sockets that call returns. */
  datatype Revocation = Revocation(target: string, channel: string, listed: set<string>)

  datatype Replica = Replica(socks: map<string, Sock>, revocations: map<nat, Revocation>)

  datatype Op =
    | Connect(sid: string, userId: string)
    | Disconnect(sid: string)
    | On(sid: string, op: SockOp)
    | FetchSockets(r: nat, target: string, channel: string)
    | FinishRevoke(r: nat)

  predicate OpEnabled(g: Replica, op: Op) {
    match op
    case Connect(sid, _) => sid !in g.socks
    case Disconnect(sid) => sid in g.socks
    case On(sid, o) => sid in g.socks && Enabled(g.socks[sid], o)
    case FetchSockets(r, _, _) => r !in g.revocations
    case FinishRevoke(r) => r in g.revocations
  }

  function InRoom(g: Replica, channel: string): set<string> {
    set sid | sid in g.socks && channel in g.socks[sid].rooms
  }

  function RevokeAll(socks: map<string, Sock>, rv: Revocation): map<string, Sock> {
    map sid | sid in socks :: Revoked(socks[sid], rv.target, rv.channel, sid in rv.listed)
  }

  function Next(g: Replica, op: Op): Replica
    requires OpEnabled(g, op)
  {
    match op
    case Connect(sid, userId) => g.(socks := g.socks[sid := NewSock(userId)])
    case Disconnect(sid) => g.(socks := g.socks - {sid})
    case On(sid, o) => g.(socks := g.socks[sid := Step(g.socks[sid], o)])
    case FetchSockets(r, target, channel) =>
      g.(revocations := g.revocations[r := Revocation(target, channel, InRoom(g, channel))])
    case FinishRevoke(r) =>
      g.(socks := RevokeAll(g.socks, g.revocations[r]), revocations := g.revocations - {r})
  }

  predicate CanRun(g: Replica, ops: seq<Op>)
    decreases |ops|
  {
    ops == [] || (OpEnabled(g, ops[0]) && CanRun(Next(g, ops[0]), ops[1..]))
  }

  function Run(g: Replica, ops: seq<Op>): Replica
    requires CanRun(g, ops)
    decreases |ops|
  {
    if ops == [] then g else Run(Next(g, ops[0]), ops[1..])
  }

  ghost predicate ReplicaInv(g: Replica) {
    forall sid :: sid in g.socks ==> SockInv(g.socks[sid])
  }

  ghost predicate AllMatch(g: Replica) {
    forall sid :: sid in g.socks ==> RoomsMatch(g.socks[sid])
  }

  /** The revocation about to finish has fetched every socket of its user that is in the room now. */
  predicate NotOvertaken(g: Replica, op: Op)
    requires OpEnabled(g, op)
  {
    op.FinishRevoke? ==>
      var rv := g.revocations[op.r];
      forall sid :: sid in g.socks && g.socks[sid].userId == rv.target && rv.channel in g.socks[sid].rooms ==>
        sid in rv.listed
  }

  predicate NeverOvertaken(g: Replica, ops: seq<Op>)
    requires CanRun(g, ops)
    decreases |ops|
  {
    ops == [] || (NotOvertaken(g, ops[0]) && NeverOvertaken(Next(g, ops[0]), ops[1..]))
  }

  /** One step of the replica; rooms and bookkeeping stay in agreement iff no revocation was overtaken. */
  lemma NextKeeps(g: Replica, op: Op)
    requires ReplicaInv(g) && OpEnabled(g, op)
    ensures ReplicaInv(Next(g, op))
    ensures AllMatch(g) ==> (AllMatch(Next(g, op)) <==> NotOvertaken(g, op))
  {
    match op
    case Connect(sid, userId) =>
    case Disconnect(sid) =>
    case On(sid, o) =>
      StepKeeps(g.socks[sid], o);
      if AllMatch(g) { StepKeepsMatch(g.socks[sid], o); }
    case FetchSockets(r, target, channel) =>
    case FinishRevoke(r) =>
      var rv := g.revocations[r];
      var t := Next(g, op);
      forall sid | sid in g.socks
        ensures SockInv(t.socks[sid])
        ensures RoomsMatch(g.socks[sid]) ==>
          (RoomsMatch(t.socks[sid]) <==>
            !(g.socks[sid].userId == rv.target && rv.channel in g.socks[sid].rooms && sid !in rv.listed))
      {
        RevokedExactly(g.socks[sid], rv.target, rv.channel, sid in rv.listed);
      }
      assert t.socks.Keys == g.socks.Keys;
  }

  lemma {:induction false} RunKeeps(g: Replica, ops: seq<Op>)
    requires ReplicaInv(g) && CanRun(g, ops)
    ensures ReplicaInv(Run(g, ops))
    ensures AllMatch(g) && NeverOvertaken(g, ops) ==> AllMatch(Run(g, ops))
    decreases |ops|
  {
    if ops != [] {
      NextKeeps(g, ops[0]);
      RunKeeps(Next(g, ops[0]), ops[1..]);
    }
  }

  const BOOT := Replica(map[], map[])

  /**
   * No presence announcement is lost, whatever the interleaving: once no handler of the socket still
   * owes `c` a broadcast, what `c` saw last is the socket's current status (never `invisible`).
   */
  lemma NoAnnouncementLost(ops: seq<Op>, sid: string, c: string)
    requires CanRun(BOOT, ops)
    requires var g := Run(BOOT, ops);
      && sid in g.socks && g.socks[sid].state.Some?
      && g.socks[sid].state.value.statusKnown && c in g.socks[sid].state.value.subscribed
    ensures var s := Run(BOOT, ops).socks[sid]; UpToDate(s, c) || WillAnnounce(s, c)
  {
    RunKeeps(BOOT, ops);
  }

  /**
   * Nothing leaves a socket before its status is known, nothing says `invisible`, and nothing goes to a room that
   * the socket was never granted.
   */
  lemma NothingSentTooEarly(ops: seq<Op>, sid: string)
    requires CanRun(BOOT, ops) && sid in Run(BOOT, ops).socks
    ensures var s := Run(BOOT, ops).socks[sid];
      && (s.state.None? || !s.state.value.statusKnown ==> s.sent == [])
      && forall i :: 0 <= i < |s.sent| ==> s.sent[i].status != Invisible && s.sent[i].rooms <= s.granted
  {
    RunKeeps(BOOT, ops);
  }

  /**
   * A live socket is only in rooms it was granted, `user:x` only with user x, and in all those it is subscribed
   * to; it is in exactly those unless a revocation was overtaken.
   */
  lemma RoomsAreGranted(ops: seq<Op>, sid: string)
    requires CanRun(BOOT, ops) && sid in Run(BOOT, ops).socks
    ensures var s := Run(BOOT, ops).socks[sid];
      && s.rooms <= s.granted
      && (forall c :: c in s.rooms && ChannelAccess.IsUserChannel(c) ==> ChannelAccess.OwnsUserChannel(s.userId, c))
      && (s.state.Some? ==> s.state.value.subscribed <= s.rooms)
      && (NeverOvertaken(BOOT, ops) ==> RoomsMatch(s))
  {
    RunKeeps(BOOT, ops);
    assert RoomInv(Run(BOOT, ops).socks[sid]);
  }

  // ---- A revoked user stays out --------------------------------------------------

  /** A resume suspended on a replay will still join `c`, by the grant it holds. */
  predicate WillRejoin(handler: Handler, c: string) {
    handler.Replaying? && c in handler.rest && c in handler.allowed
  }

  ghost predicate CanReenter(s: Sock, c: string) {
    exists h :: h in s.handlers && WillRejoin(s.handlers[h], c)
  }

  /** The step is the reply to a membership check that grants `c`. */
  predicate Grants(s: Sock, op: SockOp, c: string)
    requires Enabled(s, op)
  {
    op.AccessReplied? &&
      match s.handlers[op.h]
      case AwaitingAccess(ids) => c in ChannelAccess.Granted(s.userId, op.configured, op.reply, ids)
      case AwaitingResumeAccess(channels) => c in ChannelAccess.Granted(s.userId, op.configured, op.reply, channels)
  }

  lemma {:induction false} ResumeStaysOut(
      s: Sock, h: nat, rest: seq<string>, allowed: set<string>, rejoined: set<string>, c: string)
    requires s.state.Some? && !(c in rest && c in allowed)
    requires forall k :: k in s.handlers && k != h ==> !WillRejoin(s.handlers[k], c)
    ensures var t := ResumeFrom(s, h, rest, allowed, rejoined);
      (c !in s.rooms ==> c !in t.rooms) && !CanReenter(t, c)
    decreases |rest|
  {
    if rest != [] {
      assert rest == [rest[0]] + rest[1..];
      if rest[0] !in allowed {
        ResumeStaysOut(s, h, rest[1..], allowed, rejoined, c);
      }
    }
  }

  /** Without a grant, a socket with no such resume gets none, and stays out of `c` if it is out. */
  lemma StepStaysOut(s: Sock, op: SockOp, c: string)
    requires Enabled(s, op) && !CanReenter(s, c) && !Grants(s, op, c)
    ensures (c !in s.rooms ==> c !in Step(s, op).rooms) && !CanReenter(Step(s, op), c)
  {
    match op
    case ReplayDone(h) =>
      ResumeStaysOut(s, h, s.handlers[h].rest, s.handlers[h].allowed, s.handlers[h].rejoined, c);
    case AccessReplied(h, configured, reply) =>
      if s.handlers[h].AwaitingResumeAccess? {
        var channels := s.handlers[h].channels;
        var valid := ChannelAccess.Granted(s.userId, configured, reply, channels);
        ResumeStaysOut(ResumeReady(s, valid), h, channels, Elements(valid), {}, c);
      }
    case _ =>
  }

  /** No socket of the user is in the room. */
  ghost predicate Out(g: Replica, target: string, c: string) {
    forall sid :: sid in g.socks && g.socks[sid].userId == target ==> c !in g.socks[sid].rooms
  }

  ghost predicate NoneReenters(g: Replica, target: string, c: string) {
    forall sid :: sid in g.socks && g.socks[sid].userId == target ==> !CanReenter(g.socks[sid], c)
  }

  /** No membership check of the user is answered with a grant of `c` during the run. */
  predicate NoGrant(g: Replica, ops: seq<Op>, target: string, c: string)
    requires CanRun(g, ops)
    decreases |ops|
  {
    ops == [] || (
      && (ops[0].On? && g.socks[ops[0].sid].userId == target ==> !Grants(g.socks[ops[0].sid], ops[0].op, c))
      && NoGrant(Next(g, ops[0]), ops[1..], target, c))
  }

  lemma {:induction false} NextStaysOut(g: Replica, op: Op, target: string, c: string)
    requires ReplicaInv(g) && OpEnabled(g, op) && Out(g, target, c) && NoneReenters(g, target, c)
    requires op.On? && g.socks[op.sid].userId == target ==> !Grants(g.socks[op.sid], op.op, c)
    ensures Out(Next(g, op), target, c) && NoneReenters(Next(g, op), target, c)
  {
    if op.On? {
      StepKeeps(g.socks[op.sid], op.op);
      if g.socks[op.sid].userId == target {
        StepStaysOut(g.socks[op.sid], op.op, c);
      }
    }
  }

  lemma {:induction false} RunStaysOut(g: Replica, ops: seq<Op>, target: string, c: string)
    requires ReplicaInv(g) && CanRun(g, ops) && NoGrant(g, ops, target, c)
    requires Out(g, target, c) && NoneReenters(g, target, c)
    ensures Out(Run(g, ops), target, c)
    decreases |ops|
  {
    if ops != [] {
      NextKeeps(g, ops[0]);
      NextStaysOut(g, ops[0], target, c);
      RunStaysOut(Next(g, ops[0]), ops[1..], target, c);
    }
  }

  /** A suspended resume either joins `c` next or comes one entry closer to it. */
  lemma {:induction false} ResumeReaches(
      s: Sock, h: nat, rest: seq<string>, allowed: set<string>, rejoined: set<string>, c: string)
    requires s.state.Some? && c in rest && c in allowed
    ensures var t := ResumeFrom(s, h, rest, allowed, rejoined);
      c in t.rooms || (h in t.handlers && WillRejoin(t.handlers[h], c) && |t.handlers[h].rest| < |rest|)
    decreases |rest|
  {
    assert rest == [rest[0]] + rest[1..];
    if rest[0] !in allowed {
      ResumeReaches(s, h, rest[1..], allowed, rejoined, c);
    }
  }

  /** The replays of a suspended resume, one after the other, bring the socket back in without a new grant. */
  lemma {:induction false} ReplaysReenter(g: Replica, sid: string, h: nat, c: string) returns (ops: seq<Op>)
    requires ReplicaInv(g) && sid in g.socks && h in g.socks[sid].handlers && WillRejoin(g.socks[sid].handlers[h], c)
    ensures CanRun(g, ops) && NoGrant(g, ops, g.socks[sid].userId, c)
    ensures !Out(Run(g, ops), g.socks[sid].userId, c)
    decreases |g.socks[sid].handlers[h].rest|
  {
    var s, op := g.socks[sid], On(sid, ReplayDone(h));
    var handler := s.handlers[h];
    assert s.state.Some?;
    NextKeeps(g, op);
    StepKeeps(s, ReplayDone(h));
    ResumeReaches(s, h, handler.rest, handler.allowed, handler.rejoined, c);
    var more := [];
    if c !in Next(g, op).socks[sid].rooms {
      more := ReplaysReenter(Next(g, op), sid, h, c);
    }
    ops := [op] + more;
    assert ops[1..] == more;
  }

  /** However the replica goes on, no socket of the user comes back into the room without a new grant. */
  ghost predicate StaysOut(g: Replica, target: string, c: string) {
    forall ops :: CanRun(g, ops) && NoGrant(g, ops, target, c) ==> Out(Run(g, ops), target, c)
  }

  lemma StaysOutExactly(g: Replica, target: string, c: string)
    requires ReplicaInv(g) && Out(g, target, c)
    ensures StaysOut(g, target, c) <==> NoneReenters(g, target, c)
  {
    if NoneReenters(g, target, c) {
      forall ops | CanRun(g, ops) && NoGrant(g, ops, target, c) ensures Out(Run(g, ops), target, c) {
        RunStaysOut(g, ops, target, c);
      }
    } else {
      var sid :| sid in g.socks && g.socks[sid].userId == target && CanReenter(g.socks[sid], c);
      var h :| h in g.socks[sid].handlers && WillRejoin(g.socks[sid].handlers[h], c);
      var ops := ReplaysReenter(g, sid, h, c);
    }
  }

  /**
   * A revocation that was not overtaken takes the user out of the room, and without a new grant the user stays
   * out, exactly when no resume of the user is suspended with the channel still ahead of it and already allowed.
   */
  lemma RevokedStaysOut(ops: seq<Op>, r: nat)
    requires CanRun(BOOT, ops) && r in Run(BOOT, ops).revocations
    requires NotOvertaken(Run(BOOT, ops), FinishRevoke(r))
    ensures var g, rv := Run(BOOT, ops), Run(BOOT, ops).revocations[r];
      && Out(Next(g, FinishRevoke(r)), rv.target, rv.channel)
      && (StaysOut(Next(g, FinishRevoke(r)), rv.target, rv.channel) <==> NoneReenters(g, rv.target, rv.channel))
  {
    var g := Run(BOOT, ops);
    var rv, t := g.revocations[r], Next(g, FinishRevoke(r));
    RunKeeps(BOOT, ops);
    NextKeeps(g, FinishRevoke(r));
    RevokeEmptiesRoom(g, r);
    StaysOutExactly(t, rv.target, rv.channel);
  }

  lemma RevokeEmptiesRoom(g: Replica, r: nat)
    requires ReplicaInv(g) && r in g.revocations && NotOvertaken(g, FinishRevoke(r))
    ensures var rv, t := g.revocations[r], Next(g, FinishRevoke(r));
      && Out(t, rv.target, rv.channel)
      && (NoneReenters(t, rv.target, rv.channel) <==> NoneReenters(g, rv.target, rv.channel))
  {
    var rv, t := g.revocations[r], Next(g, FinishRevoke(r));
    assert t.socks.Keys == g.socks.Keys;
    forall sid | sid in g.socks && g.socks[sid].userId == rv.target
      ensures rv.channel !in t.socks[sid].rooms
      ensures CanReenter(t.socks[sid], rv.channel) <==> CanReenter(g.socks[sid], rv.channel)
    {
      assert t.socks[sid].handlers == g.socks[sid].handlers;
    }
  }

  // ---- What a revoked room still sees ---------------------------------------------

  /** The step broadcasts to `c`. */
  predicate Announces(s: Sock, op: SockOp, c: string)
    requires Enabled(s, op)
  {
    var sent := Step(s, op).sent;
    |sent| > |s.sent| && c in sent[|sent| - 1].rooms
  }

  /** A suspended resume that has rejoined `c`, or still will, announces itself there at its end. */
  predicate OwesRoom(handler: Handler, c: string) {
    WillRejoin(handler, c) || (handler.Replaying? && c in handler.rejoined)
  }

  ghost predicate Owes(s: Sock, c: string) {
    exists h :: h in s.handlers && OwesRoom(s.handlers[h], c)
  }

  /** Out of the room, of the bookkeeping and of every suspended resume. */
  ghost predicate Quiet(s: Sock, c: string) {
    c !in s.rooms && (s.state.Some? ==> c !in s.state.value.subscribed) && !Owes(s, c)
  }

  lemma {:induction false} ResumeStaysQuiet(
      s: Sock, h: nat, rest: seq<string>, allowed: set<string>, rejoined: set<string>, c: string)
    requires s.state.Some? && c !in s.rooms && c !in s.state.value.subscribed
    requires !(c in rest && c in allowed) && c !in rejoined
    requires forall k :: k in s.handlers && k != h ==> !OwesRoom(s.handlers[k], c)
    ensures var t := ResumeFrom(s, h, rest, allowed, rejoined);
      Quiet(t, c) && (|t.sent| > |s.sent| ==> c !in t.sent[|t.sent| - 1].rooms)
    decreases |rest|
  {
    if rest != [] {
      assert rest == [rest[0]] + rest[1..];
      if rest[0] !in allowed {
        ResumeStaysQuiet(s, h, rest[1..], allowed, rejoined, c);
      }
    }
  }

  /** Without a grant a quiet socket stays quiet and does not announce itself in `c`. */
  lemma StepStaysQuiet(s: Sock, op: SockOp, c: string)
    requires Enabled(s, op) && Quiet(s, c) && !Grants(s, op, c)
    ensures Quiet(Step(s, op), c) && !Announces(s, op, c)
  {
    match op
    case ReplayDone(h) =>
      ResumeStaysQuiet(s, h, s.handlers[h].rest, s.handlers[h].allowed, s.handlers[h].rejoined, c);
    case AccessReplied(h, configured, reply) =>
      if s.handlers[h].AwaitingResumeAccess? {
        var channels := s.handlers[h].channels;
        var valid := ChannelAccess.Granted(s.userId, configured, reply, channels);
        ResumeStaysQuiet(ResumeReady(s, valid), h, channels, Elements(valid), {}, c);
      }
    case _ =>
  }

  ghost predicate AllQuiet(g: Replica, target: string, c: string) {
    forall sid :: sid in g.socks && g.socks[sid].userId == target ==> Quiet(g.socks[sid], c)
  }

  /** No socket of the user announces itself in `c` during the run. */
  predicate SilentRun(g: Replica, ops: seq<Op>, target: string, c: string)
    requires CanRun(g, ops)
    decreases |ops|
  {
    ops == [] || (
      && (ops[0].On? && g.socks[ops[0].sid].userId == target ==> !Announces(g.socks[ops[0].sid], ops[0].op, c))
      && SilentRun(Next(g, ops[0]), ops[1..], target, c))
  }

  lemma {:induction false} NextStaysQuiet(g: Replica, op: Op, target: string, c: string)
    requires ReplicaInv(g) && OpEnabled(g, op) && AllQuiet(g, target, c)
    requires op.On? && g.socks[op.sid].userId == target ==> !Grants(g.socks[op.sid], op.op, c)
    ensures AllQuiet(Next(g, op), target, c)
    ensures op.On? && g.socks[op.sid].userId == target ==> !Announces(g.socks[op.sid], op.op, c)
  {
    if op.On? {
      StepKeeps(g.socks[op.sid], op.op);
      if g.socks[op.sid].userId == target {
        StepStaysQuiet(g.socks[op.sid], op.op, c);
      }
    } else if op.FinishRevoke? {
      forall sid | sid in g.socks && g.socks[sid].userId == target ensures Quiet(Next(g, op).socks[sid], c) {
        assert Next(g, op).socks[sid].handlers == g.socks[sid].handlers;
      }
    }
  }

  lemma {:induction false} RunStaysQuiet(g: Replica, ops: seq<Op>, target: string, c: string)
    requires ReplicaInv(g) && CanRun(g, ops) && NoGrant(g, ops, target, c) && AllQuiet(g, target, c)
    ensures SilentRun(g, ops, target, c)
    decreases |ops|
  {
    if ops != [] {
      NextKeeps(g, ops[0]);
      NextStaysQuiet(g, ops[0], target, c);
      RunStaysQuiet(Next(g, ops[0]), ops[1..], target, c);
    }
  }

  /** The next replay of a resume that owes `c`: it announces itself in `c`, or comes one entry closer to that. */
  lemma {:induction false} ResumeOwes(
      s: Sock, h: nat, rest: seq<string>, allowed: set<string>, rejoined: set<string>, c: string)
    requires s.state.Some? && s.state.value.statusKnown
    requires c in rejoined || (c in rest && c in allowed && c !in s.state.value.subscribed)
    ensures var t := ResumeFrom(s, h, rest, allowed, rejoined);
      || (|t.sent| > |s.sent| && c in t.sent[|t.sent| - 1].rooms)
      || (&& t.state.Some? && t.state.value.statusKnown && t.sent == s.sent
          && h in t.handlers && t.handlers[h].Replaying? && |t.handlers[h].rest| < |rest|
          && (c in t.handlers[h].rejoined || (WillRejoin(t.handlers[h], c) && c !in t.state.value.subscribed)))
    decreases |rest|
  {
    if rest != [] {
      assert rest == [rest[0]] + rest[1..];
      if rest[0] !in allowed {
        ResumeOwes(s, h, rest[1..], allowed, rejoined, c);
      }
    }
  }

  /** The replays of a resume that owes `c`, one after the other, end in an announcement there. */
  lemma {:induction false} ReplaysAnnounce(g: Replica, sid: string, h: nat, c: string) returns (ops: seq<Op>)
    requires ReplicaInv(g) && sid in g.socks && h in g.socks[sid].handlers && g.socks[sid].handlers[h].Replaying?
    requires g.socks[sid].state.Some? && g.socks[sid].state.value.statusKnown
    requires c in g.socks[sid].handlers[h].rejoined
          || (WillRejoin(g.socks[sid].handlers[h], c) && c !in g.socks[sid].state.value.subscribed)
    ensures CanRun(g, ops) && NoGrant(g, ops, g.socks[sid].userId, c)
    ensures !SilentRun(g, ops, g.socks[sid].userId, c)
    decreases |g.socks[sid].handlers[h].rest|
  {
    var s, op := g.socks[sid], On(sid, ReplayDone(h));
    var handler := s.handlers[h];
    NextKeeps(g, op);
    StepKeeps(s, ReplayDone(h));
    ResumeOwes(s, h, handler.rest, handler.allowed, handler.rejoined, c);
    var more := [];
    if !Announces(s, ReplayDone(h), c) {
      more := ReplaysAnnounce(Next(g, op), sid, h, c);
    }
    ops := [op] + more;
    assert ops[1..] == more;
  }

  lemma UnusedHandler(s: Sock) returns (h: nat)
    ensures h !in s.handlers
  {
    h := 0;
    var seen: set<nat> := {};
    while h in s.handlers
      invariant seen <= s.handlers.Keys && forall k: nat :: k in seen <==> k < h
      decreases s.handlers.Keys - seen
    {
      seen := seen + {h};
      h := h + 1;
    }
  }

  /** An announcement in `c` without a new grant: gateway:init if the status is unknown, then the replays. */
  lemma OwedIsAnnounced(g: Replica, sid: string, h: nat, c: string) returns (ops: seq<Op>)
    requires ReplicaInv(g) && sid in g.socks && h in g.socks[sid].handlers && OwesRoom(g.socks[sid].handlers[h], c)
    requires g.socks[sid].state.Some? && c !in g.socks[sid].state.value.subscribed
    ensures CanRun(g, ops) && NoGrant(g, ops, g.socks[sid].userId, c)
    ensures !SilentRun(g, ops, g.socks[sid].userId, c)
  {
    if g.socks[sid].state.value.statusKnown {
      ops := ReplaysAnnounce(g, sid, h, c);
    } else {
      var k := UnusedHandler(g.socks[sid]);
      var init := On(sid, Init(k, Online));
      NextKeeps(g, init);
      var more := ReplaysAnnounce(Next(g, init), sid, h, c);
      ops := [init] + more;
      assert ops[1..] == more;
    }
  }

  /** However the replica goes on, the user does not announce itself in the room without a new grant. */
  ghost predicate StaysSilent(g: Replica, target: string, c: string) {
    forall ops :: CanRun(g, ops) && NoGrant(g, ops, target, c) ==> SilentRun(g, ops, target, c)
  }

  ghost predicate NoneOwes(g: Replica, target: string, c: string) {
    forall sid :: sid in g.socks && g.socks[sid].userId == target ==> !Owes(g.socks[sid], c)
  }

  lemma StaysSilentExactly(g: Replica, target: string, c: string)
    requires ReplicaInv(g) && Out(g, target, c)
    ensures StaysSilent(g, target, c) <==> NoneOwes(g, target, c)
  {
    forall sid | sid in g.socks && g.socks[sid].userId == target
      ensures g.socks[sid].state.Some? ==> c !in g.socks[sid].state.value.subscribed
    {
      assert RoomInv(g.socks[sid]);
    }
    if NoneOwes(g, target, c) {
      forall ops | CanRun(g, ops) && NoGrant(g, ops, target, c) ensures SilentRun(g, ops, target, c) {
        RunStaysQuiet(g, ops, target, c);
      }
    } else {
      var sid :| sid in g.socks && g.socks[sid].userId == target && Owes(g.socks[sid], c);
      var h :| h in g.socks[sid].handlers && OwesRoom(g.socks[sid].handlers[h], c);
      var ops := OwedIsAnnounced(g, sid, h, c);
    }
  }

  /**
   * After a revocation that was not overtaken the user's presence no longer reaches the room without a new
   * grant, exactly when no resume of the user is suspended that has rejoined the room or still will.
   */
  lemma RevokedStaysSilent(ops: seq<Op>, r: nat)
    requires CanRun(BOOT, ops) && r in Run(BOOT, ops).revocations
    requires NotOvertaken(Run(BOOT, ops), FinishRevoke(r))
    ensures var g, rv := Run(BOOT, ops), Run(BOOT, ops).revocations[r];
      StaysSilent(Next(g, FinishRevoke(r)), rv.target, rv.channel) <==> NoneOwes(g, rv.target, rv.channel)
  {
    var g := Run(BOOT, ops);
    var rv, t := g.revocations[r], Next(g, FinishRevoke(r));
    RunKeeps(BOOT, ops);
    NextKeeps(g, FinishRevoke(r));
    RevokeEmptiesRoom(g, r);
    RevokeKeepsOwing(g, r);
    StaysSilentExactly(t, rv.target, rv.channel);
  }

  lemma RevokeKeepsOwing(g: Replica, r: nat)
    requires r in g.revocations
    ensures var rv := g.revocations[r];
      NoneOwes(Next(g, FinishRevoke(r)), rv.target, rv.channel) <==> NoneOwes(g, rv.target, rv.channel)
  {
    var rv, t := g.revocations[r], Next(g, FinishRevoke(r));
    assert t.socks.Keys == g.socks.Keys;
    forall sid | sid in g.socks ensures Owes(t.socks[sid], rv.channel) <==> Owes(g.socks[sid], rv.channel) {
      assert t.socks[sid].handlers == g.socks[sid].handlers;
    }
  }

  lemma RunCons(g: Replica, op: Op, ops: seq<Op>)
    requires OpEnabled(g, op) && CanRun(Next(g, op), ops)
    ensures CanRun(g, [op] + ops) && Run(g, [op] + ops) == Run(Next(g, op), ops)
    ensures NeverOvertaken(g, [op] + ops) <==> NotOvertaken(g, op) && NeverOvertaken(Next(g, op), ops)
  {
    assert ([op] + ops)[1..] == ops;
  }

  ghost predicate LeavesMismatch(g: Replica, ops: seq<Op>, sid: string, c: string) {
    && CanRun(g, ops) && !NeverOvertaken(g, ops)
    && sid in Run(g, ops).socks && c in Run(g, ops).socks[sid].rooms && !RoomsMatch(Run(g, ops).socks[sid])
  }

  /** A subscribe granted before the fetch but carried out after it, then the revocation. */
  function Race(userId: string, c: string): seq<Op> {
    [FetchSockets(0, userId, c)] + ([On("s", AccessReplied(0, true, ChannelAccess.Allowed([c])))] + [FinishRevoke(0)])
  }

  lemma RaceLeavesMismatch(g: Replica, userId: string, c: string)
    requires !ChannelAccess.IsUserChannel(c) && g.revocations == map[]
    requires g.socks == map["s" := NewSock(userId).(handlers := map[0 := AwaitingAccess([c])])]
    ensures LeavesMismatch(g, Race(userId, c), "s", c)
  {
    var reply := ChannelAccess.Allowed([c]);
    ChannelAccess.GrantedExactly(userId, true, reply, [c], c);
    var g1 := Next(g, FetchSockets(0, userId, c));
    var g2 := Next(g1, On("s", AccessReplied(0, true, reply)));
    assert c in g2.socks["s"].rooms && "s" !in g2.revocations[0].listed;
    RunCons(g2, FinishRevoke(0), []);
    assert [FinishRevoke(0)] + [] == [FinishRevoke(0)];
    RunCons(g1, On("s", AccessReplied(0, true, reply)), [FinishRevoke(0)]);
    RunCons(g, FetchSockets(0, userId, c), [On("s", AccessReplied(0, true, reply))] + [FinishRevoke(0)]);
  }

  /** The condition is needed: the overtaken socket stays in the room. */
  lemma OvertakenRevocation(userId: string, c: string)
    requires !ChannelAccess.IsUserChannel(c)
    ensures exists ops :: LeavesMismatch(BOOT, ops, "s", c)
  {
    var g1 := Next(BOOT, Connect("s", userId));
    var g2 := Next(g1, On("s", StartSubscribe(0, [c])));
    RaceLeavesMismatch(g2, userId, c);
    RunCons(g1, On("s", StartSubscribe(0, [c])), Race(userId, c));
    RunCons(BOOT, Connect("s", userId), [On("s", StartSubscribe(0, [c]))] + Race(userId, c));
    assert LeavesMismatch(BOOT, [Connect("s", userId)] + ([On("s", StartSubscribe(0, [c]))] + Race(userId, c)), "s", c);
  }

  ghost predicate LeavesReentry(g: Replica, ops: seq<Op>, r: nat) {
    && CanRun(g, ops) && r in Run(g, ops).revocations && NotOvertaken(Run(g, ops), FinishRevoke(r))
    && !NoneReenters(Run(g, ops), Run(g, ops).revocations[r].target, Run(g, ops).revocations[r].channel)
  }

  /** A resume is granted `d` and `c` and replays `d` first; then `c` is revoked. */
  function RevokedMidResume(userId: string, c: string, d: string): seq<Op> {
    [On("s", AccessReplied(0, true, ChannelAccess.Allowed([d, c])))] + [FetchSockets(0, userId, c)]
  }

  lemma GrantedMidResume(userId: string, c: string, d: string)
    requires !ChannelAccess.IsUserChannel(c) && !ChannelAccess.IsUserChannel(d) && c != d
    ensures var s := NewSock(userId).(handlers := map[0 := AwaitingResumeAccess([d, c])]);
      var t := Step(s, AccessReplied(0, true, ChannelAccess.Allowed([d, c])));
      t.rooms == {d} && 0 in t.handlers && WillRejoin(t.handlers[0], c) && t.userId == userId
  {
    var reply := ChannelAccess.Allowed([d, c]);
    ChannelAccess.GrantedExactly(userId, true, reply, [d, c], c);
    ChannelAccess.GrantedExactly(userId, true, reply, [d, c], d);
    assert [d, c][1..] == [c];
  }

  lemma MidResumeReenters(g: Replica, userId: string, c: string, d: string)
    requires !ChannelAccess.IsUserChannel(c) && !ChannelAccess.IsUserChannel(d) && c != d
    requires g.revocations == map[]
    requires g.socks == map["s" := NewSock(userId).(handlers := map[0 := AwaitingResumeAccess([d, c])])]
    ensures LeavesReentry(g, RevokedMidResume(userId, c, d), 0)
  {
    var join, fetch := On("s", AccessReplied(0, true, ChannelAccess.Allowed([d, c]))), FetchSockets(0, userId, c);
    GrantedMidResume(userId, c, d);
    var g1 := Next(g, join);
    var g2 := Next(g1, fetch);
    assert CanReenter(g2.socks["s"], c);
    RunCons(g1, fetch, []);
    assert [fetch] + [] == [fetch];
    RunCons(g, join, [fetch]);
  }

  /** Such a resume does come up. */
  lemma ReentryCanHappen(userId: string, c: string, d: string)
    requires !ChannelAccess.IsUserChannel(c) && !ChannelAccess.IsUserChannel(d) && c != d
    ensures exists ops :: LeavesReentry(BOOT, ops, 0)
  {
    var connect, ask := Connect("s", userId), On("s", StartResume(0, [d, c]));
    var rest := RevokedMidResume(userId, c, d);
    var g1 := Next(BOOT, connect);
    MidResumeReenters(Next(g1, ask), userId, c, d);
    RunCons(g1, ask, rest);
    RunCons(BOOT, connect, [ask] + rest);
    assert LeavesReentry(BOOT, [connect] + ([ask] + rest), 0);
  }

  ghost predicate LeavesEcho(g: Replica, ops: seq<Op>, r: nat) {
    && CanRun(g, ops) && r in Run(g, ops).revocations && NotOvertaken(Run(g, ops), FinishRevoke(r))
    && !NoneOwes(Run(g, ops), Run(g, ops).revocations[r].target, Run(g, ops).revocations[r].channel)
  }

  /** A resume is granted `c` and replays it; then `c` is revoked. */
  function RevokedMidReplay(userId: string, c: string): seq<Op> {
    [On("s", AccessReplied(0, true, ChannelAccess.Allowed([c])))] + [FetchSockets(0, userId, c)]
  }

  lemma MidReplayOwes(g: Replica, userId: string, c: string)
    requires !ChannelAccess.IsUserChannel(c) && g.revocations == map[]
    requires g.socks == map["s" := NewSock(userId).(handlers := map[0 := AwaitingResumeAccess([c])])]
    ensures LeavesEcho(g, RevokedMidReplay(userId, c), 0)
  {
    var reply := ChannelAccess.Allowed([c]);
    var join, fetch := On("s", AccessReplied(0, true, reply)), FetchSockets(0, userId, c);
    ChannelAccess.GrantedExactly(userId, true, reply, [c], c);
    var g1 := Next(g, join);
    var g2 := Next(g1, fetch);
    assert OwesRoom(g2.socks["s"].handlers[0], c);
    RunCons(g1, fetch, []);
    assert [fetch] + [] == [fetch];
    RunCons(g, join, [fetch]);
  }

  /** Such a resume does come up, even one that holds no entry to rejoin. */
  lemma EchoCanHappen(userId: string, c: string)
    requires !ChannelAccess.IsUserChannel(c)
    ensures exists ops :: LeavesEcho(BOOT, ops, 0)
  {
    var connect, ask, rest := Connect("s", userId), On("s", StartResume(0, [c])), RevokedMidReplay(userId, c);
    var g1 := Next(BOOT, connect);
    MidReplayOwes(Next(g1, ask), userId, c);
    RunCons(g1, ask, rest);
    RunCons(BOOT, connect, [ask] + rest);
    assert LeavesEcho(BOOT, [connect] + ([ask] + rest), 0);
  }

  // ---- The handlers themselves -------------------------------------------------

  const MAX_CHANNELS_PER_CALL: nat := 100

  class GatewayServer {
    var socks: map<string, Sock>
    var revocations: map<nat, Revocation>

    ghost function View(): Replica
      reads this
    {
      Replica(socks, revocations)
    }

    constructor ()
      ensures View() == BOOT
    {
      socks, revocations := map[], map[];
    }

    method OnConnection(sid: string, userId: string)
      requires sid !in socks
      modifies this
      ensures View() == Next(old(View()), Connect(sid, userId))
      ensures sid in socks && socks[sid] == Sock(userId, None, {}, None, map[], [], {})
    {
      socks := socks[sid := NewSock(userId)];
    }

    /** The socket has left its rooms; its state goes. */
    method OnDisconnect(sid: string)
      requires sid in socks
      modifies this
      ensures View() == Next(old(View()), Disconnect(sid))
    {
      socks := socks - {sid};
    }

    /** gateway:subscribe up to its membership check; refused payloads change nothing. */
    method OnSubscribe(sid: string, h: nat, ids: seq<string>) returns (accepted: bool)
      requires OpEnabled(View(), On(sid, StartSubscribe(h, ids)))
      modifies this
      ensures accepted <==> 0 < |ids| <= MAX_CHANNELS_PER_CALL && "" !in ids
      ensures View() == if accepted then Next(old(View()), On(sid, StartSubscribe(h, ids))) else old(View())
    {
      if ids == [] || |ids| > MAX_CHANNELS_PER_CALL { return false; }
      for i := 0 to |ids|
        invariant "" !in ids[..i]
      {
        if ids[i] == "" { return false; }
      }
      assert ids[..|ids|] == ids;
      socks := socks[sid := socks[sid].(handlers := socks[sid].handlers[h := AwaitingAccess(ids)])];
      accepted := true;
    }

    /** The rest of gateway:subscribe; the results are the payload of gateway:subscribed. */
    method OnSubscribeAccess(sid: string, h: nat, configured: bool, reply: ChannelAccess.Reply)
      returns (channelIds: seq<string>, denied: seq<string>)
      requires OpEnabled(View(), On(sid, AccessReplied(h, configured, reply))) && socks[sid].handlers[h].AwaitingAccess?
      modifies this
      ensures View() == Next(old(View()), On(sid, AccessReplied(h, configured, reply)))
      ensures channelIds
           == ChannelAccess.Granted(old(socks[sid]).userId, configured, reply, old(socks[sid]).handlers[h].ids)
      ensures multiset(channelIds) + multiset(denied) == multiset(old(socks[sid]).handlers[h].ids)
      ensures multiset(channelIds) !! multiset(denied)
    {
      var sock := socks[sid];
      var requested := sock.handlers[h].ids;
      channelIds := ChannelAccess.CheckChannelAccess(sock.userId, requested, configured, reply);
      denied := ChannelAccess.Denied(channelIds, requested);
      ChannelAccess.GrantSplitsRequest(sock.userId, configured, reply, requested);
      var state := GetOrCreateState(sock);
      var rooms, subscribed, newlyJoined := JoinChannels(sock.rooms, state.subscribed, channelIds);
      sock := sock.(state := Some(state.(subscribed := subscribed)), rooms := rooms, dataUserId := Some(sock.userId),
                    handlers := sock.handlers - {h}, granted := sock.granted + Elements(channelIds));
      socks := socks[sid := BroadcastPresence(sock, Elements(newlyJoined))];
    }

    /** The join loop of gateway:subscribe. */
    method JoinChannels(rooms0: set<string>, subscribed0: set<string>, channelIds: seq<string>)
      returns (rooms: set<string>, subscribed: set<string>, newlyJoined: seq<string>)
      ensures rooms == rooms0 + Elements(channelIds) && subscribed == subscribed0 + Elements(channelIds)
      ensures Elements(newlyJoined) == Elements(channelIds) - subscribed0
    {
      rooms, subscribed, newlyJoined := rooms0, subscribed0, [];
      for i := 0 to |channelIds|
        invariant rooms == rooms0 + Elements(channelIds[..i])
        invariant subscribed == subscribed0 + Elements(channelIds[..i])
        invariant Elements(newlyJoined) == Elements(channelIds[..i]) - subscribed0
      {
        var channelId := channelIds[i];
        assert channelIds[..i + 1] == channelIds[..i] + [channelId];
        if channelId !in subscribed {
          assert Elements(newlyJoined + [channelId]) == Elements(newlyJoined) + {channelId};
          newlyJoined := newlyJoined + [channelId];
        }
        rooms := rooms + {channelId};
        subscribed := subscribed + {channelId};
      }
      assert channelIds[..|channelIds|] == channelIds;
    }

    method OnUnsubscribe(sid: string, ids: seq<string>)
      requires sid in socks
      modifies this
      ensures View() == Next(old(View()), On(sid, Unsubscribe(ids)))
    {
      var sock := socks[sid];
      if sock.state.None? {
        assert socks[sid := sock] == socks;
        return;
      }
      var rooms, subscribed := sock.rooms, sock.state.value.subscribed;
      for i := 0 to |ids|
        invariant rooms == sock.rooms - Elements(ids[..i])
        invariant subscribed == sock.state.value.subscribed - Elements(ids[..i])
      {
        assert ids[..i + 1] == ids[..i] + [ids[i]];
        rooms := rooms - {ids[i]};
        subscribed := subscribed - {ids[i]};
      }
      assert ids[..|ids|] == ids;
      socks := socks[sid := sock.(state := Some(sock.state.value.(subscribed := subscribed)), rooms := rooms)];
    }

    /** gateway:presence up to its Redis write. */
    method OnPresence(sid: string, h: nat, status: UserStatus)
      requires OpEnabled(View(), On(sid, Presence(h, status)))
      modifies this
      ensures View() == Next(old(View()), On(sid, Presence(h, status)))
    {
      var sock := socks[sid];
      if sock.state.None? {
        assert socks[sid := sock] == socks;
        return;
      }
      var state := sock.state.value.(status := status, statusKnown := true);
      socks := socks[sid := sock.(state := Some(state), handlers := sock.handlers[h := Announcing])];
    }

    /** gateway:init up to its Redis write. */
    method OnInit(sid: string, h: nat, status: UserStatus)
      requires OpEnabled(View(), On(sid, Init(h, status)))
      modifies this
      ensures View() == Next(old(View()), On(sid, Init(h, status)))
    {
      var sock := socks[sid];
      var state := GetOrCreateState(sock);
      state := state.(status := status, statusKnown := true);
      sock := sock.(state := Some(state), dataUserId := Some(sock.userId), handlers := sock.handlers[h := Announcing]);
      socks := socks[sid := sock];
    }

    /** The end of gateway:init and gateway:presence. */
    method OnRedisDone(sid: string, h: nat)
      requires OpEnabled(View(), On(sid, RedisDone(h)))
      modifies this
      ensures View() == Next(old(View()), On(sid, RedisDone(h)))
    {
      var sock := socks[sid].(handlers := socks[sid].handlers - {h});
      if sock.state.Some? {
        sock := BroadcastPresence(sock, sock.state.value.subscribed);
      }
      socks := socks[sid := sock];
    }

    /** gateway:resume up to its membership check. */
    method OnResume(sid: string, h: nat, channels: seq<string>) returns (accepted: bool)
      requires OpEnabled(View(), On(sid, StartResume(h, channels)))
      modifies this
      ensures accepted <==> |channels| <= MAX_CHANNELS_PER_CALL
      ensures View() == if accepted then Next(old(View()), On(sid, StartResume(h, channels))) else old(View())
    {
      if |channels| > MAX_CHANNELS_PER_CALL { return false; }
      socks := socks[sid := socks[sid].(handlers := socks[sid].handlers[h := AwaitingResumeAccess(channels)])];
      accepted := true;
    }

    method OnResumeAccess(sid: string, h: nat, configured: bool, reply: ChannelAccess.Reply)
      requires OpEnabled(View(), On(sid, AccessReplied(h, configured, reply)))
      requires socks[sid].handlers[h].AwaitingResumeAccess?
      modifies this
      ensures View() == Next(old(View()), On(sid, AccessReplied(h, configured, reply)))
    {
      var sock := socks[sid];
      var channels := sock.handlers[h].channels;
      var valid := ChannelAccess.CheckChannelAccess(sock.userId, channels, configured, reply);
      sock := sock.(state := Some(GetOrCreateState(sock)), dataUserId := Some(sock.userId),
                    granted := sock.granted + Elements(valid));
      sock := ContinueResume(sock, h, channels, Elements(valid), {});
      socks := socks[sid := sock];
    }

    method OnReplayDone(sid: string, h: nat)
      requires OpEnabled(View(), On(sid, ReplayDone(h)))
      modifies this
      ensures View() == Next(old(View()), On(sid, ReplayDone(h)))
    {
      var handler := socks[sid].handlers[h];
      var sock := ContinueResume(socks[sid], h, handler.rest, handler.allowed, handler.rejoined);
      socks := socks[sid := sock];
    }

    /** The for loop of gateway:resume between two replays. */
    method ContinueResume(sock: Sock, h: nat, rest: seq<string>, allowed: set<string>, rejoined: set<string>)
      returns (r: Sock)
      requires sock.state.Some?
      ensures r == ResumeFrom(sock, h, rest, allowed, rejoined)
    {
      for i := 0 to |rest|
        invariant ResumeFrom(sock, h, rest, allowed, rejoined) == ResumeFrom(sock, h, rest[i..], allowed, rejoined)
      {
        var channelId := rest[i];
        if channelId !in allowed { continue; }
        var state := sock.state.value;
        var nowRejoined := if channelId !in state.subscribed then rejoined + {channelId} else rejoined;
        assert rejoined + ({channelId} - state.subscribed) == nowRejoined;
        return sock.(rooms := sock.rooms + {channelId},
                     state := Some(state.(subscribed := state.subscribed + {channelId})),
                     handlers := sock.handlers[h := Replaying(rest[i + 1..], allowed, nowRejoined)]);
      }
      r := BroadcastPresence(sock.(handlers := sock.handlers - {h}), rejoined);
    }

    /** revokeChannelAccess up to fetchSockets. */
    method RevokeFetch(r: nat, target: string, channel: string)
      requires r !in revocations
      modifies this
      ensures View() == Next(old(View()), FetchSockets(r, target, channel))
    {
      revocations := revocations[r := Revocation(target, channel, InRoom(Replica(socks, revocations), channel))];
    }

    /** The rest of revokeChannelAccess. */
    method RevokeFinish(r: nat)
      requires r in revocations
      modifies this
      ensures View() == Next(old(View()), FinishRevoke(r))
    {
      var rv := revocations[r];
      LeaveFetched(rv);
      DropBookkeeping(rv);
      assert socks == RevokeAll(old(socks), rv);
      revocations := revocations - {r};
    }

    /** Its first loop: every fetched socket of the target user leaves the room. */
    method LeaveFetched(rv: Revocation)
      modifies this`socks
      ensures socks.Keys == old(socks).Keys
      ensures forall sid :: sid in socks ==> socks[sid] == Left(old(socks)[sid], rv, sid in rv.listed)
    {
      var rest := rv.listed;
      while rest != {}
        invariant rest <= rv.listed && socks.Keys == old(socks).Keys
        invariant forall sid :: sid in socks ==> socks[sid] == Left(old(socks)[sid], rv, sid in rv.listed - rest)
        decreases |rest|
      {
        var sid :| sid in rest;
        rest := rest - {sid};
        if sid in socks && socks[sid].dataUserId == Some(rv.target) {
          socks := socks[sid := socks[sid].(rooms := socks[sid].rooms - {rv.channel})];
        }
      }
    }

    /** Its second loop: every state of the target user forgets the channel. */
    method DropBookkeeping(rv: Revocation)
      modifies this`socks
      ensures socks.Keys == old(socks).Keys
      ensures forall sid :: sid in socks ==> socks[sid] == Dropped(old(socks)[sid], rv)
    {
      var rest := socks.Keys;
      while rest != {}
        invariant rest <= socks.Keys && socks.Keys == old(socks).Keys
        invariant forall sid :: sid in socks ==>
            socks[sid] == if sid in rest then old(socks)[sid] else Dropped(old(socks)[sid], rv)
        decreases |rest|
      {
        var sid :| sid in rest;
        rest := rest - {sid};
        socks := socks[sid := Dropped(socks[sid], rv)];
      }
    }
  }

  /** `RemoteSocket.leave` on a fetched socket of the target user. */
  function Left(s: Sock, rv: Revocation, fetched: bool): Sock {
    if fetched && s.dataUserId == Some(rv.target) then s.(rooms := s.rooms - {rv.channel}) else s
  }

  /** `state.subscribedChannels.delete` on a state of the target user. */
  function Dropped(s: Sock, rv: Revocation): Sock {
    if s.state.Some? && s.state.value.userId == rv.target
    then s.(state := Some(s.state.value.(subscribed := s.state.value.subscribed - {rv.channel})))
    else s
  }
}
