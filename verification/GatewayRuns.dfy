// What a client of the gateway can rely on: its presence as it declared it, the rooms it asked for and was
// granted, and revocations that reach its own sockets only.
module GatewayRuns {
  import opened Common
  import opened Gateway
  import ChannelAccess

  // ---- Presence as the client declared it ---------------------------------------

  /** What one socket has told the gateway since it connected, and whether it has an entry by now. */
  datatype Told = Told(entered: bool, status: Option<UserStatus>)

  const NOTHING := Told(false, None)

  /** gateway:init counts always, gateway:presence only once the socket has an entry; a grant makes the entry. */
  function Tells(op: Op, sid: string, was: Told): Told {
    match op
    case Connect(id, _) => if id == sid then NOTHING else was
    case On(id, o) =>
      if id != sid then was
      else (match o
            case Init(_, status) => Told(true, Some(status))
            case Presence(_, status) => if was.entered then Told(true, Some(status)) else was
            case AccessReplied(_, _, _) => was.(entered := true)
            case _ => was)
    case _ => was
  }

  function ToldBy(ops: seq<Op>, sid: string, was: Told): Told
    decreases |ops|
  {
    if ops == [] then was else ToldBy(ops[1..], sid, Tells(ops[0], sid, was))
  }

  predicate Remembers(s: Sock, told: Told) {
    && (s.state.Some? <==> told.entered)
    && (told.status.Some? ==> told.entered)
    && (s.state.Some? ==> (s.state.value.statusKnown <==> told.status.Some?))
    && (told.status.Some? && s.state.Some? ==> s.state.value.status == told.status.value)
  }

  lemma {:induction false} ResumeKeepsStatus(
      s: Sock, h: nat, rest: seq<string>, allowed: set<string>, rejoined: set<string>)
    requires s.state.Some?
    ensures var t := ResumeFrom(s, h, rest, allowed, rejoined);
      && t.state.Some? && t.state.value.status == s.state.value.status
      && t.state.value.statusKnown == s.state.value.statusKnown
    decreases |rest|
  {
    if rest != [] && rest[0] !in allowed {
      ResumeKeepsStatus(s, h, rest[1..], allowed, rejoined);
    }
  }

  lemma StepRemembers(s: Sock, op: SockOp, sid: string, told: Told)
    requires Enabled(s, op) && Remembers(s, told)
    ensures Remembers(Step(s, op), Tells(On(sid, op), sid, told))
  {
    match op
    case ReplayDone(h) =>
      ResumeKeepsStatus(s, h, s.handlers[h].rest, s.handlers[h].allowed, s.handlers[h].rejoined);
    case AccessReplied(h, configured, reply) =>
      if s.handlers[h].AwaitingResumeAccess? {
        var channels := s.handlers[h].channels;
        var valid := ChannelAccess.Granted(s.userId, configured, reply, channels);
        ResumeKeepsStatus(ResumeReady(s, valid), h, channels, Elements(valid), {});
      }
    case _ =>
  }

  lemma {:induction false} RunRemembers(g: Replica, ops: seq<Op>, sid: string, told: Told)
    requires CanRun(g, ops) && (sid in g.socks ==> Remembers(g.socks[sid], told))
    ensures sid in Run(g, ops).socks ==> Remembers(Run(g, ops).socks[sid], ToldBy(ops, sid, told))
    decreases |ops|
  {
    if ops != [] {
      if ops[0].On? && ops[0].sid == sid {
        StepRemembers(g.socks[sid], ops[0].op, sid, told);
      }
      RunRemembers(Next(g, ops[0]), ops[1..], sid, Tells(ops[0], sid, told));
    }
  }

  /** No suspended handler of the socket has an announcement to `c` ahead of it. */
  predicate Settled(s: Sock, c: string) {
    forall h :: h in s.handlers ==>
        || s.handlers[h].AwaitingAccess? || s.handlers[h].AwaitingResumeAccess?
        || (s.handlers[h].Replaying? && c !in s.handlers[h].rejoined)
  }

  /**
   * What a channel saw last from a subscribed socket, once nothing is under way, is the status the client
   * declared last, an invisible one as offline; a client that declared none has announced nothing.
   */
  lemma SeenAsDeclared(ops: seq<Op>, sid: string, c: string)
    requires CanRun(BOOT, ops) && sid in Run(BOOT, ops).socks
    ensures var s, told := Run(BOOT, ops).socks[sid], ToldBy(ops, sid, NOTHING);
      && (told.status.None? ==> s.sent == [])
      && (told.status.Some? && s.state.Some? && c in s.state.value.subscribed && Settled(s, c) ==>
            LastSent(s.sent, c) == Some(if told.status == Some(Invisible) then Offline else told.status.value))
  {
    RunKeeps(BOOT, ops);
    RunRemembers(BOOT, ops, sid, NOTHING);
    var s := Run(BOOT, ops).socks[sid];
    assert SockInv(s);
  }

  // ---- Joining, leaving and announcing, step by step -------------------------------

  function SubscribedTo(s: Sock): set<string> {
    if s.state.Some? then s.state.value.subscribed else {}
  }

  /** The first allowed entry of a resume's list is `c`. */
  ghost predicate FirstAllowed(rest: seq<string>, allowed: set<string>, c: string) {
    exists i :: 0 <= i < |rest| && rest[i] == c && c in allowed && forall j :: 0 <= j < i ==> rest[j] !in allowed
  }

  /** A subscribe joins all it is granted; a resume joins one channel at a time. */
  ghost predicate Joins(s: Sock, op: SockOp, c: string)
    requires Enabled(s, op)
  {
    if op.AccessReplied? then
      Grants(s, op, c) && match s.handlers[op.h]
                          case AwaitingAccess(_) => true
                          case AwaitingResumeAccess(channels) =>
                            FirstAllowed(channels, Elements(ChannelAccess.Granted(
                                           s.userId, op.configured, op.reply, channels)), c)
    else op.ReplayDone? && FirstAllowed(s.handlers[op.h].rest, s.handlers[op.h].allowed, c)
  }

  predicate Leaves(op: SockOp, c: string) {
    op.Unsubscribe? && c in op.ids
  }

  lemma {:induction false} ResumeJoins(
      s: Sock, h: nat, rest: seq<string>, allowed: set<string>, rejoined: set<string>, c: string)
    requires s.state.Some?
    ensures var t := ResumeFrom(s, h, rest, allowed, rejoined);
      && (c in t.rooms <==> c in s.rooms || FirstAllowed(rest, allowed, c))
      && (c in SubscribedTo(t) <==> c in SubscribedTo(s) || FirstAllowed(rest, allowed, c))
    decreases |rest|
  {
    if rest != [] {
      if rest[0] in allowed {
        assert FirstAllowed(rest, allowed, rest[0]);
      } else {
        ResumeJoins(s, h, rest[1..], allowed, rejoined, c);
        ShiftFirstAllowed(rest, allowed, c);
      }
    }
  }

  lemma ShiftFirstAllowed(rest: seq<string>, allowed: set<string>, c: string)
    requires rest != [] && rest[0] !in allowed
    ensures FirstAllowed(rest, allowed, c) <==> FirstAllowed(rest[1..], allowed, c)
  {
    if FirstAllowed(rest, allowed, c) {
      var i :| 0 <= i < |rest| && rest[i] == c && c in allowed && forall j :: 0 <= j < i ==> rest[j] !in allowed;
      assert rest[1..][i - 1] == c && forall j :: 0 <= j < i - 1 ==> rest[1..][j] == rest[j + 1];
    }
    if FirstAllowed(rest[1..], allowed, c) {
      var i :| 0 <= i < |rest| - 1 && rest[1..][i] == c && c in allowed
            && forall j :: 0 <= j < i ==> rest[1..][j] !in allowed;
      assert rest[i + 1] == c && forall j :: 0 < j < i + 1 ==> rest[j] == rest[1..][j - 1];
    }
  }

  /** Rooms and bookkeeping each gain exactly what the step joins and lose exactly what it leaves. */
  lemma JoinsExactly(s: Sock, op: SockOp, c: string)
    requires SockInv(s) && Enabled(s, op)
    ensures c in Step(s, op).rooms <==> (c in s.rooms && !Leaves(op, c)) || Joins(s, op, c)
    ensures c in SubscribedTo(Step(s, op)) <==> (c in SubscribedTo(s) && !Leaves(op, c)) || Joins(s, op, c)
    ensures c in Step(s, op).granted <==> c in s.granted || Grants(s, op, c)
  {
    match op
    case ReplayDone(h) =>
      var handler := s.handlers[h];
      ResumeJoins(s, h, handler.rest, handler.allowed, handler.rejoined, c);
      ResumeKeepsGrants(s, h, handler.rest, handler.allowed, handler.rejoined);
    case AccessReplied(h, configured, reply) =>
      if s.handlers[h].AwaitingResumeAccess? {
        var channels := s.handlers[h].channels;
        var valid := ChannelAccess.Granted(s.userId, configured, reply, channels);
        ResumeJoins(ResumeReady(s, valid), h, channels, Elements(valid), {}, c);
        ResumeKeepsGrants(ResumeReady(s, valid), h, channels, Elements(valid), {});
      }
    case _ =>
  }

  lemma {:induction false} ResumeKeepsGrants(
      s: Sock, h: nat, rest: seq<string>, allowed: set<string>, rejoined: set<string>)
    requires s.state.Some?
    ensures ResumeFrom(s, h, rest, allowed, rejoined).granted == s.granted
    decreases |rest|
  {
    if rest != [] && rest[0] !in allowed {
      ResumeKeepsGrants(s, h, rest[1..], allowed, rejoined);
    }
  }

  /** The end of a resume announces what it rejoined; a subscribe what it newly joined; a status everything. */
  predicate Due(s: Sock, op: SockOp, c: string)
    requires Enabled(s, op)
  {
    match op
    case AccessReplied(h, _, _) => s.handlers[h].AwaitingAccess? && Grants(s, op, c) && c !in SubscribedTo(s)
    case RedisDone(_) => c in SubscribedTo(s)
    case ReplayDone(h) =>
      c in s.handlers[h].rejoined && forall d :: d in s.handlers[h].rest ==> d !in s.handlers[h].allowed
    case _ => false
  }

  lemma {:induction false} ResumeAnnounces(
      s: Sock, h: nat, rest: seq<string>, allowed: set<string>, rejoined: set<string>)
    requires s.state.Some?
    ensures ResumeFrom(s, h, rest, allowed, rejoined).sent
         == if forall d :: d in rest ==> d !in allowed then BroadcastPresence(s, rejoined).sent else s.sent
    decreases |rest|
  {
    if rest != [] {
      assert rest == [rest[0]] + rest[1..];
      if rest[0] !in allowed {
        ResumeAnnounces(s, h, rest[1..], allowed, rejoined);
      }
    }
  }

  /** A step sends at most one broadcast, and it goes exactly to the channels that are due one. */
  lemma AnnouncesExactly(s: Sock, op: SockOp)
    requires SockInv(s) && Enabled(s, op)
    ensures var t := Step(s, op); t.sent == s.sent || (|t.sent| == |s.sent| + 1 && t.sent[..|s.sent|] == s.sent)
    ensures forall c :: Announces(s, op, c) <==> s.state.Some? && s.state.value.statusKnown && Due(s, op, c)
  {
    match op
    case ReplayDone(h) =>
      ResumeAnnounces(s, h, s.handlers[h].rest, s.handlers[h].allowed, s.handlers[h].rejoined);
    case AccessReplied(h, configured, reply) =>
      if s.handlers[h].AwaitingResumeAccess? {
        var channels := s.handlers[h].channels;
        var valid := ChannelAccess.Granted(s.userId, configured, reply, channels);
        ResumeAnnounces(ResumeReady(s, valid), h, channels, Elements(valid), {});
      } else {
        var ids := s.handlers[h].ids;
        var valid := ChannelAccess.Granted(s.userId, configured, reply, ids);
        var newly := Elements(valid) - SubscribedTo(s);
        assert forall c :: Due(s, op, c) <==> c in newly;
        assert s.state.Some? && s.state.value.statusKnown ==>
            Step(s, op).sent == if newly == {} then s.sent
                                else s.sent + [Broadcast(newly, Mask(s.state.value.status))];
      }
    case _ =>
  }

  /** A status write of a known socket and the start of a call suspend handler `k`; so does a resume that joins. */
  predicate Suspends(s: Sock, op: SockOp, k: nat)
    requires Enabled(s, op)
  {
    match op
    case StartSubscribe(h, _) => k == h
    case StartResume(h, _) => k == h
    case Init(h, _) => k == h
    case Presence(h, _) => k == h && s.state.Some?
    case AccessReplied(h, _, _) =>
      k == h && s.handlers[h].AwaitingResumeAccess? && exists d :: d in s.handlers[h].channels && Grants(s, op, d)
    case ReplayDone(h) => k == h && exists d :: d in s.handlers[h].rest && d in s.handlers[h].allowed
    case _ => false
  }

  lemma {:induction false} ResumeSuspends(
      s: Sock, h: nat, rest: seq<string>, allowed: set<string>, rejoined: set<string>, k: nat)
    requires s.state.Some?
    ensures var t := ResumeFrom(s, h, rest, allowed, rejoined);
      && (k != h ==> Lookup(t.handlers, k) == Lookup(s.handlers, k))
      && (h in t.handlers <==> exists d :: d in rest && d in allowed)
    decreases |rest|
  {
    if rest != [] {
      assert rest == [rest[0]] + rest[1..];
      if rest[0] !in allowed {
        ResumeSuspends(s, h, rest[1..], allowed, rejoined, k);
      }
    }
  }

  /** A step resumes one handler, which ends there unless it is suspended again; the other ones are left alone. */
  lemma HandlersExactly(s: Sock, op: SockOp, k: nat)
    requires Enabled(s, op)
    ensures !op.Unsubscribe? && op.h == k ==> (k in Step(s, op).handlers <==> Suspends(s, op, k))
    ensures op.Unsubscribe? || op.h != k ==> Lookup(Step(s, op).handlers, k) == Lookup(s.handlers, k)
  {
    match op
    case ReplayDone(h) =>
      ResumeSuspends(s, h, s.handlers[h].rest, s.handlers[h].allowed, s.handlers[h].rejoined, k);
    case AccessReplied(h, configured, reply) =>
      if s.handlers[h].AwaitingResumeAccess? {
        var channels := s.handlers[h].channels;
        var valid := ChannelAccess.Granted(s.userId, configured, reply, channels);
        ResumeSuspends(ResumeReady(s, valid), h, channels, Elements(valid), {}, k);
      }
    case _ =>
  }

  /** Sockets come and go by connecting and disconnecting alone, revocations from their fetch to their end. */
  lemma PresentExactly(g: Replica, op: Op, sid: string, r: nat)
    requires OpEnabled(g, op)
    ensures sid in Next(g, op).socks <==> (sid in g.socks && op != Disconnect(sid)) || (op.Connect? && op.sid == sid)
    ensures r in Next(g, op).revocations
        <==> (r in g.revocations && op != FinishRevoke(r)) || (op.FetchSockets? && op.r == r)
  {
  }

  // ---- A resume that nothing interrupts ---------------------------------------------

  lemma {:induction false} ResumeShrinks(
      s: Sock, h: nat, rest: seq<string>, allowed: set<string>, rejoined: set<string>)
    requires s.state.Some?
    ensures var t := ResumeFrom(s, h, rest, allowed, rejoined);
      t.state.Some? && (h in t.handlers ==> t.handlers[h].Replaying? && |t.handlers[h].rest| < |rest|)
    decreases |rest|
  {
    if rest != [] && rest[0] !in allowed {
      ResumeShrinks(s, h, rest[1..], allowed, rejoined);
    }
  }

  /** The replays of handler `h` one after the other, to the end of its loop. */
  function Finished(s: Sock, h: nat): Sock
    requires s.state.Some? && (h in s.handlers ==> s.handlers[h].Replaying?)
    decreases if h in s.handlers then |s.handlers[h].rest| + 1 else 0
  {
    if h !in s.handlers then s
    else
      ResumeShrinks(s, h, s.handlers[h].rest, s.handlers[h].allowed, s.handlers[h].rejoined);
      Finished(Step(s, ReplayDone(h)), h)
  }

  /** The socket after it has joined `joined` and announced itself in those of them and of `before` it was not in. */
  function Joined(s: Sock, h: nat, joined: set<string>, before: set<string>): Sock
    requires s.state.Some?
  {
    var state := s.state.value;
    var news := before + (joined - state.subscribed);
    s.(rooms := s.rooms + joined, state := Some(state.(subscribed := state.subscribed + joined)),
       handlers := s.handlers - {h},
       sent := if state.statusKnown && news != {}
               then s.sent + [Broadcast(news, if state.status == Invisible then Offline else state.status)]
               else s.sent)
  }

  function Overlap(rest: seq<string>, allowed: set<string>): set<string> {
    set c | c in rest && c in allowed
  }

  lemma {:induction false} ResumeFinishes(
      s: Sock, h: nat, rest: seq<string>, allowed: set<string>, rejoined: set<string>)
    requires s.state.Some?
    ensures var t := ResumeFrom(s, h, rest, allowed, rejoined);
      && t.state.Some? && (h in t.handlers ==> t.handlers[h].Replaying?)
      && Finished(t, h) == Joined(s, h, Overlap(rest, allowed), rejoined)
    decreases |rest|
  {
    ResumeShrinks(s, h, rest, allowed, rejoined);
    var t := ResumeFrom(s, h, rest, allowed, rejoined);
    if rest == [] {
      assert Overlap(rest, allowed) == {};
      assert rejoined + (Overlap(rest, allowed) - s.state.value.subscribed) == rejoined;
      assert s.state.value.(subscribed := s.state.value.subscribed + {}) == s.state.value;
      assert s.rooms + {} == s.rooms;
    } else {
      assert rest == [rest[0]] + rest[1..];
      if rest[0] !in allowed {
        ResumeFinishes(s, h, rest[1..], allowed, rejoined);
        assert Overlap(rest, allowed) == Overlap(rest[1..], allowed);
      } else {
        JoinThenFinish(s, h, rest, allowed, rejoined);
      }
    }
  }

  lemma JoinThenFinish(s: Sock, h: nat, rest: seq<string>, allowed: set<string>, rejoined: set<string>)
    requires s.state.Some? && rest != [] && rest[0] in allowed
    ensures var t := ResumeFrom(s, h, rest, allowed, rejoined);
      && t.state.Some? && (h in t.handlers ==> t.handlers[h].Replaying?)
      && Finished(t, h) == Joined(s, h, Overlap(rest, allowed), rejoined)
    decreases |rest|, 0
  {
    var t := ResumeFrom(s, h, rest, allowed, rejoined);
    var first, more := {rest[0]}, Overlap(rest[1..], allowed);
    ResumeFinishes(t, h, rest[1..], allowed, rejoined + (first - s.state.value.subscribed));
    assert rest == [rest[0]] + rest[1..];
    assert Overlap(rest, allowed) == first + more;
    JoinedInTwo(s, t, h, first, more, rejoined);
  }

  lemma JoinedInTwo(s: Sock, t: Sock, h: nat, first: set<string>, more: set<string>, before: set<string>)
    requires s.state.Some? && t.handlers - {h} == s.handlers - {h}
    requires t == s.(rooms := s.rooms + first, handlers := t.handlers,
                     state := Some(s.state.value.(subscribed := s.state.value.subscribed + first)))
    ensures Joined(t, h, more, before + (first - s.state.value.subscribed)) == Joined(s, h, first + more, before)
  {
    var subscribed := s.state.value.subscribed;
    assert before + (first - subscribed) + (more - (subscribed + first)) == before + (first + more - subscribed);
    assert subscribed + first + more == subscribed + (first + more);
    assert s.rooms + first + more == s.rooms + (first + more);
  }

  /**
   * A resume that runs to its end joins everything it is granted, and announces the socket, if its status is
   * known, exactly in those of the channels it was not subscribed to.
   */
  lemma ResumeJoinsAllGranted(s: Sock, h: nat, configured: bool, reply: ChannelAccess.Reply)
    requires h in s.handlers && s.handlers[h].AwaitingResumeAccess?
    ensures var granted := set c | c in s.handlers[h].channels && Grants(s, AccessReplied(h, configured, reply), c);
      var r := Step(s, AccessReplied(h, configured, reply));
      && r.state.Some? && (h in r.handlers ==> r.handlers[h].Replaying?)
      && var t := Finished(r, h);
         && t.rooms == s.rooms + granted && SubscribedTo(t) == SubscribedTo(s) + granted
         && t.handlers == s.handlers - {h}
         && t.sent == if s.state.None? || !s.state.value.statusKnown || granted <= SubscribedTo(s) then s.sent
                      else s.sent + [Broadcast(granted - SubscribedTo(s), if s.state.value.status == Invisible
                                               then Offline else s.state.value.status)]
  {
    var channels := s.handlers[h].channels;
    var valid := ChannelAccess.Granted(s.userId, configured, reply, channels);
    var granted := set c | c in channels && Grants(s, AccessReplied(h, configured, reply), c);
    assert Overlap(channels, Elements(valid)) == granted;
    ResumeFinishes(ResumeReady(s, valid), h, channels, Elements(valid), {});
    JoinedIsGranted(s, h, valid, granted);
  }

  lemma JoinedIsGranted(s: Sock, h: nat, valid: seq<string>, granted: set<string>)
    ensures var t := Joined(ResumeReady(s, valid), h, granted, {});
      && t.rooms == s.rooms + granted && SubscribedTo(t) == SubscribedTo(s) + granted
      && t.handlers == s.handlers - {h}
      && t.sent == if s.state.None? || !s.state.value.statusKnown || granted <= SubscribedTo(s) then s.sent
                   else s.sent + [Broadcast(granted - SubscribedTo(s), if s.state.value.status == Invisible
                                            then Offline else s.state.value.status)]
  {
    var news := granted - SubscribedTo(s);
    assert {} + news == news;
    assert granted == news + granted * SubscribedTo(s);
    assert news == {} ==> granted <= SubscribedTo(s);
  }

  // ---- How far a revocation reaches ---------------------------------------------------

  /** A revocation touches the sockets of its user only, and of those only this room and this subscription. */
  lemma RevocationReachesOnly(ops: seq<Op>, r: nat, sid: string)
    requires CanRun(BOOT, ops) && r in Run(BOOT, ops).revocations && sid in Run(BOOT, ops).socks
    ensures var g, rv := Run(BOOT, ops), Run(BOOT, ops).revocations[r];
      var s, t := g.socks[sid], Next(g, FinishRevoke(r)).socks[sid];
      && (s.userId != rv.target ==> t == s)
      && (forall c :: c != rv.channel ==>
            (c in t.rooms <==> c in s.rooms) && (c in SubscribedTo(t) <==> c in SubscribedTo(s)))
      && (s.userId == rv.target ==> rv.channel !in SubscribedTo(t))
      && t.sent == s.sent && t.handlers == s.handlers && t.userId == s.userId
      && t.state.Some? == s.state.Some?
  {
    RunKeeps(BOOT, ops);
    assert RoomInv(Run(BOOT, ops).socks[sid]);
  }

  /** The sockets of the user that are in the room are all among those the revocation has fetched. */
  ghost predicate Caught(g: Replica, r: nat, target: string, c: string) {
    && r in g.revocations && g.revocations[r].target == target && g.revocations[r].channel == c
    && forall sid :: sid in g.socks && g.socks[sid].userId == target && c in g.socks[sid].rooms ==>
         sid in g.revocations[r].listed
  }

  lemma NextStaysCaught(g: Replica, op: Op, r: nat, target: string, c: string)
    requires ReplicaInv(g) && OpEnabled(g, op) && op != FinishRevoke(r)
    requires Caught(g, r, target, c) && NoneReenters(g, target, c)
    requires op.On? && g.socks[op.sid].userId == target ==> !Grants(g.socks[op.sid], op.op, c)
    ensures Caught(Next(g, op), r, target, c) && NoneReenters(Next(g, op), target, c)
  {
    if op.On? {
      StepKeeps(g.socks[op.sid], op.op);
      if g.socks[op.sid].userId == target {
        StepStaysOut(g.socks[op.sid], op.op, c);
      }
    } else if op.FinishRevoke? {
      forall sid | sid in g.socks ensures CanReenter(Next(g, op).socks[sid], c) <==> CanReenter(g.socks[sid], c) {
        assert Next(g, op).socks[sid].handlers == g.socks[sid].handlers;
      }
    }
  }

  lemma {:induction false} RunStaysCaught(g: Replica, ops: seq<Op>, r: nat, target: string, c: string)
    requires ReplicaInv(g) && CanRun(g, ops) && FinishRevoke(r) !in ops && NoGrant(g, ops, target, c)
    requires Caught(g, r, target, c) && NoneReenters(g, target, c)
    ensures Caught(Run(g, ops), r, target, c)
    decreases |ops|
  {
    if ops != [] {
      assert ops == [ops[0]] + ops[1..];
      NextKeeps(g, ops[0]);
      NextStaysCaught(g, ops[0], r, target, c);
      RunStaysCaught(Next(g, ops[0]), ops[1..], r, target, c);
    }
  }

  /**
   * A revocation finds every socket of its user that is in the room: whatever else happens while it waits for
   * them, it is not overtaken unless the user is granted the channel meanwhile or was about to rejoin it.
   */
  lemma FetchIsNotOvertaken(ops: seq<Op>, r: nat, target: string, c: string, more: seq<Op>)
    requires CanRun(BOOT, ops) && r !in Run(BOOT, ops).revocations && NoneReenters(Run(BOOT, ops), target, c)
    requires var g := Next(Run(BOOT, ops), FetchSockets(r, target, c));
      CanRun(g, more) && FinishRevoke(r) !in more && NoGrant(g, more, target, c)
    ensures var t := Run(Next(Run(BOOT, ops), FetchSockets(r, target, c)), more);
      && r in t.revocations && t.revocations[r].target == target && t.revocations[r].channel == c
      && NotOvertaken(t, FinishRevoke(r))
  {
    RunKeeps(BOOT, ops);
    var g := Next(Run(BOOT, ops), FetchSockets(r, target, c));
    RunStaysCaught(g, more, r, target, c);
  }
}
