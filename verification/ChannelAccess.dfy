// apps/signal/src/channel-access.ts: which of the requested channels a user may join.
module ChannelAccess {
  import opened Common

  const USER_CHANNEL_PREFIX := "user:"

  /** What came back from the membership endpoint; non-string ids are already dropped from `ids`. */
  datatype Reply = Unreachable | NotOk | Malformed | Allowed(ids: seq<string>)

  predicate IsUserChannel(id: string) {
    USER_CHANNEL_PREFIX <= id
  }

  predicate OwnsUserChannel(userId: string, id: string) {
    IsUserChannel(id) && id[|USER_CHANNEL_PREFIX|..] == userId
  }

  predicate MemberOf(configured: bool, reply: Reply, id: string) {
    !IsUserChannel(id) && configured && reply.Allowed? && id in reply.ids
  }

  /** The grant for one request: the user's own channels first, then the confirmed memberships. */
  function Granted(userId: string, configured: bool, reply: Reply, ids: seq<string>): seq<string> {
    Filter(ids, (id: string) => OwnsUserChannel(userId, id))
    + Filter(ids, (id: string) => MemberOf(configured, reply, id))
  }

  function Denied(granted: seq<string>, ids: seq<string>): seq<string> {
    Filter(ids, (id: string) => id !in granted)
  }

  lemma GrantedExactly(userId: string, configured: bool, reply: Reply, ids: seq<string>, id: string)
    ensures id in Granted(userId, configured, reply, ids)
        <==> id in ids && (OwnsUserChannel(userId, id) || MemberOf(configured, reply, id))
  {
    FilterMember(ids, (x: string) => OwnsUserChannel(userId, x), id);
    FilterMember(ids, (x: string) => MemberOf(configured, reply, x), id);
  }

  /** `user:v` is granted to user v alone, and any other id only by an answer of the endpoint that lists it. */
  lemma GrantsOnlyOwnAndConfirmed(userId: string, configured: bool, reply: Reply, ids: seq<string>)
    ensures forall v: string ::
        "user:" + v in Granted(userId, configured, reply, ids) <==> "user:" + v in ids && v == userId
    ensures forall id: string :: !("user:" <= id) ==>
        (id in Granted(userId, configured, reply, ids) <==>
          id in ids && configured && reply.Allowed? && id in reply.ids)
  {
    forall v: string
      ensures "user:" + v in Granted(userId, configured, reply, ids) <==> "user:" + v in ids && v == userId
    {
      var id := "user:" + v;
      GrantedExactly(userId, configured, reply, ids, id);
      assert id[|USER_CHANNEL_PREFIX|..] == v;
    }
    forall id: string | !("user:" <= id)
      ensures id in Granted(userId, configured, reply, ids)
          <==> id in ids && configured && reply.Allowed? && id in reply.ids
    {
      GrantedExactly(userId, configured, reply, ids, id);
    }
  }

  lemma {:induction false} SplitThree(ids: seq<string>, p: string -> bool, q: string -> bool, r: string -> bool)
    requires forall x :: x in ids ==> (p(x) && !q(x) && !r(x)) || (!p(x) && q(x) && !r(x)) || (!p(x) && !q(x) && r(x))
    ensures multiset(Filter(ids, p) + Filter(ids, q)) + multiset(Filter(ids, r)) == multiset(ids)
  {
    if ids != [] {
      assert ids == [ids[0]] + ids[1..];
      SplitThree(ids[1..], p, q, r);
    }
  }

  /** Grant and denial split the request: every requested id, duplicates included, is in exactly one of them. */
  lemma GrantSplitsRequest(userId: string, configured: bool, reply: Reply, ids: seq<string>)
    ensures var granted := Granted(userId, configured, reply, ids);
            && multiset(granted) + multiset(Denied(granted, ids)) == multiset(ids)
            && multiset(granted) !! multiset(Denied(granted, ids))
  {
    var granted := Granted(userId, configured, reply, ids);
    forall x | x in ids ensures x in granted <==> OwnsUserChannel(userId, x) || MemberOf(configured, reply, x) {
      GrantedExactly(userId, configured, reply, ids, x);
    }
    SplitThree(ids, (x: string) => OwnsUserChannel(userId, x), (x: string) => MemberOf(configured, reply, x),
               (x: string) => x !in granted);
    forall x | x in multiset(Denied(granted, ids)) ensures x !in multiset(granted) {
      assert x in Denied(granted, ids);
      FilterMember(ids, (y: string) => y !in granted, x);
    }
  }

  /** The first loop: own user channels are allowed on the spot, the rest is to be confirmed. */
  method SortOut(userId: string, ids: seq<string>) returns (allowed: seq<string>, dmChannelIds: seq<string>)
    ensures allowed == Filter(ids, (x: string) => OwnsUserChannel(userId, x))
    ensures dmChannelIds == Filter(ids, (x: string) => !IsUserChannel(x))
  {
    ghost var own := (x: string) => OwnsUserChannel(userId, x);
    ghost var dm := (x: string) => !IsUserChannel(x);
    allowed, dmChannelIds := [], [];
    for i := 0 to |ids|
      invariant allowed == Filter(ids[..i], own)
      invariant dmChannelIds == Filter(ids[..i], dm)
    {
      assert ids[..i + 1] == ids[..i] + [ids[i]];
      FilterAppend(ids[..i], [ids[i]], own);
      FilterAppend(ids[..i], [ids[i]], dm);
      if IsUserChannel(ids[i]) {
        if ids[i][|USER_CHANNEL_PREFIX|..] == userId {
          allowed := allowed + [ids[i]];
        }
      } else {
        dmChannelIds := dmChannelIds + [ids[i]];
      }
    }
    assert ids[..|ids|] == ids;
  }

  /** The second loop: the ids the endpoint's answer contains. */
  method Confirmed(dmChannelIds: seq<string>, granted: set<string>) returns (allowed: seq<string>)
    ensures allowed == Filter(dmChannelIds, (x: string) => x in granted)
  {
    ghost var member := (x: string) => x in granted;
    allowed := [];
    for i := 0 to |dmChannelIds|
      invariant allowed == Filter(dmChannelIds[..i], member)
    {
      assert dmChannelIds[..i + 1] == dmChannelIds[..i] + [dmChannelIds[i]];
      FilterAppend(dmChannelIds[..i], [dmChannelIds[i]], member);
      if dmChannelIds[i] in granted {
        allowed := allowed + [dmChannelIds[i]];
      }
    }
    assert dmChannelIds[..|dmChannelIds|] == dmChannelIds;
  }

  /** The checker itself, with the endpoint's reply as an input. */
  method CheckChannelAccess(userId: string, ids: seq<string>, configured: bool, reply: Reply)
    returns (allowed: seq<string>)
    ensures allowed == Granted(userId, configured, reply, ids)
  {
    ghost var dm := (x: string) => !IsUserChannel(x);
    ghost var member := (x: string) => MemberOf(configured, reply, x);
    var dmChannelIds;
    allowed, dmChannelIds := SortOut(userId, ids);
    FilterFilter(ids, dm, member);
    if dmChannelIds == [] || !configured || !reply.Allowed? {
      FilterNone(dmChannelIds, member);
      return;
    }
    var granted := set x | x in reply.ids;
    var confirmed := Confirmed(dmChannelIds, granted);
    forall x | x in dmChannelIds ensures member(x) <==> x in granted {
      FilterMember(ids, dm, x);
    }
    FilterSame(dmChannelIds, member, (x: string) => x in granted);
    allowed := allowed + confirmed;
  }

  lemma {:induction false} FilterSame(s: seq<string>, p: string -> bool, q: string -> bool)
    requires forall x :: x in s ==> p(x) == q(x)
    ensures Filter(s, p) == Filter(s, q)
  {
    if s != [] {
      FilterSame(s[1..], p, q);
    }
  }

  lemma {:induction false} FilterFilter(s: seq<string>, p: string -> bool, q: string -> bool)
    requires forall x :: q(x) ==> p(x)
    ensures Filter(Filter(s, p), q) == Filter(s, q)
  {
    if s != [] {
      FilterFilter(s[1..], p, q);
      FilterAppend(if p(s[0]) then [s[0]] else [], Filter(s[1..], p), q);
    }
  }

  lemma FilterNone(s: seq<string>, q: string -> bool)
    requires forall x :: x in s ==> !q(x)
    ensures Filter(s, q) == []
  {
  }
}
