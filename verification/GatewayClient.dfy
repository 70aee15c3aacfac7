// apps/web/hooks/use-gateway.ts: the client half of reconnect catch-up.
module GatewayClient {
  import opened Common

  /** An event stands for its id; `channelId` is the channel it names. */
  datatype Event<Id> = Event(id: Id, channelId: string)

  datatype Emission<Id> =
    | Init
    | Subscribe(channelIds: seq<string>)
    | Resume(channels: map<string, Id>)
    | Unsubscribe(channelIds: seq<string>)

  /** The cursor of one channel after a batch: the last event of the batch, whatever the cursor was. */
  function CursorAfter<Id>(cursor: Option<Id>, batch: seq<Id>): Option<Id> {
    if batch == [] then cursor else Some(batch[|batch| - 1])
  }

  /** The ids of the events on one channel, in order. */
  function OnChannel<Id>(events: seq<Event<Id>>, channelId: string): seq<Id> {
    if events == [] then [] else
    var last := events[|events| - 1];
    OnChannel(events[..|events| - 1], channelId) + (if last.channelId == channelId then [last.id] else [])
  }

  /** No event of the batch behind position `i` is on the channel of the one there. */
  ghost predicate LastOnItsChannel<Id>(events: seq<Event<Id>>, i: nat)
    requires i < |events|
  {
    forall j :: i < j < |events| ==> events[j].channelId != events[i].channelId
  }

  /** The last event decides if it is on the channel; the ones before it do otherwise. */
  lemma LastEventDecides<Id>(cursor: Option<Id>, events: seq<Event<Id>>, channelId: string)
    requires events != []
    ensures var last := events[|events| - 1];
      CursorAfter(cursor, OnChannel(events, channelId))
      == if last.channelId == channelId then Some(last.id)
         else CursorAfter(cursor, OnChannel(events[..|events| - 1], channelId))
  {
    var front := OnChannel(events[..|events| - 1], channelId);
    assert front + [] == front;
  }

  /** The cursor of a channel ends at its last event of the batch. */
  lemma {:induction false} CursorEndsAtLast<Id>(cursor: Option<Id>, events: seq<Event<Id>>, i: nat)
    requires i < |events| && LastOnItsChannel(events, i)
    ensures CursorAfter(cursor, OnChannel(events, events[i].channelId)) == Some(events[i].id)
  {
    var n := |events| - 1;
    LastEventDecides(cursor, events, events[i].channelId);
    if i < n {
      CursorEndsAtLast(cursor, events[..n], i);
    }
  }

  /** Without an event in the batch it stays. */
  lemma {:induction false} CursorStays<Id>(cursor: Option<Id>, events: seq<Event<Id>>, channelId: string)
    requires forall i :: 0 <= i < |events| ==> events[i].channelId != channelId
    ensures CursorAfter(cursor, OnChannel(events, channelId)) == cursor
  {
    if events != [] {
      LastEventDecides(cursor, events, channelId);
      CursorStays(cursor, events[..|events| - 1], channelId);
    }
  }

  function NotIn(channelIds: seq<string>, known: set<string>): seq<string> {
    Filter(channelIds, (c: string) => c !in known)
  }

  /** `Array.from` on a set. */
  method ArrayFrom(s: set<string>) returns (r: seq<string>)
    ensures Elements(r) == s && (r == [] <==> s == {})
  {
    r := [];
    var rest := s;
    while rest != {}
      invariant rest <= s && Elements(r) == s - rest && (r == [] <==> rest == s)
      decreases |rest|
    {
      var c :| c in rest;
      assert Elements(r + [c]) == Elements(r) + {c};
      r := r + [c];
      rest := rest - {c};
    }
  }

  class Client<Id(==)> {
    var connected: bool
    var subscribedChannels: set<string>
    var lastEventIds: map<string, Id>

    constructor ()
      ensures !connected && subscribedChannels == {} && lastEventIds == map[]
    {
      connected, subscribedChannels, lastEventIds := false, {}, map[];
    }

    /** The connect handler: what it sends, in order. */
    method OnConnect() returns (sent: seq<Emission<Id>>)
      modifies this`connected
      ensures connected
      ensures |sent| >= 1 && sent[0] == Init
      ensures subscribedChannels != {} ==>
          |sent| >= 2 && sent[1].Subscribe? && Elements(sent[1].channelIds) == subscribedChannels
      ensures lastEventIds != map[] ==> sent[|sent| - 1] == Resume(lastEventIds)
      ensures |sent| == 1 + (if subscribedChannels != {} then 1 else 0) + (if lastEventIds != map[] then 1 else 0)
    {
      connected := true;
      sent := [Init];
      var channels := ArrayFrom(subscribedChannels);
      if |channels| > 0 {
        sent := sent + [Subscribe(channels)];
      }
      if lastEventIds != map[] {
        sent := sent + [Resume(lastEventIds)];
      }
    }

    method OnDisconnect()
      modifies this`connected
      ensures !connected
    {
      connected := false;
    }

    method OnEvent(event: Event<Id>)
      modifies this`lastEventIds
      ensures lastEventIds == old(lastEventIds)[event.channelId := event.id]
      ensures forall c :: Lookup(lastEventIds, c) == CursorAfter(old(Lookup(lastEventIds, c)), OnChannel([event], c))
    {
      assert [event][..0] == [];
      lastEventIds := lastEventIds[event.channelId := event.id];
    }

    method OnReplay(events: seq<Event<Id>>)
      modifies this`lastEventIds
      ensures forall c :: Lookup(lastEventIds, c) == CursorAfter(old(Lookup(lastEventIds, c)), OnChannel(events, c))
      ensures forall i :: 0 <= i < |events| && LastOnItsChannel(events, i) ==>
          Lookup(lastEventIds, events[i].channelId) == Some(events[i].id)
      ensures forall c :: (forall i :: 0 <= i < |events| ==> events[i].channelId != c) ==>
          Lookup(lastEventIds, c) == old(Lookup(lastEventIds, c))
    {
      for i := 0 to |events|
        invariant forall c ::
            Lookup(lastEventIds, c) == CursorAfter(old(Lookup(lastEventIds, c)), OnChannel(events[..i], c))
      {
        assert events[..i + 1][..i] == events[..i];
        lastEventIds := lastEventIds[events[i].channelId := events[i].id];
      }
      assert events[..|events|] == events;
      forall i | 0 <= i < |events| && LastOnItsChannel(events, i)
        ensures Lookup(lastEventIds, events[i].channelId) == Some(events[i].id)
      {
        CursorEndsAtLast(old(Lookup(lastEventIds, events[i].channelId)), events, i);
      }
      forall c | forall i :: 0 <= i < |events| ==> events[i].channelId != c
        ensures Lookup(lastEventIds, c) == old(Lookup(lastEventIds, c))
      {
        CursorStays(old(Lookup(lastEventIds, c)), events, c);
      }
    }

    /** The reply to a subscribe: refused channels are forgotten. */
    method OnSubscribed(denied: seq<string>)
      modifies this`subscribedChannels, this`lastEventIds
      ensures subscribedChannels == old(subscribedChannels) - Elements(denied)
      ensures lastEventIds == old(lastEventIds) - Elements(denied)
    {
      for i := 0 to |denied|
        invariant subscribedChannels == old(subscribedChannels) - Elements(denied[..i])
        invariant lastEventIds == old(lastEventIds) - Elements(denied[..i])
      {
        assert denied[..i + 1] == denied[..i] + [denied[i]];
        subscribedChannels := subscribedChannels - {denied[i]};
        lastEventIds := lastEventIds - {denied[i]};
      }
      assert denied[..|denied|] == denied;
    }

    method SubscribeTo(channelIds: seq<string>) returns (sent: seq<Emission<Id>>)
      modifies this`subscribedChannels
      ensures subscribedChannels == old(subscribedChannels) + Elements(channelIds)
      ensures sent == (var newOnes := NotIn(channelIds, old(subscribedChannels));
                       if connected && newOnes != [] then [Subscribe(newOnes)] else [])
      ensures sent != [] <==> connected && exists c :: c in channelIds && c !in old(subscribedChannels)
      ensures sent != [] ==>
          && |sent| == 1 && sent[0].Subscribe?
          && forall c :: c in sent[0].channelIds <==> c in channelIds && c !in old(subscribedChannels)
    {
      var known := subscribedChannels;
      if !connected {
        AddChannels(channelIds);
        return [];
      }
      var newChannels := NotIn(channelIds, known);
      forall c ensures c in newChannels <==> c in channelIds && c !in known {
        FilterMember(channelIds, (x: string) => x !in known, c);
      }
      if newChannels == [] {
        assert forall c :: c in channelIds && c !in known ==> c in newChannels;
        return [];
      }
      assert newChannels[0] in newChannels;
      AddChannels(newChannels);
      sent := [Subscribe(newChannels)];
    }

    method AddChannels(channelIds: seq<string>)
      modifies this`subscribedChannels
      ensures subscribedChannels == old(subscribedChannels) + Elements(channelIds)
    {
      for i := 0 to |channelIds|
        invariant subscribedChannels == old(subscribedChannels) + Elements(channelIds[..i])
      {
        assert channelIds[..i + 1] == channelIds[..i] + [channelIds[i]];
        subscribedChannels := subscribedChannels + {channelIds[i]};
      }
      assert channelIds[..|channelIds|] == channelIds;
    }

    method UnsubscribeFrom(channelIds: seq<string>) returns (sent: seq<Emission<Id>>)
      modifies this`subscribedChannels, this`lastEventIds
      ensures subscribedChannels == old(subscribedChannels) - Elements(channelIds)
      ensures lastEventIds == old(lastEventIds) - Elements(channelIds)
      ensures sent == [Unsubscribe(channelIds)]
    {
      for i := 0 to |channelIds|
        invariant subscribedChannels == old(subscribedChannels) - Elements(channelIds[..i])
        invariant lastEventIds == old(lastEventIds) - Elements(channelIds[..i])
      {
        assert channelIds[..i + 1] == channelIds[..i] + [channelIds[i]];
        subscribedChannels := subscribedChannels - {channelIds[i]};
        lastEventIds := lastEventIds - {channelIds[i]};
      }
      assert channelIds[..|channelIds|] == channelIds;
      sent := [Unsubscribe(channelIds)];
    }
  }
}
