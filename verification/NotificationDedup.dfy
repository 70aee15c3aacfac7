// apps/web/lib/notification-manager.ts: the bounded memory of notified message ids.
module NotificationDedup {
  import opened Common

  const MAX_NOTIFIED_IDS: nat := 500

  /** The last `n` elements. */
  function Last<T>(s: seq<T>, n: nat): seq<T> {
    if |s| <= n then s else s[|s| - n..]
  }

  /** What marking an id does to the queue: a new id enters at the back, and the oldest leaves beyond the cap. */
  function Marked(queue: seq<string>, id: string): seq<string> {
    if id in queue then queue else Last(queue + [id], MAX_NOTIFIED_IDS)
  }

  class NotificationMemory {
    var notifiedMessageIds: set<string>
    var notifiedOrder: seq<string>

    /** Set and queue hold the same distinct, non-empty ids, at most 500 of them. */
    ghost predicate Valid()
      reads this
    {
      && notifiedMessageIds == Elements(notifiedOrder)
      && NoDuplicates(notifiedOrder)
      && |notifiedOrder| <= MAX_NOTIFIED_IDS
      && "" !in notifiedOrder
    }

    constructor ()
      ensures Valid() && notifiedOrder == []
    {
      notifiedMessageIds, notifiedOrder := {}, [];
    }

    method MarkNotified(messageId: string)
      requires Valid() && messageId != ""
      modifies this
      ensures Valid() && notifiedOrder == Marked(old(notifiedOrder), messageId)
    {
      if messageId in notifiedMessageIds { return; }
      notifiedMessageIds := notifiedMessageIds + {messageId};
      notifiedOrder := notifiedOrder + [messageId];
      while |notifiedOrder| > MAX_NOTIFIED_IDS
        invariant |notifiedOrder| <= MAX_NOTIFIED_IDS + 1
        invariant notifiedMessageIds == Elements(notifiedOrder) && NoDuplicates(notifiedOrder) && "" !in notifiedOrder
        invariant notifiedOrder == Last(old(notifiedOrder) + [messageId], |notifiedOrder|)
        invariant Marked(old(notifiedOrder), messageId) == Last(notifiedOrder, MAX_NOTIFIED_IDS)
        decreases |notifiedOrder|
      {
        var oldest := notifiedOrder[0];
        assert notifiedOrder == [oldest] + notifiedOrder[1..];
        notifiedOrder := notifiedOrder[1..];
        if oldest != "" {
          notifiedMessageIds := notifiedMessageIds - {oldest};
        }
      }
    }

    method WasAlreadyNotified(messageId: string) returns (r: bool)
      requires Valid()
      ensures r <==> messageId in notifiedOrder
    {
      r := messageId in notifiedMessageIds;
    }

    /** The dedup part of shouldNotify: an absent or empty id always passes and is never remembered. */
    method PassesDedup(messageId: string) returns (passes: bool)
      requires Valid()
      modifies this
      ensures Valid()
      ensures passes <==> messageId == "" || messageId !in old(notifiedOrder)
      ensures notifiedOrder == if messageId == "" then old(notifiedOrder) else Marked(old(notifiedOrder), messageId)
    {
      if messageId != "" {
        var seen := WasAlreadyNotified(messageId);
        if seen { return false; }
        MarkNotified(messageId);
      }
      passes := true;
    }
  }

  // ---- Exactness over runs ---------------------------------------------------

  /** The queue after a run of messages, and the log of those that passed. */
  function QueueAfter(ids: seq<string>): seq<string> {
    if ids == [] then [] else Marked(QueueAfter(ids[..|ids| - 1]), ids[|ids| - 1])
  }

  function PassLog(ids: seq<string>): seq<string> {
    if ids == [] then []
    else
      var front, last := ids[..|ids| - 1], ids[|ids| - 1];
      PassLog(front) + if last in QueueAfter(front) then [] else [last]
  }

  /** The queue is always the tail of the pass log, without repetitions. */
  lemma {:induction false} QueueIsLogTail(ids: seq<string>)
    ensures QueueAfter(ids) == Last(PassLog(ids), MAX_NOTIFIED_IDS) && NoDuplicates(QueueAfter(ids))
    decreases |ids|
  {
    if ids != [] {
      var front, last := ids[..|ids| - 1], ids[|ids| - 1];
      QueueIsLogTail(front);
      var queue, log := QueueAfter(front), PassLog(front);
      if last !in queue {
        assert NoDuplicates(queue + [last]);
        assert Last(queue + [last], MAX_NOTIFIED_IDS) == Last(log + [last], MAX_NOTIFIED_IDS);
      }
    }
  }

  /** The distinct ids that passed after position `k` of the log. */
  function PassedSince(log: seq<string>, k: nat): set<string>
    requires k < |log|
  {
    Elements(log[k + 1..])
  }

  lemma {:induction false} DistinctCount(s: seq<string>)
    requires NoDuplicates(s)
    ensures |Elements(s)| == |s|
  {
    if s != [] {
      var front := s[..|s| - 1];
      DistinctCount(front);
      assert s == front + [s[|s| - 1]];
      assert Elements(s) == Elements(front) + {s[|s| - 1]};
      assert s[|s| - 1] !in front;
    }
  }

  lemma {:induction false} ElementsAtMost(s: seq<string>)
    ensures |Elements(s)| <= |s|
  {
    if s != [] {
      ElementsAtMost(s[1..]);
      assert s == [s[0]] + s[1..];
      assert Elements(s) == {s[0]} + Elements(s[1..]);
    }
  }

  /**
   * Exact dedup: an id that last passed at position `k` passes again iff at least 500 distinct other
   * ids passed since.
   */
  lemma PassesAgainExactly(ids: seq<string>, id: string, k: nat)
    requires var log := PassLog(ids); k < |log| && log[k] == id && id !in log[k + 1..]
    ensures id !in PassedSince(PassLog(ids), k)
    ensures id !in QueueAfter(ids) <==> |PassedSince(PassLog(ids), k)| >= MAX_NOTIFIED_IDS
  {
    QueueIsLogTail(ids);
    RememberedExactly(PassLog(ids), QueueAfter(ids), id, k);
  }

  lemma RememberedExactly(log: seq<string>, queue: seq<string>, id: string, k: nat)
    requires queue == Last(log, MAX_NOTIFIED_IDS) && NoDuplicates(queue)
    requires k < |log| && log[k] == id && id !in log[k + 1..]
    ensures id !in queue <==> |PassedSince(log, k)| >= MAX_NOTIFIED_IDS
  {
    if |log| - k <= MAX_NOTIFIED_IDS {
      assert queue[k - (|log| - |queue|)] == id;
      ElementsAtMost(log[k + 1..]);
    } else {
      DistinctCount(queue);
      assert queue == log[k + 1..][|log| - k - 1 - MAX_NOTIFIED_IDS..];
      SubsetSize(Elements(queue), Elements(log[k + 1..]));
    }
  }
}
