// apps/signal/src/event-bus.ts: the per-channel stream, the cursor search and replay.
module EventBus {
  import opened Common

  const BATCH_SIZE: nat := 200
  const MAX_BATCHES: nat := 5
  const MAX_SEARCHED: nat := MAX_BATCHES * BATCH_SIZE
  const EVENT_STREAM_MAXLEN: nat := 1000
  const MAX_REPLAY_EVENTS: nat := 500
  const MAX_SEQ: int := 99999

  /** The event types kept in the streams (packages/shared/src/gateway-events.ts). */
  const PERSISTED_EVENT_TYPES: set<string> := {
    "message.created", "message.updated", "message.deleted", "reaction.added", "reaction.removed",
    "thread.created", "thread.updated", "member.joined", "member.left", "channel.updated"}

  /** A Redis stream id `ms-seq`. */
  datatype StreamId = StreamId(ms: int, sn: int)

  /** A stream entry; `event` is the unique id of the event in it, None when the stored fields do not parse as one. */
  datatype Entry<Id> = Entry(at: StreamId, event: Option<Id>)

  datatype VortexEvent<Id> = VortexEvent(id: Id, channelId: string, eventType: string)

  /** An empty channel id or list of types stands for an absent one, which the source treats alike. */
  datatype SubscribeOptions = SubscribeOptions(channelId: string, types: seq<string>)

  /** What a subscriber asked for. */
  predicate Wants<Id>(options: SubscribeOptions, event: VortexEvent<Id>) {
    && (options.channelId == "" || event.channelId == options.channelId)
    && (options.types == [] || event.eventType in options.types)
  }

  method MatchesFilter<Id>(event: VortexEvent<Id>, options: SubscribeOptions) returns (r: bool)
    ensures r <==> Wants(options, event)
  {
    if options.channelId != "" && event.channelId != options.channelId { return false; }
    if |options.types| > 0 && event.eventType !in options.types { return false; }
    r := true;
  }

  predicate Leq(a: StreamId, b: StreamId) {
    a.ms < b.ms || (a.ms == b.ms && a.sn <= b.sn)
  }

  /** Redis never issues 0-0 and keeps a stream strictly increasing. */
  ghost predicate IsStream<Id>(s: seq<Entry<Id>>) {
    && (forall i :: 0 <= i < |s| ==> s[i].at.ms >= 0 && s[i].at.sn >= 0 && s[i].at != StreamId(0, 0))
    && (forall i, j :: 0 <= i < j < |s| ==> !Leq(s[j].at, s[i].at))
  }

  lemma DropKeepsStream<Id>(s: seq<Entry<Id>>, n: nat)
    requires IsStream(s) && n <= |s|
    ensures IsStream(s[n..])
  {
  }

  lemma AppendKeepsStream<Id>(s: seq<Entry<Id>>, e: Entry<Id>)
    requires IsStream(s) && e.at.ms >= 0 && e.at.sn >= 0 && e.at != StreamId(0, 0)
    requires forall i :: 0 <= i < |s| ==> !Leq(e.at, s[i].at)
    ensures IsStream(s + [e])
  {
  }

  /** An inclusive range end: `+`, or a stream id. */
  datatype Bound = Newest | At(id: StreamId)

  predicate Within(id: StreamId, end: Bound) {
    end.Newest? || Leq(id, end.id)
  }

  /** How many entries lie at or before `end`. */
  function CountUpTo<Id>(s: seq<Entry<Id>>, end: Bound): (n: nat)
    requires IsStream(s)
    ensures n <= |s| && forall i :: 0 <= i < |s| ==> (i < n <==> Within(s[i].at, end))
  {
    CountBelow(s, end, |s|)
  }

  function CountBelow<Id>(s: seq<Entry<Id>>, end: Bound, top: nat): (n: nat)
    requires IsStream(s) && top <= |s|
    ensures n <= top && forall i :: 0 <= i < top ==> (i < n <==> Within(s[i].at, end))
  {
    if top == 0 then 0
    else if Within(s[top - 1].at, end) then top
    else CountBelow(s, end, top - 1)
  }

  /** XREVRANGE key end - COUNT count, as positions in the stream. */
  function XRevRange<Id>(s: seq<Entry<Id>>, end: Bound, count: nat): seq<Entry<Id>>
    requires IsStream(s)
  {
    var n := CountUpTo(s, end);
    seq(Min(n, count), j requires 0 <= j < Min(n, count) => s[n - 1 - j])
  }

  predicate InRange<Id(==)>(s: seq<Entry<Id>>, end: Bound, e: Entry<Id>) {
    e in s && Within(e.at, end)
  }

  /** Entry `e` of the range is not in `r`. */
  predicate LeftOut<Id(==)>(s: seq<Entry<Id>>, end: Bound, r: seq<Entry<Id>>, e: Entry<Id>) {
    InRange(s, end, e) && e !in r
  }

  predicate OlderThanAll<Id>(e: Entry<Id>, r: seq<Entry<Id>>) {
    forall j :: 0 <= j < |r| ==> !Leq(r[j].at, e.at)
  }

  /**
   * What Redis promises of XREVRANGE: at most `count` entries of the stream at or before `end`, newest first,
   * and an entry in that range is left out only when `count` newer ones are returned.
   */
  ghost predicate NewestWithin<Id(!new)>(s: seq<Entry<Id>>, end: Bound, count: nat, r: seq<Entry<Id>>) {
    && |r| <= count
    && (forall j :: 0 <= j < |r| ==> InRange(s, end, r[j]))
    && (forall i, j :: 0 <= i < j < |r| ==> !Leq(r[i].at, r[j].at))
    && (forall e :: LeftOut(s, end, r, e) ==> |r| == count && OlderThanAll(e, r))
  }

  lemma XRevRangeKeepsPromise<Id(!new)>(s: seq<Entry<Id>>, end: Bound, count: nat)
    requires IsStream(s)
    ensures NewestWithin(s, end, count, XRevRange(s, end, count))
  {
    var n, r := CountUpTo(s, end), XRevRange(s, end, count);
    forall i | 0 <= i < n
      ensures s[i] in r || (|r| == count && OlderThanAll(s[i], r))
    {
      if n - 1 - i < |r| {
        assert r[n - 1 - i] == s[i];
      }
    }
  }

  /** Nothing newer than a returned entry is left out. */
  lemma NoneNewerMissing<Id(!new)>(s: seq<Entry<Id>>, end: Bound, count: nat, r: seq<Entry<Id>>, j: nat, i: nat, m: nat)
    requires IsStream(s) && NewestWithin(s, end, count, r) && j < |r|
    requires i < m < CountUpTo(s, end) && r[j] == s[i]
    ensures s[m] in r[..j]
  {
    assert Leq(s[i].at, s[m].at) && InRange(s, end, s[m]);
    assert !LeftOut(s, end, r, s[m]);
    var k :| 0 <= k < |r| && r[k] == s[m];
    assert k < j;
    assert r[..j][k] == s[m];
  }

  /** The j-th entry returned is the j-th newest in the range. */
  lemma {:induction false} NewestAt<Id(!new)>(s: seq<Entry<Id>>, end: Bound, count: nat, r: seq<Entry<Id>>, j: nat)
    requires IsStream(s) && NewestWithin(s, end, count, r) && j < |r|
    ensures j < CountUpTo(s, end) && r[j] == s[CountUpTo(s, end) - 1 - j]
    ensures forall k :: 0 <= k < j ==> r[k] == s[CountUpTo(s, end) - 1 - k]
  {
    var n := CountUpTo(s, end);
    assert InRange(s, end, r[j]);
    var i :| 0 <= i < |s| && s[i] == r[j];
    assert Within(s[i].at, end);
    if j > 0 {
      NewestAt(s, end, count, r, j - 1);
      assert !Leq(r[j - 1].at, r[j].at);
    }
    if i < n - 1 - j {
      NoneNewerMissing(s, end, count, r, j, i, n - 1 - j);
      assert false;
    }
  }

  lemma NewestReachesBack<Id(!new)>(s: seq<Entry<Id>>, end: Bound, count: nat, r: seq<Entry<Id>>)
    requires IsStream(s) && NewestWithin(s, end, count, r)
    requires |r| < CountUpTo(s, end) && forall k :: 0 <= k < |r| ==> r[k] == s[CountUpTo(s, end) - 1 - k]
    ensures |r| == count
  {
    var e := s[CountUpTo(s, end) - 1 - |r|];
    assert Within(e.at, end) && forall k :: 0 <= k < |r| ==> r[k] != e;
    assert LeftOut(s, end, r, e);
  }

  /** The promise determines the answer. */
  lemma XRevRangeIsNewest<Id(!new)>(s: seq<Entry<Id>>, end: Bound, count: nat, r: seq<Entry<Id>>)
    requires IsStream(s)
    ensures NewestWithin(s, end, count, r) <==> r == XRevRange(s, end, count)
  {
    XRevRangeKeepsPromise(s, end, count);
    if NewestWithin(s, end, count, r) {
      if r != [] {
        NewestAt(s, end, count, r, |r| - 1);
      }
      if |r| < CountUpTo(s, end) {
        NewestReachesBack(s, end, count, r);
      }
    }
  }

  /** The end of the next batch: just below `last`, written the way the source decrements an id. */
  function StepBelow(last: StreamId): Bound {
    if last.sn - 1 >= 0 then At(StreamId(last.ms, last.sn - 1)) else At(StreamId(last.ms - 1, MAX_SEQ))
  }

  /** The decrement after entry `k` passes over an entry of the millisecond before. */
  ghost predicate Skips<Id>(s: seq<Entry<Id>>, k: nat)
    requires k < |s|
  {
    s[k].at.sn == 0 && exists i :: 0 <= i < k && s[i].at.ms == s[k].at.ms - 1 && s[i].at.sn > MAX_SEQ
  }

  /** Stepping below entry `k` lands exactly on entry `k - 1` unless the decrement skips. */
  lemma StepBelowExact<Id>(s: seq<Entry<Id>>, k: nat)
    requires IsStream(s) && k < |s|
    ensures CountUpTo(s, StepBelow(s[k].at)) == k <==> !Skips(s, k)
  {
    var end := StepBelow(s[k].at);
    assert !Within(s[k].at, end);
    if k > 0 {
      assert CountUpTo(s, end) == k <==> Within(s[k - 1].at, end);
      assert !Leq(s[k].at, s[k - 1].at);
    }
  }

  /** The entry below a skipping decrement is passed over. */
  lemma SkipPassesOver<Id>(s: seq<Entry<Id>>, k: nat)
    requires IsStream(s) && k < |s| && Skips(s, k)
    ensures 0 < k && CountUpTo(s, StepBelow(s[k].at)) < k
  {
    StepBelowExact(s, k);
  }

  /** In a stream of `n` entries searched without skips, a batch other than the last one ends at entry `p`. */
  predicate IsBoundary(n: nat, p: nat) {
    0 < p < n && (n - p) % BATCH_SIZE == 0 && n - p < MAX_SEARCHED
  }

  /** No batch boundary skips an entry. */
  ghost predicate Steppable<Id>(s: seq<Entry<Id>>) {
    forall p :: 0 <= p < |s| && IsBoundary(|s|, p) ==> !Skips(s, p)
  }

  lemma SmallSequenceNumbers<Id>(s: seq<Entry<Id>>)
    requires forall i :: 0 <= i < |s| ==> s[i].at.sn <= MAX_SEQ
    ensures Steppable(s)
  {
  }

  predicate Holds<Id(==)>(e: Entry<Id>, eventId: Id) {
    e.event == Some(eventId)
  }

  /** Where the search ends up: the newest of the searched entries that holds the event. */
  ghost predicate FoundAt<Id>(s: seq<Entry<Id>>, eventId: Id, i: nat) {
    && i < |s| && |s| - i <= MAX_SEARCHED && Holds(s[i], eventId)
    && forall j :: i < j < |s| ==> !Holds(s[j], eventId)
  }

  /** What replay reads once the cursor search is done: the first `limit` entries after it, or the oldest ones. */
  function ReadAfter<Id>(s: seq<Entry<Id>>, cursor: Option<StreamId>, limit: nat): seq<Entry<Id>>
    requires IsStream(s)
  {
    var from := if cursor.None? then 0 else CountUpTo(s, At(cursor.value));
    s[from..Min(|s|, from + limit)]
  }

  function Events<Id>(entries: seq<Entry<Id>>): seq<Id> {
    if entries == [] then []
    else (if entries[0].event.Some? then [entries[0].event.value] else []) + Events(entries[1..])
  }

  /** A plain backward scan of at most `budget` entries below position `top`. */
  function ScanBack<Id(==)>(s: seq<Entry<Id>>, eventId: Id, top: nat, budget: nat): (r: Option<nat>)
    requires top <= |s|
    ensures r.Some? ==> r.value < top && top - r.value <= budget && Holds(s[r.value], eventId)
  {
    if top == 0 || budget == 0 then None
    else if Holds(s[top - 1], eventId) then Some(top - 1)
    else ScanBack(s, eventId, top - 1, budget - 1)
  }

  /** What replay answers once the cursor is searched for: what follows it, or the oldest entries. */
  function ReplayAt<Id>(s: seq<Entry<Id>>, at: Option<nat>, limit: nat): seq<Id> {
    var from := if at.Some? && at.value < |s| then at.value + 1 else 0;
    Events(s[from..Min(|s|, from + limit)])
  }

  /** Replay from a plain scan of the newest 1000 entries. */
  function ReplayFrom<Id(==)>(s: seq<Entry<Id>>, eventId: Id, limit: nat): seq<Id> {
    ReplayAt(s, ScanBack(s, eventId, |s|, MAX_SEARCHED), limit)
  }

  lemma {:induction false} ScanBackFinds<Id>(s: seq<Entry<Id>>, eventId: Id, top: nat, budget: nat, i: nat)
    requires top <= |s|
    ensures ScanBack(s, eventId, top, budget) == Some(i)
        <==> i < top && top - i <= budget && Holds(s[i], eventId) && forall j :: i < j < top ==> !Holds(s[j], eventId)
    decreases top
  {
    if top > 0 && budget > 0 && !Holds(s[top - 1], eventId) {
      ScanBackFinds(s, eventId, top - 1, budget - 1, i);
    }
  }

  lemma {:induction false} EventsAppend<Id>(a: seq<Entry<Id>>, b: seq<Entry<Id>>)
    ensures Events(a + b) == Events(a) + Events(b)
  {
    if a == [] {
      assert a + b == b;
    } else {
      var head := if a[0].event.Some? then [a[0].event.value] else [];
      assert (a + b)[0] == a[0] && (a + b)[1..] == a[1..] + b;
      EventsAppend(a[1..], b);
      assert Events(a + b) == head + (Events(a[1..]) + Events(b));
    }
  }

  /** No entry is malformed. */
  ghost predicate Parsed<Id>(s: seq<Entry<Id>>) {
    forall i :: 0 <= i < |s| ==> s[i].event.Some?
  }

  lemma {:induction false} EventsWellFormed<Id>(s: seq<Entry<Id>>)
    requires Parsed(s)
    ensures |Events(s)| == |s| && forall i :: 0 <= i < |s| ==> Events(s)[i] == s[i].event.value
  {
    if s != [] {
      EventsWellFormed(s[1..]);
    }
  }

  // ---- The batched search ------------------------------------------------------

  /** Where the batch after the one below `top` starts. */
  function NextTop<Id>(s: seq<Entry<Id>>, top: nat): nat
    requires IsStream(s) && 0 < top <= |s|
  {
    CountUpTo(s, StepBelow(s[Max(0, top - BATCH_SIZE)].at))
  }

  /** Batches never overlap. */
  lemma NextTopBelow<Id>(s: seq<Entry<Id>>, top: nat)
    requires IsStream(s) && 0 < top <= |s|
    ensures NextTop(s, top) <= Max(0, top - BATCH_SIZE)
  {
    var k := Max(0, top - BATCH_SIZE);
    assert !Within(s[k].at, StepBelow(s[k].at));
  }

  /** The search as it is done: a batch below `top`, then a decrement, at most `attempts` times. */
  function BatchedSearch<Id(==)>(s: seq<Entry<Id>>, eventId: Id, top: nat, attempts: nat): (r: Option<nat>)
    requires IsStream(s) && top <= |s|
    ensures r.Some? ==> r.value < top && Holds(s[r.value], eventId)
    decreases attempts
  {
    if attempts == 0 || top == 0 then None
    else
      var hit := ScanBack(s, eventId, top, BATCH_SIZE);
      NextTopBelow(s, top);
      if hit.Some? then hit else BatchedSearch(s, eventId, NextTop(s, top), attempts - 1)
  }

  /** A scan goes on where a shorter one stopped. */
  lemma {:induction false} ScanBackSplits<Id>(s: seq<Entry<Id>>, eventId: Id, top: nat, a: nat, b: nat)
    requires a <= top <= |s|
    ensures ScanBack(s, eventId, top, a + b)
         == if ScanBack(s, eventId, top, a).Some? then ScanBack(s, eventId, top, a)
            else ScanBack(s, eventId, top - a, b)
    decreases top
  {
    if a > 0 && !Holds(s[top - 1], eventId) {
      ScanBackSplits(s, eventId, top - 1, a - 1, b);
    }
  }

  lemma {:induction false} ScanBackShort<Id>(s: seq<Entry<Id>>, eventId: Id, top: nat, a: nat, b: nat)
    requires top <= |s| && top <= a && top <= b
    ensures ScanBack(s, eventId, top, a) == ScanBack(s, eventId, top, b)
    decreases top
  {
    if top > 0 {
      ScanBackShort(s, eventId, top - 1, a - 1, b - 1);
    }
  }

  /** One batch of a plain scan. */
  lemma ScanBackBatch<Id>(s: seq<Entry<Id>>, eventId: Id, top: nat, attempts: nat)
    requires BATCH_SIZE < top <= |s| && attempts > 0
    ensures var hit := ScanBack(s, eventId, top, BATCH_SIZE);
      ScanBack(s, eventId, top, attempts * BATCH_SIZE)
      == if hit.Some? then hit else ScanBack(s, eventId, top - BATCH_SIZE, (attempts - 1) * BATCH_SIZE)
  {
    ScanBackSplits(s, eventId, top, BATCH_SIZE, (attempts - 1) * BATCH_SIZE);
    assert BATCH_SIZE + (attempts - 1) * BATCH_SIZE == attempts * BATCH_SIZE;
  }

  /** A boundary of the search that is left below `top`. */
  predicate BoundaryBelow(top: nat, attempts: nat, p: nat) {
    0 < p < top && (top - p) % BATCH_SIZE == 0 && top - p < attempts * BATCH_SIZE
  }

  /** No boundary that is left skips. */
  ghost predicate NoSkipBelow<Id>(s: seq<Entry<Id>>, top: nat, attempts: nat) {
    forall p :: 0 <= p < |s| && BoundaryBelow(top, attempts, p) ==> !Skips(s, p)
  }

  lemma NoSkipNext<Id>(s: seq<Entry<Id>>, top: nat, attempts: nat)
    requires NoSkipBelow(s, top, attempts) && BATCH_SIZE < top <= |s| && attempts > 1
    ensures !Skips(s, top - BATCH_SIZE) && NoSkipBelow(s, top - BATCH_SIZE, attempts - 1)
  {
    assert BoundaryBelow(top, attempts, top - BATCH_SIZE);
    forall p | 0 <= p < |s| && BoundaryBelow(top - BATCH_SIZE, attempts - 1, p) ensures !Skips(s, p) {
      BoundaryBelowNext(top, attempts, p);
    }
  }

  lemma BoundaryIsNextOrBelow(top: nat, attempts: nat, p: nat)
    requires BoundaryBelow(top, attempts, p)
    ensures attempts > 1 && p <= top - BATCH_SIZE
    ensures p != top - BATCH_SIZE ==> BoundaryBelow(top - BATCH_SIZE, attempts - 1, p)
  {
  }

  lemma BoundaryBelowNext(top: nat, attempts: nat, p: nat)
    requires BATCH_SIZE < top && attempts > 0
    ensures BoundaryBelow(top, attempts, p) && p != top - BATCH_SIZE
        ==> BoundaryBelow(top - BATCH_SIZE, attempts - 1, p)
    ensures BoundaryBelow(top - BATCH_SIZE, attempts - 1, p) ==> BoundaryBelow(top, attempts, p)
  {
  }

  /** One step of the search where the boundary does not skip. */
  lemma BatchedStep<Id>(s: seq<Entry<Id>>, eventId: Id, top: nat, attempts: nat)
    requires IsStream(s) && BATCH_SIZE < top <= |s| && attempts > 0 && !Skips(s, top - BATCH_SIZE)
    ensures var hit := ScanBack(s, eventId, top, BATCH_SIZE);
      BatchedSearch(s, eventId, top, attempts)
      == if hit.Some? then hit else BatchedSearch(s, eventId, top - BATCH_SIZE, attempts - 1)
  {
    StepBelowExact(s, top - BATCH_SIZE);
  }

  /** The last step: no batch is left, in the stream or to be asked for. */
  lemma BatchedLast<Id>(s: seq<Entry<Id>>, eventId: Id, top: nat, attempts: nat)
    requires IsStream(s) && top <= |s| && (attempts <= 1 || top <= BATCH_SIZE)
    ensures BatchedSearch(s, eventId, top, attempts) == ScanBack(s, eventId, top, attempts * BATCH_SIZE)
  {
    if attempts > 1 {
      ScanBackShort(s, eventId, top, BATCH_SIZE, attempts * BATCH_SIZE);
      if top > 0 {
        NextTopBelow(s, top);
      }
    }
  }

  lemma {:induction false} BatchedStepIsScan<Id>(s: seq<Entry<Id>>, eventId: Id, top: nat, attempts: nat)
    requires IsStream(s) && BATCH_SIZE < top <= |s| && attempts > 1 && !Skips(s, top - BATCH_SIZE)
    requires BatchedSearch(s, eventId, top - BATCH_SIZE, attempts - 1)
          == ScanBack(s, eventId, top - BATCH_SIZE, (attempts - 1) * BATCH_SIZE)
    ensures BatchedSearch(s, eventId, top, attempts) == ScanBack(s, eventId, top, attempts * BATCH_SIZE)
  {
    ScanBackBatch(s, eventId, top, attempts);
    BatchedStep(s, eventId, top, attempts);
  }

  lemma {:induction false} BatchedIsScan<Id>(s: seq<Entry<Id>>, eventId: Id, top: nat, attempts: nat)
    requires IsStream(s) && top <= |s| && NoSkipBelow(s, top, attempts)
    ensures BatchedSearch(s, eventId, top, attempts) == ScanBack(s, eventId, top, attempts * BATCH_SIZE)
    decreases attempts
  {
    if attempts <= 1 || top <= BATCH_SIZE {
      BatchedLast(s, eventId, top, attempts);
    } else {
      NoSkipNext(s, top, attempts);
      BatchedIsScan(s, eventId, top - BATCH_SIZE, attempts - 1);
      BatchedStepIsScan(s, eventId, top, attempts);
    }
  }

  /** No event is stored twice. */
  ghost predicate DistinctEvents<Id(!new)>(s: seq<Entry<Id>>) {
    forall i, j :: 0 <= i < j < |s| && s[i].event.Some? ==> s[i].event != s[j].event
  }

  /** In a stream of distinct events only its own entry can be found. */
  lemma ScanFindsOnly<Id(!new)>(s: seq<Entry<Id>>, i: nat, top: nat, budget: nat)
    requires DistinctEvents(s) && i < top <= |s| && s[i].event.Some?
    ensures ScanBack(s, s[i].event.value, top, budget) == if top - i <= budget then Some(i) else None
  {
    var id := s[i].event.value;
    assert forall j :: 0 <= j < top ==> (Holds(s[j], id) <==> j == i);
    ScanBackFinds(s, id, top, budget, i);
    forall k: nat | k != i ensures ScanBack(s, id, top, budget) != Some(k) {
      ScanBackFinds(s, id, top, budget, k);
    }
  }

  /** The search from `top` on does not find the event in entry `k`. */
  ghost predicate Hidden<Id>(s: seq<Entry<Id>>, top: nat, attempts: nat, k: nat)
    requires IsStream(s) && top <= |s|
  {
    && k < top && top - k <= attempts * BATCH_SIZE && s[k].event.Some?
    && BatchedSearch(s, s[k].event.value, top, attempts) != Some(k)
  }

  /** A boundary that skips hides the entry below it. */
  lemma SkipHidesBelow<Id(!new)>(s: seq<Entry<Id>>, top: nat, attempts: nat)
    requires IsStream(s) && DistinctEvents(s) && BATCH_SIZE < top <= |s| && attempts > 1
    requires Skips(s, top - BATCH_SIZE) && s[top - BATCH_SIZE - 1].event.Some?
    ensures Hidden(s, top, attempts, top - BATCH_SIZE - 1)
  {
    SkipPassesOver(s, top - BATCH_SIZE);
    ScanFindsOnly(s, top - BATCH_SIZE - 1, top, BATCH_SIZE);
  }

  /** What the rest of the search misses, the whole search misses. */
  lemma HiddenFurtherBack<Id(!new)>(s: seq<Entry<Id>>, top: nat, next: nat, attempts: nat, hidden: nat)
    requires IsStream(s) && DistinctEvents(s) && 0 < next == top - BATCH_SIZE && top <= |s| && attempts > 1
    requires !Skips(s, next) && Hidden(s, next, attempts - 1, hidden)
    ensures Hidden(s, top, attempts, hidden)
  {
    BatchedStep(s, s[hidden].event.value, top, attempts);
    ScanFindsOnly(s, hidden, top, BATCH_SIZE);
  }

  /** Some entry is hidden by the first boundary that skips. */
  lemma {:induction false} SkipHides<Id(!new)>(s: seq<Entry<Id>>, top: nat, attempts: nat, p: nat) returns (hidden: nat)
    requires IsStream(s) && DistinctEvents(s) && top <= |s| && Parsed(s)
    requires p < |s| && BoundaryBelow(top, attempts, p) && Skips(s, p)
    ensures Hidden(s, top, attempts, hidden)
    decreases attempts
  {
    BoundaryIsNextOrBelow(top, attempts, p);
    var next := top - BATCH_SIZE;
    if Skips(s, next) {
      hidden := next - 1;
      SkipHidesBelow(s, top, attempts);
    } else {
      hidden := SkipHides(s, next, attempts - 1, p);
      HiddenFurtherBack(s, top, next, attempts, hidden);
    }
  }

  /**
   * The batched search finds what a plain scan of the newest 1000 entries finds, for every event, exactly when
   * no batch boundary skips an entry.
   */
  lemma SearchExactly<Id(!new)>(s: seq<Entry<Id>>)
    requires IsStream(s) && DistinctEvents(s) && Parsed(s)
    ensures Steppable(s)
        <==> forall id :: BatchedSearch(s, id, |s|, MAX_BATCHES) == ScanBack(s, id, |s|, MAX_SEARCHED)
  {
    if Steppable(s) {
      forall id ensures BatchedSearch(s, id, |s|, MAX_BATCHES) == ScanBack(s, id, |s|, MAX_SEARCHED) {
        SteppableSearch(s, id);
      }
    } else {
      var p :| 0 <= p < |s| && IsBoundary(|s|, p) && Skips(s, p);
      var hidden := SkipHides(s, |s|, MAX_BATCHES, p);
      ScanFindsOnly(s, hidden, |s|, MAX_SEARCHED);
      assert BatchedSearch(s, s[hidden].event.value, |s|, MAX_BATCHES)
          != ScanBack(s, s[hidden].event.value, |s|, MAX_SEARCHED);
    }
  }

  lemma SteppableBelow<Id>(s: seq<Entry<Id>>)
    requires Steppable(s)
    ensures NoSkipBelow(s, |s|, MAX_BATCHES)
  {
    forall p | 0 <= p < |s| && BoundaryBelow(|s|, MAX_BATCHES, p) ensures !Skips(s, p) {
      assert IsBoundary(|s|, p);
    }
  }

  /** Malformed and repeated entries included. */
  lemma SteppableSearch<Id>(s: seq<Entry<Id>>, eventId: Id)
    requires IsStream(s) && Steppable(s)
    ensures BatchedSearch(s, eventId, |s|, MAX_BATCHES) == ScanBack(s, eventId, |s|, MAX_SEARCHED)
  {
    SteppableBelow(s);
    BatchedIsScan(s, eventId, |s|, MAX_BATCHES);
  }

  /** One entry with a sequence number above 99999, then a batch in the next millisecond. */
  function SkippingStream(): seq<Entry<nat>> {
    seq(BATCH_SIZE + 1, k requires 0 <= k =>
      Entry(if k == 0 then StreamId(1, MAX_SEQ + 1) else StreamId(2, k - 1), Some(k)))
  }

  /** Such a stream is possible, and the search misses an event among its newest 1000. */
  lemma SkippedEventIsMissed()
    ensures var s := SkippingStream();
      IsStream(s) && FoundAt(s, 0, 0) && BatchedSearch(s, 0, |s|, MAX_BATCHES) == None
  {
    var s := SkippingStream();
    assert s[0].at.ms == s[1].at.ms - 1 && s[0].at.sn > MAX_SEQ;
    assert Skips(s, 1);
    SkipPassesOver(s, 1);
    assert NextTop(s, |s|) == 0;
    forall i: nat ensures ScanBack(s, 0, |s|, BATCH_SIZE) != Some(i) {
      ScanBackFinds(s, 0, |s|, BATCH_SIZE, i);
    }
  }

  // ---- What replay answers -----------------------------------------------------

  /** Reading behind the stream id found is replaying from its position. */
  lemma ReadAfterIsReplay<Id>(s: seq<Entry<Id>>, limit: nat, cursor: Option<StreamId>, at: Option<nat>)
    requires IsStream(s)
    requires at.Some? ==> at.value < |s| && cursor == Some(s[at.value].at)
    requires at.None? ==> cursor.None?
    ensures Events(ReadAfter(s, cursor, limit)) == ReplayAt(s, at, limit)
  {
    if at.Some? {
      var n := CountUpTo(s, At(cursor.value));
      assert Within(s[at.value].at, At(cursor.value));
      assert at.value + 1 < |s| ==> !Within(s[at.value + 1].at, At(cursor.value));
    }
  }

  /**
   * Replay after a known cursor is the first `limit` events behind it in stream order,
   * and a batch shorter than `limit` reaches the end of the stream as read.
   */
  lemma ReplayInOrder<Id>(s: seq<Entry<Id>>, eventId: Id, limit: nat, i: nat)
    requires FoundAt(s, eventId, i) && Parsed(s)
    ensures var r := ReplayFrom(s, eventId, limit);
      && |r| == Min(limit, |s| - i - 1)
      && (forall k :: 0 <= k < |r| ==> s[i + 1 + k].event == Some(r[k]))
      && (|r| < limit ==> i + 1 + |r| == |s|)
  {
    ScanBackFinds(s, eventId, |s|, MAX_SEARCHED, i);
    EventsWellFormed(s[i + 1..Min(|s|, i + 1 + limit)]);
  }

  ghost predicate Unknown<Id>(s: seq<Entry<Id>>, eventId: Id) {
    forall i :: !FoundAt(s, eventId, i)
  }

  /** An unknown cursor gets the oldest entries of the stream. */
  lemma UnknownCursorReadsOldest<Id>(s: seq<Entry<Id>>, eventId: Id, limit: nat)
    requires Unknown(s, eventId)
    ensures ReplayFrom(s, eventId, limit) == Events(s[..Min(|s|, limit)])
  {
    forall i: nat ensures ScanBack(s, eventId, |s|, MAX_SEARCHED) != Some(i) {
      ScanBackFinds(s, eventId, |s|, MAX_SEARCHED, i);
      assert !FoundAt(s, eventId, i);
    }
  }

  /** The latest events, which the comment in the source promises for an unknown cursor. */
  function Latest<Id>(s: seq<Entry<Id>>, limit: nat): seq<Id> {
    Events(s[|s| - Min(|s|, limit)..])
  }

  lemma {:induction false} EventsMember<Id>(s: seq<Entry<Id>>, id: Id)
    ensures id in Events(s) <==> exists k :: 0 <= k < |s| && s[k].event == Some(id)
  {
    if s != [] {
      EventsMember(s[1..], id);
      assert s == [s[0]] + s[1..];
      assert Events(s) == (if s[0].event.Some? then [s[0].event.value] else []) + Events(s[1..]);
    }
  }

  lemma {:induction false} EventsOfMalformed<Id>(s: seq<Entry<Id>>)
    requires forall k :: 0 <= k < |s| ==> s[k].event.None?
    ensures Events(s) == []
  {
    if s != [] {
      EventsOfMalformed(s[1..]);
    }
  }

  /** Entry `i` is among the oldest `n` or among the latest `n` of a stream, but not both. */
  predicate InOneEnd(size: nat, n: nat, i: nat) {
    (i < n) != (i >= size - n)
  }

  lemma MalformedEndsAgree<Id>(s: seq<Entry<Id>>, n: nat)
    requires n <= |s| && forall i :: 0 <= i < |s| && InOneEnd(|s|, n, i) ==> s[i].event.None?
    ensures Events(s[..n]) == Events(s[|s| - n..])
  {
    var d := |s| - n;
    if d <= n {
      assert s[..n] == s[..d] + s[d..n] && s[d..] == s[d..n] + s[n..];
      EventsAppend(s[..d], s[d..n]);
      EventsAppend(s[d..n], s[n..]);
      EventsOfMalformed(s[..d]);
      EventsOfMalformed(s[n..]);
    } else {
      EventsOfMalformed(s[..n]);
      EventsOfMalformed(s[d..]);
    }
  }

  lemma EventInOneEnd<Id(!new)>(s: seq<Entry<Id>>, n: nat, i: nat)
    requires DistinctEvents(s) && n <= |s| && i < |s| && InOneEnd(|s|, n, i) && s[i].event.Some?
    ensures Events(s[..n]) != Events(s[|s| - n..])
  {
    var id, d := s[i].event.value, |s| - n;
    EventsMember(s[..n], id);
    EventsMember(s[d..], id);
    assert i < n ==> s[..n][i].event == Some(id);
    assert i >= d ==> s[d..][i - d].event == Some(id);
    assert forall k :: 0 <= k < n && k != i ==> s[..n][k].event != Some(id);
    assert forall k :: 0 <= k < n && k + d != i ==> s[d..][k].event != Some(id);
  }

  /**
   * For an unknown cursor the answer is the latest events exactly when every entry that is among the oldest
   * `limit` or the latest `limit`, but not both, is malformed; without malformed entries, exactly when the
   * stream is no longer than `limit`.
   */
  lemma UnknownCursorExactly<Id(!new)>(s: seq<Entry<Id>>, eventId: Id, limit: nat)
    requires Unknown(s, eventId) && DistinctEvents(s)
    ensures ReplayFrom(s, eventId, limit) == Latest(s, limit)
        <==> forall i :: 0 <= i < |s| && InOneEnd(|s|, Min(|s|, limit), i) ==> s[i].event.None?
    ensures Parsed(s) ==>
        (ReplayFrom(s, eventId, limit) == Latest(s, limit) <==> limit == 0 || |s| <= limit)
  {
    var n := Min(|s|, limit);
    UnknownCursorReadsOldest(s, eventId, limit);
    if i :| 0 <= i < |s| && InOneEnd(|s|, n, i) && s[i].event.Some? {
      EventInOneEnd(s, n, i);
    } else {
      MalformedEndsAgree(s, n);
    }
    assert 0 < n < |s| ==> InOneEnd(|s|, n, 0);
  }

  function NumberedStream(n: nat): seq<Entry<nat>> {
    seq(n, k requires 0 <= k => Entry(StreamId(k + 1, 0), Some(k)))
  }

  /** One event more than the limit, and the newest one is not in the answer. */
  lemma UnknownCursorMissesLatest(limit: nat)
    requires limit > 0
    ensures var s := NumberedStream(limit + 1);
      && IsStream(s) && Unknown(s, limit + 1)
      && limit in Latest(s, limit) && limit !in ReplayFrom(s, limit + 1, limit)
  {
    var s := NumberedStream(limit + 1);
    UnknownCursorReadsOldest(s, limit + 1, limit);
    EventsMember(s[..limit], limit);
    EventsMember(s[1..], limit);
    assert s[1..][limit - 1].event == Some(limit);
  }

  /** The loop of replay: entries that do not parse are passed over. */
  method CollectEvents<Id>(entries: seq<Entry<Id>>) returns (events: seq<Id>)
    ensures events == Events(entries)
  {
    events := [];
    for i := 0 to |entries|
      invariant events == Events(entries[..i])
    {
      assert entries[..i + 1] == entries[..i] + [entries[i]];
      EventsAppend(entries[..i], [entries[i]]);
      if entries[i].event.None? { continue; }
      events := events + [entries[i].event.value];
    }
    assert entries[..|entries|] == entries;
  }

  /** The `count` positions below `top`, downwards. */
  ghost function Down(top: nat, count: nat): seq<nat>
    requires count <= top
  {
    seq(count, k requires 0 <= k < count => top - 1 - k)
  }

  /** Positions below `top`, each smaller than the one before. */
  ghost predicate Descending(visited: seq<nat>, top: nat) {
    && (forall k :: 0 <= k < |visited| ==> visited[k] < top)
    && (forall j, k :: 0 <= j < k < |visited| ==> visited[j] > visited[k])
  }

  lemma DescendingOn(visited: seq<nat>, top: nat, count: nat)
    requires count <= top && forall k :: 0 <= k < |visited| ==> visited[k] < top - count
    requires Descending(visited, top)
    ensures Descending(Down(top, count) + visited, top)
  {
  }

  lemma Regroup(a: seq<nat>, b: seq<nat>, c: seq<nat>)
    ensures a + b + c == a + (b + c)
  {
  }

  lemma DownOn(top: nat, a: nat, b: nat)
    requires a + b <= top
    ensures Down(top, a) + Down(top - a, b) == Down(top, a + b)
  {
  }

  /** The positions a search looks at, in order. */
  ghost function Visited<Id>(s: seq<Entry<Id>>, eventId: Id, top: nat, attempts: nat): seq<nat>
    requires IsStream(s) && top <= |s|
    decreases attempts
  {
    if attempts == 0 || top == 0 then []
    else
      var hit := ScanBack(s, eventId, top, BATCH_SIZE);
      NextTopBelow(s, top);
      if hit.Some? then Down(top, top - hit.value)
      else Down(top, Min(top, BATCH_SIZE)) + Visited(s, eventId, NextTop(s, top), attempts - 1)
  }

  /** No position is visited twice, and a search ends where it finds the event. */
  lemma {:induction false} VisitedDescends<Id>(s: seq<Entry<Id>>, eventId: Id, top: nat, attempts: nat)
    requires IsStream(s) && top <= |s|
    ensures var visited, at := Visited(s, eventId, top, attempts), BatchedSearch(s, eventId, top, attempts);
      && |visited| <= attempts * BATCH_SIZE && Descending(visited, top)
      && (at.Some? ==> visited != [] && visited[|visited| - 1] == at.value)
    decreases attempts
  {
    if attempts > 0 && top > 0 {
      var seen := Min(top, BATCH_SIZE);
      NextTopBelow(s, top);
      VisitedDescends(s, eventId, NextTop(s, top), attempts - 1);
      DescendingOn(Visited(s, eventId, NextTop(s, top), attempts - 1), top, seen);
    }
  }

  /** A batch without the event: the search goes on below the decrement. */
  lemma SearchMisses<Id>(s: seq<Entry<Id>>, eventId: Id, top: nat, attempts: nat)
    requires IsStream(s) && 0 < top <= |s| && attempts > 0 && ScanBack(s, eventId, top, BATCH_SIZE).None?
    ensures BatchedSearch(s, eventId, top, attempts) == BatchedSearch(s, eventId, NextTop(s, top), attempts - 1)
    ensures Visited(s, eventId, top, attempts)
         == Down(top, Min(top, BATCH_SIZE)) + Visited(s, eventId, NextTop(s, top), attempts - 1)
  {
  }

  lemma SearchHits<Id>(s: seq<Entry<Id>>, eventId: Id, top: nat, attempts: nat, i: nat)
    requires IsStream(s) && i < top <= |s| && attempts > 0 && ScanBack(s, eventId, top, BATCH_SIZE) == Some(i)
    ensures BatchedSearch(s, eventId, top, attempts) == Some(i) && i < top && top - i <= BATCH_SIZE
    ensures Visited(s, eventId, top, attempts) == Down(top, top - i)
  {
  }

  /** The newest `n` positions below `top`, all of them when nothing is found. */
  ghost predicate OneByOne(visited: seq<nat>, top: nat, found: bool, budget: nat) {
    |visited| <= top && visited == Down(top, |visited|) && (!found ==> |visited| == Min(top, budget))
  }

  lemma LastBatchOneByOne<Id>(s: seq<Entry<Id>>, eventId: Id, top: nat, attempts: nat)
    requires IsStream(s) && top <= |s| && (attempts <= 1 || top <= BATCH_SIZE)
    ensures OneByOne(Visited(s, eventId, top, attempts), top, BatchedSearch(s, eventId, top, attempts).Some?,
                     attempts * BATCH_SIZE)
  {
    if attempts > 0 && top > 0 {
      var hit := ScanBack(s, eventId, top, BATCH_SIZE);
      if hit.Some? {
        SearchHits(s, eventId, top, attempts, hit.value);
      } else {
        SearchMisses(s, eventId, top, attempts);
        NextTopBelow(s, top);
      }
    }
  }

  lemma OneByOneOn(rest: seq<nat>, top: nat, found: bool, budget: nat)
    requires BATCH_SIZE < top && OneByOne(rest, top - BATCH_SIZE, found, budget)
    ensures OneByOne(Down(top, BATCH_SIZE) + rest, top, found, budget + BATCH_SIZE)
  {
    DownOn(top, BATCH_SIZE, |rest|);
  }

  lemma HitOneByOne<Id>(s: seq<Entry<Id>>, eventId: Id, top: nat, attempts: nat)
    requires IsStream(s) && 0 < top <= |s| && attempts > 0 && ScanBack(s, eventId, top, BATCH_SIZE).Some?
    ensures OneByOne(Visited(s, eventId, top, attempts), top, true, attempts * BATCH_SIZE)
    ensures BatchedSearch(s, eventId, top, attempts).Some?
  {
    SearchHits(s, eventId, top, attempts, ScanBack(s, eventId, top, BATCH_SIZE).value);
  }

  lemma MissStepwise<Id>(s: seq<Entry<Id>>, eventId: Id, top: nat, attempts: nat)
    requires IsStream(s) && BATCH_SIZE < top <= |s| && attempts > 1 && !Skips(s, top - BATCH_SIZE)
    requires ScanBack(s, eventId, top, BATCH_SIZE).None?
    ensures BatchedSearch(s, eventId, top, attempts) == BatchedSearch(s, eventId, top - BATCH_SIZE, attempts - 1)
    ensures Visited(s, eventId, top, attempts)
         == Down(top, BATCH_SIZE) + Visited(s, eventId, top - BATCH_SIZE, attempts - 1)
  {
    StepBelowExact(s, top - BATCH_SIZE);
    assert NextTop(s, top) == top - BATCH_SIZE;
    SearchMisses(s, eventId, top, attempts);
  }

  lemma MissOneByOne<Id>(s: seq<Entry<Id>>, eventId: Id, top: nat, attempts: nat, found: bool)
    requires IsStream(s) && BATCH_SIZE < top <= |s| && attempts > 1 && !Skips(s, top - BATCH_SIZE)
    requires ScanBack(s, eventId, top, BATCH_SIZE).None?
    requires OneByOne(Visited(s, eventId, top - BATCH_SIZE, attempts - 1), top - BATCH_SIZE, found,
                      (attempts - 1) * BATCH_SIZE)
    requires found == BatchedSearch(s, eventId, top - BATCH_SIZE, attempts - 1).Some?
    ensures OneByOne(Visited(s, eventId, top, attempts), top, found, attempts * BATCH_SIZE)
    ensures found == BatchedSearch(s, eventId, top, attempts).Some?
  {
    MissStepwise(s, eventId, top, attempts);
    OneByOneOn(Visited(s, eventId, top - BATCH_SIZE, attempts - 1), top, found, (attempts - 1) * BATCH_SIZE);
  }

  /** Without skips the visited positions are the newest ones, one by one. */
  lemma {:induction false} VisitedStepwise<Id>(s: seq<Entry<Id>>, eventId: Id, top: nat, attempts: nat)
    requires IsStream(s) && top <= |s| && NoSkipBelow(s, top, attempts)
    ensures OneByOne(Visited(s, eventId, top, attempts), top, BatchedSearch(s, eventId, top, attempts).Some?,
                     attempts * BATCH_SIZE)
    decreases attempts
  {
    if attempts <= 1 || top <= BATCH_SIZE {
      LastBatchOneByOne(s, eventId, top, attempts);
    } else {
      NoSkipNext(s, top, attempts);
      VisitedStepwise(s, eventId, top - BATCH_SIZE, attempts - 1);
      if ScanBack(s, eventId, top, BATCH_SIZE).Some? {
        HitOneByOne(s, eventId, top, attempts);
      } else {
        MissOneByOne(s, eventId, top, attempts, BatchedSearch(s, eventId, top - BATCH_SIZE, attempts - 1).Some?);
      }
    }
  }

  /** The loop from range end `end` on: where the event is, and the positions looked at so far and later. */
  ghost function SearchFrom<Id>(s: seq<Entry<Id>>, eventId: Id, end: Bound, attempts: nat, visited: seq<nat>)
    : (Option<nat>, seq<nat>)
    requires IsStream(s)
    decreases attempts
  {
    var top := CountUpTo(s, end);
    if attempts == 0 || top == 0 then (None, visited)
    else
      var at := ScanBack(s, eventId, top, BATCH_SIZE);
      if at.Some? then (at, visited + Down(top, top - at.value))
      else SearchFrom(s, eventId, StepBelow(s[Max(0, top - BATCH_SIZE)].at), attempts - 1,
                      visited + Down(top, Min(top, BATCH_SIZE)))
  }

  lemma SearchFromMisses<Id>(s: seq<Entry<Id>>, eventId: Id, end: Bound, attempts: nat, visited: seq<nat>)
    requires IsStream(s) && attempts > 0 && CountUpTo(s, end) > 0
    requires ScanBack(s, eventId, CountUpTo(s, end), BATCH_SIZE).None?
    ensures var top := CountUpTo(s, end);
      SearchFrom(s, eventId, end, attempts, visited)
      == SearchFrom(s, eventId, StepBelow(s[Max(0, top - BATCH_SIZE)].at), attempts - 1,
                    visited + Down(top, Min(top, BATCH_SIZE)))
  {
  }

  lemma {:induction false} SearchFromIsAfterMiss<Id>(
      s: seq<Entry<Id>>, eventId: Id, end: Bound, attempts: nat, visited: seq<nat>, next: Bound, seen: seq<nat>)
    requires IsStream(s) && attempts > 0 && CountUpTo(s, end) > 0
    requires ScanBack(s, eventId, CountUpTo(s, end), BATCH_SIZE).None?
    requires next == StepBelow(s[Max(0, CountUpTo(s, end) - BATCH_SIZE)].at)
    requires seen == Down(CountUpTo(s, end), Min(CountUpTo(s, end), BATCH_SIZE))
    requires SearchFrom(s, eventId, next, attempts - 1, visited + seen)
          == (BatchedSearch(s, eventId, CountUpTo(s, next), attempts - 1),
              visited + seen + Visited(s, eventId, CountUpTo(s, next), attempts - 1))
    ensures SearchFrom(s, eventId, end, attempts, visited)
         == (BatchedSearch(s, eventId, CountUpTo(s, end), attempts),
             visited + Visited(s, eventId, CountUpTo(s, end), attempts))
  {
    SearchFromMisses(s, eventId, end, attempts, visited);
    SearchMisses(s, eventId, CountUpTo(s, end), attempts);
    Regroup(visited, seen, Visited(s, eventId, CountUpTo(s, next), attempts - 1));
  }

  lemma {:induction false} SearchFromIs<Id>(
      s: seq<Entry<Id>>, eventId: Id, end: Bound, attempts: nat, visited: seq<nat>)
    requires IsStream(s)
    ensures SearchFrom(s, eventId, end, attempts, visited)
         == (BatchedSearch(s, eventId, CountUpTo(s, end), attempts),
             visited + Visited(s, eventId, CountUpTo(s, end), attempts))
    decreases attempts
  {
    var top := CountUpTo(s, end);
    if attempts == 0 || top == 0 {
      assert visited + [] == visited;
    } else if ScanBack(s, eventId, top, BATCH_SIZE).Some? {
      SearchHits(s, eventId, top, attempts, ScanBack(s, eventId, top, BATCH_SIZE).value);
    } else {
      var seen, next := Down(top, Min(top, BATCH_SIZE)), StepBelow(s[Max(0, top - BATCH_SIZE)].at);
      SearchFromIs(s, eventId, next, attempts - 1, visited + seen);
      SearchFromIsAfterMiss(s, eventId, end, attempts, visited, next, seen);
    }
  }

  /** Where no batch boundary skips, the search finds the event exactly when it is among the newest 1000 entries. */
  lemma SteppableFinds<Id>(s: seq<Entry<Id>>, eventId: Id)
    requires IsStream(s) && Steppable(s)
    ensures var at := BatchedSearch(s, eventId, |s|, MAX_BATCHES);
      if at.Some? then FoundAt(s, eventId, at.value) else Unknown(s, eventId)
  {
    SteppableSearch(s, eventId);
    forall i: nat ensures ScanBack(s, eventId, |s|, MAX_SEARCHED) == Some(i) <==> FoundAt(s, eventId, i) {
      ScanBackFinds(s, eventId, |s|, MAX_SEARCHED, i);
    }
  }

  /** Where no batch boundary skips, it looks at the newest entries one by one until it finds the event. */
  lemma SteppableVisits<Id>(s: seq<Entry<Id>>, eventId: Id)
    requires IsStream(s) && Steppable(s)
    ensures OneByOne(Visited(s, eventId, |s|, MAX_BATCHES), |s|, BatchedSearch(s, eventId, |s|, MAX_BATCHES).Some?,
                     MAX_SEARCHED)
  {
    SteppableBelow(s);
    VisitedStepwise(s, eventId, |s|, MAX_BATCHES);
  }

  lemma BatchHit<Id>(s: seq<Entry<Id>>, eventId: Id, end: Bound, k: nat)
    requires IsStream(s)
    requires var batch := XRevRange(s, end, BATCH_SIZE);
      k < |batch| && Holds(batch[k], eventId) && forall j :: 0 <= j < k ==> !Holds(batch[j], eventId)
    ensures k < CountUpTo(s, end)
    ensures ScanBack(s, eventId, CountUpTo(s, end), BATCH_SIZE) == Some((CountUpTo(s, end) - 1 - k) as nat)
  {
    var top, batch := CountUpTo(s, end), XRevRange(s, end, BATCH_SIZE);
    forall i | top - 1 - k < i < top ensures !Holds(s[i], eventId) {
      assert batch[top - 1 - i] == s[i];
    }
    ScanBackFinds(s, eventId, top, BATCH_SIZE, top - 1 - k);
  }

  lemma BatchMiss<Id>(s: seq<Entry<Id>>, eventId: Id, end: Bound)
    requires IsStream(s)
    requires var batch := XRevRange(s, end, BATCH_SIZE); forall k :: 0 <= k < |batch| ==> !Holds(batch[k], eventId)
    ensures ScanBack(s, eventId, CountUpTo(s, end), BATCH_SIZE) == None
  {
    var top, batch := CountUpTo(s, end), XRevRange(s, end, BATCH_SIZE);
    forall i: nat ensures ScanBack(s, eventId, top, BATCH_SIZE) != Some(i) {
      ScanBackFinds(s, eventId, top, BATCH_SIZE, i);
      assert top - BATCH_SIZE <= i < top ==> batch[top - 1 - i] == s[i];
    }
  }

  lemma SearchFromStart<Id>(s: seq<Entry<Id>>, eventId: Id, attempts: nat)
    requires IsStream(s)
    ensures SearchFrom(s, eventId, Newest, attempts, [])
         == (BatchedSearch(s, eventId, |s|, attempts), Visited(s, eventId, |s|, attempts))
  {
    SearchFromIs(s, eventId, Newest, attempts, []);
    assert [] + Visited(s, eventId, |s|, attempts) == Visited(s, eventId, |s|, attempts);
  }

  /** One batch of the search: the range read and the loop over it; `at` is the position of the hit. */
  method SearchBatch<Id(==)>(s: seq<Entry<Id>>, eventId: Id, endId: Bound)
    returns (found: Option<StreamId>, last: Option<StreamId>, ghost at: Option<nat>)
    requires IsStream(s)
    ensures var top := CountUpTo(s, endId);
      && at == ScanBack(s, eventId, top, BATCH_SIZE) && (at.Some? ==> at.value < top)
      && found == (if at.None? then None else Some(s[at.value].at))
      && last == if top == 0 then None else Some(s[Max(0, top - BATCH_SIZE)].at)
  {
    var entries := XRevRange(s, endId, BATCH_SIZE);
    if entries == [] { return None, None, None; }
    last := Some(entries[|entries| - 1].at);
    for i := 0 to |entries|
      invariant forall k :: 0 <= k < i ==> !Holds(entries[k], eventId)
    {
      if Holds(entries[i], eventId) {
        BatchHit(s, eventId, endId, i);
        return Some(entries[i].at), last, Some((CountUpTo(s, endId) - 1 - i) as nat);
      }
    }
    BatchMiss(s, eventId, endId);
    found, at := None, None;
  }

  class RedisEventBus<Id(==)> {
    var destroyed: bool
    /** The Redis streams, one per channel. */
    var streams: map<string, seq<Entry<Id>>>
    var subscriptions: map<string, SubscribeOptions>

    ghost predicate Valid()
      reads this
    {
      forall key :: key in streams ==> IsStream(streams[key])
    }

    ghost function Stream(channelId: string): seq<Entry<Id>>
      reads this
    {
      if channelId in streams then streams[channelId] else []
    }

    constructor ()
      ensures Valid() && !destroyed && streams == map[] && subscriptions == map[]
    {
      destroyed, streams, subscriptions := false, map[], map[];
    }

    /** Searches backwards in batches; `visited` records the stream positions looked at, in order. */
    method FindStreamEntryId(s: seq<Entry<Id>>, eventId: Id) returns (found: Option<StreamId>, ghost visited: seq<nat>)
      requires IsStream(s)
      ensures var at := BatchedSearch(s, eventId, |s|, MAX_BATCHES);
        found == if at.None? then None else Some(s[at.value].at)
      ensures visited == Visited(s, eventId, |s|, MAX_BATCHES)
    {
      found, visited := SearchBatches(s, eventId, MAX_BATCHES);
      SearchFromStart(s, eventId, MAX_BATCHES);
    }

    /** Its two loops, for any number of attempts. */
    method SearchBatches(s: seq<Entry<Id>>, eventId: Id, attempts: nat)
      returns (found: Option<StreamId>, ghost visited: seq<nat>)
      requires IsStream(s)
      ensures var (at, all) := SearchFrom(s, eventId, Newest, attempts, []);
        && (at.Some? ==> at.value < |s|)
        && found == (if at.None? then None else Some(s[at.value].at)) && visited == all
    {
      var endId := Newest;
      visited := [];
      for attempt := 0 to attempts
        invariant SearchFrom(s, eventId, endId, attempts - attempt, visited)
               == SearchFrom(s, eventId, Newest, attempts, [])
      {
        var hit, last;
        ghost var at;
        ghost var top := CountUpTo(s, endId);
        hit, last, at := SearchBatch(s, eventId, endId);
        if last.None? {
          return None, visited;
        }
        if hit.Some? {
          return hit, visited + Down(top, top - at.value);
        }
        visited := visited + Down(top, Min(top, BATCH_SIZE));
        endId := StepBelow(last.value);
      }
      found := None;
    }

    /**
     * publish: None stands for a throw, `sent` is what goes out on pub/sub. A persisted event is first appended
     * under a fresh, larger stream id, and the approximate MAXLEN may drop old entries as long as 1000 stay;
     * `addFails` and `sendFails` say that XADD or PUBLISH fails.
     */
    method Publish(event: VortexEvent<Id>, at: StreamId, drop: nat, addFails: bool, sendFails: bool)
      returns (result: Option<Id>, sent: Option<VortexEvent<Id>>)
      requires Valid()
      requires at.ms >= 0 && at.sn >= 0 && at != StreamId(0, 0)
      requires forall i :: 0 <= i < |Stream(event.channelId)| ==> !Leq(at, Stream(event.channelId)[i].at)
      requires drop == 0 || |Stream(event.channelId)| + 1 - drop >= EVENT_STREAM_MAXLEN
      modifies this`streams
      ensures Valid()
      ensures var stored := !destroyed && event.eventType in PERSISTED_EVENT_TYPES && !addFails;
        && Stream(event.channelId)
           == (if stored then (old(Stream(event.channelId)) + [Entry(at, Some(event.id))])[drop..]
               else old(Stream(event.channelId)))
        && (sent.Some? <==> !destroyed && !sendFails && (event.eventType in PERSISTED_EVENT_TYPES ==> stored))
      ensures sent.Some? ==> sent.value == event
      ensures result == if sent.Some? then Some(event.id) else None
      ensures forall other :: other != event.channelId ==> Stream(other) == old(Stream(other))
    {
      if destroyed { return None, None; }
      if event.eventType in PERSISTED_EVENT_TYPES {
        if addFails { return None, None; }
        Append(event.channelId, Entry(at, Some(event.id)), drop);
      }
      if sendFails { return None, None; }
      result, sent := Some(event.id), Some(event);
    }

    /** XADD key MAXLEN ~ 1000. */
    method Append(channelId: string, entry: Entry<Id>, drop: nat)
      requires Valid() && drop <= |Stream(channelId)|
      requires entry.at.ms >= 0 && entry.at.sn >= 0 && entry.at != StreamId(0, 0)
      requires forall i :: 0 <= i < |Stream(channelId)| ==> !Leq(entry.at, Stream(channelId)[i].at)
      modifies this`streams
      ensures Valid() && Stream(channelId) == (old(Stream(channelId)) + [entry])[drop..]
      ensures forall other :: other != channelId ==> Stream(other) == old(Stream(other))
    {
      var s := if channelId in streams then streams[channelId] else [];
      assert s == Stream(channelId);
      AppendKeepsStream(s, entry);
      DropKeepsStream(s + [entry], drop);
      streams := streams[channelId := (s + [entry])[drop..]];
    }

    method Subscribe(id: string, options: SubscribeOptions)
      modifies this`subscriptions
      ensures subscriptions == old(subscriptions)[id := options]
    {
      subscriptions := subscriptions[id := options];
    }

    method Unsubscribe(id: string)
      modifies this`subscriptions
      ensures subscriptions == old(subscriptions) - {id}
    {
      subscriptions := subscriptions - {id};
    }

    /** A message of the pub/sub channel: the subscriptions whose callback is called, in any order. */
    method DispatchToSubscribers(event: VortexEvent<Id>) returns (called: set<string>)
      ensures called == set id | id in subscriptions && Wants(subscriptions[id], event)
      ensures forall id :: id in subscriptions && subscriptions[id] == SubscribeOptions("", []) ==> id in called
      ensures forall id :: id in called ==>
          && id in subscriptions && subscriptions[id].channelId in {"", event.channelId}
          && (subscriptions[id].types != [] ==> event.eventType in subscriptions[id].types)
      ensures forall id | id in subscriptions && subscriptions[id].channelId in {"", event.channelId} ::
          event.eventType in subscriptions[id].types ==> id in called
    {
      called := {};
      var rest := subscriptions.Keys;
      while rest != {}
        invariant rest <= subscriptions.Keys
        invariant called == set id | id in subscriptions.Keys - rest && Wants(subscriptions[id], event)
        decreases |rest|
      {
        var id :| id in rest;
        rest := rest - {id};
        var wanted := MatchesFilter(event, subscriptions[id]);
        if wanted {
          called := called + {id};
        }
      }
    }

    /** Afterwards publish throws, replay answers nothing, and the subscriptions made so far are gone. */
    method Destroy()
      modifies this`destroyed, this`subscriptions
      ensures destroyed && subscriptions == if old(destroyed) then old(subscriptions) else map[]
    {
      if destroyed { return; }
      destroyed, subscriptions := true, map[];
    }

    /**
     * Read-only catch-up; a missing limit is 500. A failing read (`readFails`) is swallowed. Without a skipping
     * batch boundary a cursor among the newest 1000 entries is found, and any other one gets the oldest entries.
     */
    method Replay(channelId: string, afterEventId: Id, limit: nat, readFails: bool) returns (events: seq<Id>)
      requires Valid()
      ensures destroyed || readFails ==> events == []
      ensures !destroyed && !readFails ==>
          var s := Stream(channelId); events == ReplayAt(s, BatchedSearch(s, afterEventId, |s|, MAX_BATCHES), limit)
      ensures !destroyed && !readFails && Steppable(Stream(channelId)) ==>
          events == ReplayFrom(Stream(channelId), afterEventId, limit)
      ensures !destroyed && !readFails && Steppable(Stream(channelId)) && Unknown(Stream(channelId), afterEventId) ==>
          events == Events(Stream(channelId)[..Min(|Stream(channelId)|, limit)])
    {
      if destroyed || readFails { return []; }
      var s := if channelId in streams then streams[channelId] else [];
      ghost var visited;
      var cursor: Option<StreamId>;
      cursor, visited := FindStreamEntryId(s, afterEventId);
      var entries := ReadAfter(s, cursor, limit);
      events := CollectEvents(entries);
      ReadAfterIsReplay(s, limit, cursor, BatchedSearch(s, afterEventId, |s|, MAX_BATCHES));
      if Steppable(s) {
        SteppableSearch(s, afterEventId);
        if Unknown(s, afterEventId) {
          UnknownCursorReadsOldest(s, afterEventId, limit);
        }
      }
    }
  }
}
