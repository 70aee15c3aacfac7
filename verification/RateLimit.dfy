// The sliding-window limiters: apps/signal/src/rate-limiter.ts and apps/web/lib/rate-limit.ts.
// Keys are independent, so runs are stated for one key; the classes below do the same to every key.
module SlidingWindow {
  import opened Common

  /** The timestamps after `cutoff`. */
  function Recent(ts: seq<int>, cutoff: int): seq<int> {
    Filter(ts, (t: int) => t > cutoff)
  }

  lemma {:induction false} RecentTwice(ts: seq<int>, c: int, d: int)
    requires c <= d
    ensures Recent(Recent(ts, c), d) == Recent(ts, d)
  {
    if ts != [] {
      RecentTwice(ts[1..], c, d);
      FilterAppend(if ts[0] > c then [ts[0]] else [], Recent(ts[1..], c), (t: int) => t > d);
    }
  }

  lemma RecentAppend(ts: seq<int>, us: seq<int>, c: int)
    ensures Recent(ts + us, c) == Recent(ts, c) + Recent(us, c)
  {
    FilterAppend(ts, us, (t: int) => t > c);
  }

  lemma RecentMember(ts: seq<int>, c: int, t: int)
    ensures t in Recent(ts, c) <==> t in ts && t > c
  {
    FilterMember(ts, (x: int) => x > c, t);
  }

  lemma {:induction false} RecentShrinks(ts: seq<int>, c: int, d: int)
    requires c <= d
    ensures |Recent(ts, d)| <= |Recent(ts, c)|
  {
    if ts != [] {
      RecentShrinks(ts[1..], c, d);
    }
  }

  ghost predicate Sorted(ts: seq<int>) {
    forall i, j :: 0 <= i < j < |ts| ==> ts[i] <= ts[j]
  }

  /** Recent timestamps of a sorted list are a suffix of it. */
  lemma {:induction false} RecentSuffix(ts: seq<int>, c: int)
    requires Sorted(ts)
    ensures |Recent(ts, c)| <= |ts| && Recent(ts, c) == ts[|ts| - |Recent(ts, c)|..] && Sorted(Recent(ts, c))
  {
    if ts != [] {
      RecentSuffix(ts[1..], c);
      if ts[0] > c {
        AllRecent(ts, c);
      }
    }
  }

  lemma {:induction false} AllRecent(ts: seq<int>, c: int)
    requires forall i :: 0 <= i < |ts| ==> ts[i] > c
    ensures Recent(ts, c) == ts
  {
    if ts != [] {
      AllRecent(ts[1..], c);
    }
  }

  lemma {:induction false} NoneRecent(ts: seq<int>, c: int)
    requires forall i :: 0 <= i < |ts| ==> ts[i] <= c
    ensures Recent(ts, c) == []
  {
    if ts != [] {
      NoneRecent(ts[1..], c);
    }
  }

  lemma RecentOne(t: int, c: int)
    ensures Recent([], c) == [] && Recent([t], c) == if t > c then [t] else []
  {
    assert [t][1..] == [];
  }

  /** From `clock` on, no window can tell the two apart. */
  ghost predicate SameWindows(ts: seq<int>, log: seq<int>, clock: int, windowMs: int) {
    forall c :: c >= clock - windowMs ==> Recent(ts, c) == Recent(log, c)
  }

  /** Every accepted event found fewer than `limit` others in its window. */
  ghost predicate Legal(log: seq<int>, limit: int, windowMs: int) {
    forall i :: 0 <= i < |log| ==> |Recent(log[..i], log[i] - windowMs)| < limit
  }

  function InWindow(log: seq<int>, t: int, windowMs: int): seq<int> {
    Filter(log, (x: int) => t - windowMs < x <= t)
  }

  /** With nothing later than `t` in the log, both ways of counting agree. */
  lemma {:induction false} RecentIsInWindow(log: seq<int>, t: int, windowMs: int)
    requires forall i :: 0 <= i < |log| ==> log[i] <= t
    ensures Recent(log, t - windowMs) == InWindow(log, t, windowMs)
  {
    if log != [] {
      RecentIsInWindow(log[1..], t, windowMs);
    }
  }

  lemma InWindowPair(a: int, b: int, t: int, windowMs: int)
    requires t - windowMs < a <= t && t - windowMs < b <= t
    ensures InWindow([a] + [b], t, windowMs) == [a, b]
  {
    var inWindow := (x: int) => t - windowMs < x <= t;
    assert ([a] + [b])[1..] == [b] && [b][1..] == [];
    assert inWindow(a) && inWindow(b);
    assert Filter([b], inWindow) == [b];
  }

  lemma {:induction false} InWindowAtMostRecent(log: seq<int>, t: int, windowMs: int)
    ensures |InWindow(log, t, windowMs)| <= |Recent(log, t - windowMs)|
  {
    if log != [] {
      InWindowAtMostRecent(log[1..], t, windowMs);
    }
  }

  lemma {:induction false} LegalBoundsWindows(log: seq<int>, limit: int, windowMs: int, t: int)
    requires Legal(log, limit, windowMs)
    ensures |InWindow(log, t, windowMs)| <= if limit >= 0 then limit else 0
    decreases |log|
  {
    if log != [] {
      var front, last := log[..|log| - 1], log[|log| - 1];
      assert log == front + [last];
      FilterAppend(front, [last], (x: int) => t - windowMs < x <= t);
      assert forall i :: 0 <= i < |front| ==> front[..i] == log[..i];
      LegalBoundsWindows(front, limit, windowMs, t);
      if t - windowMs < last <= t {
        InWindowAtMostRecent(front, t, windowMs);
        RecentShrinks(front, last - windowMs, t - windowMs);
      }
    }
  }
}

module SocketLimiter {
  import opened Common
  import opened SlidingWindow

  datatype Op = Check(limit: int, now: int) | Cleanup(maxAgeMs: int, now: int)

  /** One key of the limiter: its timestamps and the answer, if the step gives one. */
  function Step(ts: seq<int>, op: Op, windowMs: int): (seq<int>, Option<bool>) {
    match op
    case Check(limit, now) =>
      var kept := Recent(ts, now - windowMs);
      if |kept| >= limit then (kept, Some(false)) else (kept + [now], Some(true))
    case Cleanup(maxAgeMs, now) => (Recent(ts, now - maxAgeMs), None)
  }

  /** The reference limiter logs every accepted event for good and counts those inside the window. */
  function LogStep(log: seq<int>, op: Op, windowMs: int): (seq<int>, Option<bool>) {
    match op
    case Check(limit, now) =>
      var ok := |Recent(log, now - windowMs)| < limit;
      (if ok then log + [now] else log, Some(ok))
    case Cleanup(_, _) => (log, None)
  }

  function Answers(ts: seq<int>, ops: seq<Op>, windowMs: int): seq<Option<bool>>
    decreases |ops|
  {
    if ops == [] then [] else [Step(ts, ops[0], windowMs).1] + Answers(Step(ts, ops[0], windowMs).0, ops[1..], windowMs)
  }

  function LogAnswers(log: seq<int>, ops: seq<Op>, windowMs: int): seq<Option<bool>>
    decreases |ops|
  {
    if ops == [] then []
    else [LogStep(log, ops[0], windowMs).1] + LogAnswers(LogStep(log, ops[0], windowMs).0, ops[1..], windowMs)
  }

  function LogAfter(log: seq<int>, ops: seq<Op>, windowMs: int): seq<int>
    decreases |ops|
  {
    if ops == [] then log else LogAfter(LogStep(log, ops[0], windowMs).0, ops[1..], windowMs)
  }

  /** The times of the events the limiter itself accepts. */
  function Accepted(ts: seq<int>, ops: seq<Op>, windowMs: int): seq<int>
    decreases |ops|
  {
    if ops == [] then [] else
      var (next, answer) := Step(ts, ops[0], windowMs);
      (if answer == Some(true) then [ops[0].now] else []) + Accepted(next, ops[1..], windowMs)
  }

  /** Time does not run backwards, starting at `clock`. */
  predicate InOrder(clock: int, ops: seq<Op>)
    decreases |ops|
  {
    ops == [] || (clock <= ops[0].now && InOrder(ops[0].now, ops[1..]))
  }

  predicate CleansOnlyOlder(ops: seq<Op>, age: int) {
    forall i :: 0 <= i < |ops| && ops[i].Cleanup? ==> ops[i].maxAgeMs >= age
  }

  lemma StepAgrees(ts: seq<int>, log: seq<int>, clock: int, op: Op, windowMs: int)
    requires SameWindows(ts, log, clock, windowMs) && clock <= op.now && (op.Cleanup? ==> op.maxAgeMs >= windowMs)
    ensures Step(ts, op, windowMs).1 == LogStep(log, op, windowMs).1
    ensures SameWindows(Step(ts, op, windowMs).0, LogStep(log, op, windowMs).0, op.now, windowMs)
  {
    forall c | c >= op.now - windowMs
      ensures Recent(Step(ts, op, windowMs).0, c) == Recent(LogStep(log, op, windowMs).0, c)
    {
      match op
      case Check(limit, now) =>
        var kept := Recent(ts, now - windowMs);
        RecentTwice(ts, now - windowMs, c);
        RecentAppend(kept, [now], c);
        RecentAppend(log, [now], c);
      case Cleanup(maxAgeMs, now) =>
        RecentTwice(ts, now - maxAgeMs, c);
    }
  }

  lemma {:induction false} RunAgrees(ts: seq<int>, log: seq<int>, clock: int, ops: seq<Op>, windowMs: int)
    requires SameWindows(ts, log, clock, windowMs) && InOrder(clock, ops) && CleansOnlyOlder(ops, windowMs)
    ensures Answers(ts, ops, windowMs) == LogAnswers(log, ops, windowMs)
    decreases |ops|
  {
    if ops != [] {
      StepAgrees(ts, log, clock, ops[0], windowMs);
      RunAgrees(Step(ts, ops[0], windowMs).0, LogStep(log, ops[0], windowMs).0, ops[0].now, ops[1..], windowMs);
    }
  }

  /** On every run the limiter answers like the one that keeps everything. */
  lemma AnswersLikeFullLog(clock: int, ops: seq<Op>, windowMs: int)
    requires InOrder(clock, ops) && CleansOnlyOlder(ops, windowMs)
    ensures Answers([], ops, windowMs) == LogAnswers([], ops, windowMs)
  {
    RunAgrees([], [], clock, ops, windowMs);
  }

  /** The reference log holds exactly what the limiter accepted. */
  lemma {:induction false} LogIsAccepted(ts: seq<int>, log: seq<int>, clock: int, ops: seq<Op>, windowMs: int)
    requires SameWindows(ts, log, clock, windowMs) && InOrder(clock, ops) && CleansOnlyOlder(ops, windowMs)
    ensures LogAfter(log, ops, windowMs) == log + Accepted(ts, ops, windowMs)
    decreases |ops|
  {
    if ops != [] {
      var (after, answer) := Step(ts, ops[0], windowMs);
      var head := if answer == Some(true) then [ops[0].now] else [];
      var rest := Accepted(after, ops[1..], windowMs);
      StepAgrees(ts, log, clock, ops[0], windowMs);
      assert LogStep(log, ops[0], windowMs).0 == log + head;
      LogIsAccepted(after, log + head, ops[0].now, ops[1..], windowMs);
      assert (log + head) + rest == log + (head + rest);
    }
  }

  lemma AnswersCons(ts: seq<int>, log: seq<int>, op: Op, ops: seq<Op>, windowMs: int)
    ensures Answers(ts, [op] + ops, windowMs)
         == [Step(ts, op, windowMs).1] + Answers(Step(ts, op, windowMs).0, ops, windowMs)
    ensures LogAnswers(log, [op] + ops, windowMs)
         == [LogStep(log, op, windowMs).1] + LogAnswers(LogStep(log, op, windowMs).0, ops, windowMs)
    ensures Accepted(ts, [op] + ops, windowMs)
         == (if Step(ts, op, windowMs).1 == Some(true) then [op.now] else [])
            + Accepted(Step(ts, op, windowMs).0, ops, windowMs)
  {
    assert ([op] + ops)[1..] == ops;
  }

  /** An event, a cleanup and another event `age` later, at a limit of 1. */
  function EarlyCleanup(age: int): seq<Op> {
    [Check(1, 0)] + ([Cleanup(age, age)] + [Check(1, age)])
  }

  lemma EarlyCleanupInOrder(age: int)
    requires 0 <= age
    ensures InOrder(0, EarlyCleanup(age)) && CleansOnlyOlder(EarlyCleanup(age), age)
  {
    var c, k, d := Check(1, 0), Cleanup(age, age), Check(1, age);
    assert InOrder(age, [d]) by { assert [d][1..] == []; }
    assert InOrder(0, [k] + [d]) by { assert ([k] + [d])[1..] == [d]; }
    assert ([c] + ([k] + [d]))[1..] == [k] + [d];
  }

  lemma EarlyCleanupAnswers(age: int, windowMs: int)
    requires 0 <= age < windowMs
    ensures Answers([], EarlyCleanup(age), windowMs) == [Some(true), None, Some(true)]
    ensures LogAnswers([], EarlyCleanup(age), windowMs) == [Some(true), None, Some(false)]
    ensures Accepted([], EarlyCleanup(age), windowMs) == [0] + [age]
  {
    var c, k, d := Check(1, 0), Cleanup(age, age), Check(1, age);
    RecentOne(0, 0 - windowMs);
    RecentOne(0, 0);
    RecentOne(0, age - windowMs);
    assert [d] + [] == [d] && [] + [0] == [0];
    assert Step([], c, windowMs) == ([0], Some(true)) && LogStep([], c, windowMs) == ([0], Some(true));
    assert Step([0], k, windowMs) == ([], None) && LogStep([0], k, windowMs) == ([0], None);
    assert Step([], d, windowMs).1 == Some(true) && LogStep([0], d, windowMs).1 == Some(false);
    AnswersCons([], [0], d, [], windowMs);
    AnswersCons([0], [0], k, [d], windowMs);
    AnswersCons([], [], c, [k] + [d], windowMs);
  }

  /**
   * The bound is exact: a cleanup age below the window makes the limiter forget an event it still has to count,
   * so that one window holds two accepted events at a limit of 1.
   */
  lemma YoungCleanupShows(maxAgeMs: int, windowMs: int)
    requires 0 <= maxAgeMs < windowMs
    ensures var ops := EarlyCleanup(maxAgeMs);
      && InOrder(0, ops) && CleansOnlyOlder(ops, maxAgeMs)
      && Answers([], ops, windowMs) != LogAnswers([], ops, windowMs)
      && InWindow(Accepted([], ops, windowMs), maxAgeMs, windowMs) == [0, maxAgeMs]
  {
    EarlyCleanupInOrder(maxAgeMs);
    EarlyCleanupAnswers(maxAgeMs, windowMs);
    assert [Some(true), None, Some(true)][2] != [Some(true), None, Some(false)][2];
    InWindowPair(0, maxAgeMs, maxAgeMs, windowMs);
  }

  lemma {:induction false} LogStaysLegal(log: seq<int>, ops: seq<Op>, limit: int, windowMs: int)
    requires Legal(log, limit, windowMs) && forall i :: 0 <= i < |ops| && ops[i].Check? ==> ops[i].limit == limit
    ensures Legal(LogAfter(log, ops, windowMs), limit, windowMs)
    decreases |ops|
  {
    if ops != [] {
      var next := LogStep(log, ops[0], windowMs).0;
      assert forall i :: 0 <= i < |log| ==> next[..i] == log[..i];
      assert next != log ==> next[..|log|] == log;
      LogStaysLegal(next, ops[1..], limit, windowMs);
    }
  }

  /**
   * In every run with one limit, no window `(t - windowMs, t]` holds more than `limit` of the events
   * the limiter accepted, as long as cleanups only drop what is at least a window old.
   */
  lemma NoWindowExceedsLimit(clock: int, ops: seq<Op>, limit: int, windowMs: int, t: int)
    requires InOrder(clock, ops) && CleansOnlyOlder(ops, windowMs)
    requires forall i :: 0 <= i < |ops| && ops[i].Check? ==> ops[i].limit == limit
    ensures |InWindow(Accepted([], ops, windowMs), t, windowMs)| <= if limit >= 0 then limit else 0
  {
    LogIsAccepted([], [], clock, ops, windowMs);
    LogStaysLegal([], ops, limit, windowMs);
    LegalBoundsWindows(LogAfter([], ops, windowMs), limit, windowMs, t);
    assert [] + Accepted([], ops, windowMs) == Accepted([], ops, windowMs);
  }

  function KeptAfter(ts: seq<int>, ops: seq<Op>, windowMs: int): seq<int>
    decreases |ops|
  {
    if ops == [] then ts else KeptAfter(Step(ts, ops[0], windowMs).0, ops[1..], windowMs)
  }

  function EndOf(clock: int, ops: seq<Op>): int {
    if ops == [] then clock else ops[|ops| - 1].now
  }

  ghost predicate UpTo(log: seq<int>, clock: int) {
    forall i :: 0 <= i < |log| ==> log[i] <= clock
  }

  lemma StepKeepsUpTo(log: seq<int>, clock: int, op: Op, windowMs: int)
    requires UpTo(log, clock) && clock <= op.now
    ensures UpTo(LogStep(log, op, windowMs).0, op.now)
  {
  }

  lemma {:induction false} RunKeepsWindows(ts: seq<int>, log: seq<int>, clock: int, ops: seq<Op>, windowMs: int)
    requires SameWindows(ts, log, clock, windowMs) && UpTo(log, clock)
    requires InOrder(clock, ops) && CleansOnlyOlder(ops, windowMs)
    ensures SameWindows(KeptAfter(ts, ops, windowMs), LogAfter(log, ops, windowMs), EndOf(clock, ops), windowMs)
    ensures UpTo(LogAfter(log, ops, windowMs), EndOf(clock, ops))
    decreases |ops|
  {
    if ops != [] {
      StepAgrees(ts, log, clock, ops[0], windowMs);
      StepKeepsUpTo(log, clock, ops[0], windowMs);
      RunKeepsWindows(Step(ts, ops[0], windowMs).0, LogStep(log, ops[0], windowMs).0, ops[0].now, ops[1..], windowMs);
    }
  }

  /** After any run a check is accepted exactly when fewer than `limit` accepted events lie in the window up to it. */
  lemma AcceptedExactly(clock: int, ops: seq<Op>, limit: int, now: int, windowMs: int)
    requires InOrder(clock, ops) && CleansOnlyOlder(ops, windowMs) && EndOf(clock, ops) <= now
    ensures Step(KeptAfter([], ops, windowMs), Check(limit, now), windowMs).1
         == Some(|InWindow(Accepted([], ops, windowMs), now, windowMs)| < limit)
  {
    var accepted := Accepted([], ops, windowMs);
    RunKeepsWindows([], [], clock, ops, windowMs);
    LogIsAccepted([], [], clock, ops, windowMs);
    assert [] + accepted == accepted;
    RecentIsInWindow(accepted, now, windowMs);
  }

  type Windows = map<string, map<string, seq<int>>>

  /** The timestamps kept for one socket and action. */
  function KeptIn(windows: Windows, socketId: string, action: string): seq<int> {
    if socketId in windows && action in windows[socketId] then windows[socketId][action] else []
  }

  /** Cleanup of one socket: recent timestamps stay, actions without any go. */
  function CleanSocketMap(socketMap: map<string, seq<int>>, cutoff: int): map<string, seq<int>> {
    map a | a in socketMap && Recent(socketMap[a], cutoff) != [] :: Recent(socketMap[a], cutoff)
  }

  function CleanWindows(windows: Windows, cutoff: int): Windows {
    map s | s in windows && CleanSocketMap(windows[s], cutoff) != map[] :: CleanSocketMap(windows[s], cutoff)
  }

  /** Cleaning the whole table is the one-key step on every key. */
  lemma CleaningIsPerKey(windows: Windows, maxAgeMs: int, now: int, socketId: string, action: string, windowMs: int)
    ensures KeptIn(CleanWindows(windows, now - maxAgeMs), socketId, action)
         == Step(KeptIn(windows, socketId, action), Cleanup(maxAgeMs, now), windowMs).0
  {
    if socketId in windows && CleanSocketMap(windows[socketId], now - maxAgeMs) == map[] {
      assert action !in CleanSocketMap(windows[socketId], now - maxAgeMs);
    }
  }

  class SocketRateLimiter {
    var windows: Windows

    constructor ()
      ensures windows == map[]
    {
      windows := map[];
    }

    method Check(socketId: string, action: string, limit: int, windowMs: int, now: int) returns (allowed: bool)
      modifies this
      ensures (KeptIn(windows, socketId, action), Some(allowed))
           == Step(KeptIn(old(windows), socketId, action), Op.Check(limit, now), windowMs)
      ensures forall s, a :: (s, a) != (socketId, action) ==> KeptIn(windows, s, a) == KeptIn(old(windows), s, a)
    {
      var socketMap := if socketId in windows then windows[socketId] else map[];
      var timestamps := if action in socketMap then socketMap[action] else [];
      timestamps := Recent(timestamps, now - windowMs);
      allowed := |timestamps| < limit;
      if allowed {
        timestamps := timestamps + [now];
      }
      windows := windows[socketId := socketMap[action := timestamps]];
    }

    method Remove(socketId: string)
      modifies this
      ensures windows == old(windows) - {socketId}
    {
      windows := windows - {socketId};
    }

    method Cleanup(maxAgeMs: int, now: int)
      modifies this
      ensures windows == CleanWindows(old(windows), now - maxAgeMs)
    {
      windows := CleanSockets(windows, now - maxAgeMs);
    }
  }

  /** The outer loop of cleanup. */
  method CleanSockets(windows: Windows, cutoff: int) returns (r: Windows)
    ensures r == CleanWindows(windows, cutoff)
  {
    ghost var cleaned := map s | s in windows :: CleanSocketMap(windows[s], cutoff);
    r := windows;
    var rest := windows.Keys;
    while rest != {}
      invariant rest <= windows.Keys
      invariant forall s :: s in r <==> s in windows && (s in rest || cleaned[s] != map[])
      invariant forall s :: s in r ==> r[s] == if s in rest then windows[s] else cleaned[s]
      decreases |rest|
    {
      var socketId :| socketId in rest;
      rest := rest - {socketId};
      var socketMap := CleanSocket(r[socketId], cutoff);
      assert socketMap == cleaned[socketId];
      if socketMap == map[] {
        r := r - {socketId};
      } else {
        r := r[socketId := socketMap];
      }
    }
    assert r.Keys == CleanWindows(windows, cutoff).Keys;
  }

  /** The inner loop of cleanup. */
  method CleanSocket(socketMap: map<string, seq<int>>, cutoff: int) returns (r: map<string, seq<int>>)
    ensures r == CleanSocketMap(socketMap, cutoff)
  {
    r := socketMap;
    var rest := socketMap.Keys;
    while rest != {}
      invariant rest <= socketMap.Keys
      invariant forall a :: a in r <==> a in socketMap && (a in rest || Recent(socketMap[a], cutoff) != [])
      invariant forall a :: a in r ==> r[a] == if a in rest then socketMap[a] else Recent(socketMap[a], cutoff)
      decreases |rest|
    {
      var action :| action in rest;
      rest := rest - {action};
      var timestamps := Recent(r[action], cutoff);
      r := if timestamps == [] then r - {action} else r[action := timestamps];
    }
  }
}

module WebLimiter {
  import opened Common
  import opened SlidingWindow

  datatype RateLimitResult = RateLimitResult(allowed: bool, remaining: int, resetAt: int)

  /** A sorted-set member: its score, and the random suffix that makes it distinct. */
  datatype Member = Member(score: int, suffix: nat)

  // ---- In memory ---------------------------------------------------------------

  /** `InMemoryRateLimiter.check` on one key's timestamps; 0 is falsy in the resetAt test. */
  function MemCheck(ts: seq<int>, limit: int, windowMs: int, now: int): (seq<int>, RateLimitResult) {
    var kept := Recent(ts, now - windowMs);
    var remaining := Max(0, limit - |kept|);
    var resetAt := if kept != [] && kept[0] != 0 then kept[0] + windowMs else now + windowMs;
    if |kept| >= limit then (kept, RateLimitResult(false, 0, resetAt))
    else (kept + [now], RateLimitResult(true, remaining - 1, resetAt))
  }

  /** The periodic cleanup drops a key only when all of it is old. */
  function MemCleanup(ts: seq<int>, maxAgeMs: int, now: int): seq<int> {
    if forall i :: 0 <= i < |ts| ==> ts[i] < now - maxAgeMs then [] else ts
  }

  class InMemoryRateLimiter {
    var windows: map<string, seq<int>>

    function Kept(key: string): seq<int>
      reads this
    {
      if key in windows then windows[key] else []
    }

    constructor ()
      ensures windows == map[]
    {
      windows := map[];
    }

    method Check(key: string, limit: int, windowMs: int, now: int) returns (result: RateLimitResult)
      modifies this
      ensures (Kept(key), result) == MemCheck(old(Kept(key)), limit, windowMs, now)
      ensures forall k :: k != key ==> Kept(k) == old(Kept(k))
    {
      var kept := if key in windows then windows[key] else [];
      assert kept == Kept(key);
      var timestamps := Recent(kept, now - windowMs);
      windows := windows[key := timestamps];
      var remaining := Max(0, limit - |timestamps|);
      var resetAt := if timestamps != [] && timestamps[0] != 0 then timestamps[0] + windowMs else now + windowMs;
      if |timestamps| >= limit {
        return RateLimitResult(false, 0, resetAt);
      }
      windows := windows[key := timestamps + [now]];
      result := RateLimitResult(true, remaining - 1, resetAt);
    }

    method Cleanup(maxAgeMs: int, now: int)
      modifies this
      ensures forall k :: Kept(k) == MemCleanup(old(Kept(k)), maxAgeMs, now)
    {
      var rest := windows.Keys;
      while rest != {}
        invariant rest <= windows.Keys <= old(windows).Keys
        invariant forall k :: k in rest ==> windows[k] == old(windows)[k]
        invariant forall k :: k !in rest ==> Kept(k) == MemCleanup(old(Kept(k)), maxAgeMs, now)
        decreases |rest|
      {
        var key :| key in rest;
        rest := rest - {key};
        if forall i :: 0 <= i < |windows[key]| ==> windows[key][i] < now - maxAgeMs {
          windows := windows - {key};
        }
      }
    }
  }

  // ---- The Lua script ------------------------------------------------------------

  /** The sorted set of one key, in Redis order, and when the key expires. */
  datatype ZSet = ZSet(members: seq<Member>, expiresAt: int)

  predicate MemberLess(a: Member, b: Member) {
    a.score < b.score || (a.score == b.score && a.suffix < b.suffix)
  }

  /** ZADD keeps the set ordered by score; re-adding a member with its score changes nothing. */
  function ZAdd(z: seq<Member>, m: Member): seq<Member> {
    if z == [] then [m]
    else if z[0] == m then z
    else if MemberLess(m, z[0]) then [m] + z
    else [z[0]] + ZAdd(z[1..], m)
  }

  function After(z: seq<Member>, cutoff: int): seq<Member> {
    Filter(z, (m: Member) => m.score > cutoff)
  }

  /** One evaluation of the script; an expired key reads as empty. */
  function LuaCheck(z: ZSet, limit: int, windowMs: int, now: int, suffix: nat): (ZSet, RateLimitResult) {
    var members := After(if now >= z.expiresAt then [] else z.members, now - windowMs);
    var count := |members|;
    if count < limit then
      (ZSet(ZAdd(members, Member(now, suffix)), now + windowMs),
       RateLimitResult(true, limit - count - 1, now + windowMs))
    else
      (ZSet(members, z.expiresAt),
       RateLimitResult(false, 0, if members != [] then members[0].score + windowMs else now + windowMs))
  }

  // ---- They agree ------------------------------------------------------------------

  datatype Op = Check(limit: int, now: int, suffix: nat) | Cleanup(maxAgeMs: int, now: int)

  function MemStep(ts: seq<int>, op: Op, windowMs: int): (seq<int>, Option<RateLimitResult>) {
    match op
    case Check(limit, now, _) => (MemCheck(ts, limit, windowMs, now).0, Some(MemCheck(ts, limit, windowMs, now).1))
    case Cleanup(maxAgeMs, now) => (MemCleanup(ts, maxAgeMs, now), None)
  }

  function LuaStep(z: ZSet, op: Op, windowMs: int): (ZSet, Option<RateLimitResult>) {
    match op
    case Check(limit, now, suffix) =>
      var (next, result) := LuaCheck(z, limit, windowMs, now, suffix);
      (next, Some(result))
    case Cleanup(_, _) => (z, None)
  }

  /** Same verdict and remaining count, and the same reset time when denied. */
  predicate SameAnswer(a: Option<RateLimitResult>, b: Option<RateLimitResult>) {
    (a.None? && b.None?) ||
    (a.Some? && b.Some? && a.value.allowed == b.value.allowed && a.value.remaining == b.value.remaining
      && (!a.value.allowed ==> a.value.resetAt == b.value.resetAt))
  }

  function Scores(z: seq<Member>): seq<int> {
    if z == [] then [] else [z[0].score] + Scores(z[1..])
  }

  /** From `clock` on the two hold the same timestamps, sorted, positive, and gone once the key expires. */
  ghost predicate Agree(ts: seq<int>, z: ZSet, clock: int, windowMs: int) {
    && Sorted(ts) && Sorted(Scores(z.members))
    && (forall i :: 0 <= i < |ts| ==> 0 < ts[i] <= clock && ts[i] <= z.expiresAt - windowMs)
    && (forall i :: 0 <= i < |Scores(z.members)| ==> Scores(z.members)[i] <= clock)
    && forall c :: c >= clock - windowMs ==> Recent(ts, c) == Recent(Scores(z.members), c)
  }

  lemma {:induction false} ScoresAfter(z: seq<Member>, c: int)
    ensures Scores(After(z, c)) == Recent(Scores(z), c) && |After(z, c)| == |Recent(Scores(z), c)|
    ensures forall m :: m in After(z, c) ==> m in z
  {
    if z != [] {
      ScoresAfter(z[1..], c);
      assert Scores(z)[1..] == Scores(z[1..]);
      if z[0].score > c {
        assert ([z[0]] + After(z[1..], c))[1..] == After(z[1..], c);
      } else {
        assert After(z, c) == After(z[1..], c) && Recent(Scores(z), c) == Recent(Scores(z[1..]), c);
      }
    }
  }

  /** By score, then by member; no member twice. */
  ghost predicate InRedisOrder(z: seq<Member>) {
    forall i, j :: 0 <= i < j < |z| ==>
      z[i].score < z[j].score || (z[i].score == z[j].score && z[i].suffix < z[j].suffix)
  }

  /** Adding a member to a sorted set adds it, unless it was there, and keeps the order. */
  lemma {:induction false} ZAddExactly(z: seq<Member>, m: Member)
    requires InRedisOrder(z)
    ensures InRedisOrder(ZAdd(z, m)) && forall x :: x in ZAdd(z, m) <==> x in z || x == m
  {
    if z != [] && z[0] != m && !MemberLess(m, z[0]) {
      var rest := ZAdd(z[1..], m);
      ZAddExactly(z[1..], m);
      forall j | 0 <= j < |rest|
        ensures z[0].score < rest[j].score || (z[0].score == rest[j].score && z[0].suffix < rest[j].suffix)
      {
        assert rest[j] in rest;
      }
    }
  }

  /** When the smallest score is already the new one, so are all: prepending is appending. */
  lemma AllAtTopScore(scores: seq<int>, top: int)
    requires scores != [] && Sorted(scores) && top <= scores[0]
    requires forall i :: 0 <= i < |scores| ==> scores[i] <= top
    ensures [top] + scores == scores + [top]
  {
    forall i | 0 <= i < |scores| ensures scores[i] == top {
      assert scores[0] <= scores[i];
    }
  }

  lemma {:induction false} ScoresZAdd(z: seq<Member>, m: Member)
    requires m !in z && Sorted(Scores(z)) && forall i :: 0 <= i < |Scores(z)| ==> Scores(z)[i] <= m.score
    ensures Scores(ZAdd(z, m)) == Scores(z) + [m.score]
  {
    if z != [] {
      var scores := Scores(z);
      assert scores[0] == z[0].score && scores[1..] == Scores(z[1..]);
      assert forall i :: 0 <= i < |scores| - 1 ==> scores[1..][i] == scores[i + 1];
      if MemberLess(m, z[0]) {
        AllAtTopScore(scores, m.score);
        assert ([m] + z)[1..] == z;
      } else {
        ScoresZAdd(z[1..], m);
      }
    }
  }

  /** The two limiters hold the same timestamps when a check starts counting. */
  lemma SameCount(ts: seq<int>, z: ZSet, clock: int, windowMs: int, now: int)
    requires Agree(ts, z, clock, windowMs) && clock <= now
    ensures var members := After(if now >= z.expiresAt then [] else z.members, now - windowMs);
      && Recent(ts, now - windowMs) == Scores(members) && |members| == |Scores(members)|
      && (members != [] ==> Scores(members)[0] == members[0].score && Scores(members)[0] > 0)
      && Sorted(Scores(members)) && forall i :: 0 <= i < |Scores(members)| ==> 0 < Scores(members)[i] <= clock
  {
    var c := now - windowMs;
    var live := if now >= z.expiresAt then [] else z.members;
    ScoresAfter(live, c);
    RecentSuffix(ts, c);
    if now >= z.expiresAt {
      NoneRecent(ts, c);
    }
  }

  lemma EqualAgrees(ts: seq<int>, z: ZSet, clock: int, windowMs: int)
    requires ts == Scores(z.members) && Sorted(ts)
    requires forall i :: 0 <= i < |ts| ==> 0 < ts[i] <= clock && ts[i] <= z.expiresAt - windowMs
    ensures Agree(ts, z, clock, windowMs)
  {
  }

  lemma DeniedKeepsExpiry(ts: seq<int>, z: ZSet, clock: int, windowMs: int, now: int)
    requires Agree(ts, z, clock, windowMs)
    ensures var kept := Recent(ts, now - windowMs); forall i :: 0 <= i < |kept| ==> kept[i] <= z.expiresAt - windowMs
  {
    RecentSuffix(ts, now - windowMs);
  }

  lemma AcceptedAgrees(members: seq<Member>, windowMs: int, now: int, suffix: nat)
    requires Sorted(Scores(members)) && Member(now, suffix) !in members && 0 < now
    requires forall i :: 0 <= i < |Scores(members)| ==> 0 < Scores(members)[i] <= now
    ensures Agree(Scores(members) + [now], ZSet(ZAdd(members, Member(now, suffix)), now + windowMs), now, windowMs)
  {
    ScoresZAdd(members, Member(now, suffix));
    EqualAgrees(Scores(members) + [now], ZSet(ZAdd(members, Member(now, suffix)), now + windowMs), now, windowMs);
  }

  lemma CheckAgrees(ts: seq<int>, z: ZSet, clock: int, windowMs: int, limit: int, now: int, suffix: nat)
    requires Agree(ts, z, clock, windowMs) && clock <= now && 0 < now && Member(now, suffix) !in z.members
    ensures SameAnswer(Some(MemCheck(ts, limit, windowMs, now).1), Some(LuaCheck(z, limit, windowMs, now, suffix).1))
    ensures Agree(MemCheck(ts, limit, windowMs, now).0, LuaCheck(z, limit, windowMs, now, suffix).0, now, windowMs)
  {
    SameCount(ts, z, clock, windowMs, now);
    if |Recent(ts, now - windowMs)| < limit {
      AcceptedKeepsAgreement(ts, z, clock, windowMs, limit, now, suffix);
    } else {
      DeniedKeepsAgreement(ts, z, clock, windowMs, limit, now, suffix);
    }
  }

  lemma AcceptedKeepsAgreement(ts: seq<int>, z: ZSet, clock: int, windowMs: int, limit: int, now: int, suffix: nat)
    requires Agree(ts, z, clock, windowMs) && clock <= now && 0 < now && Member(now, suffix) !in z.members
    requires |Recent(ts, now - windowMs)| < limit
    ensures Agree(MemCheck(ts, limit, windowMs, now).0, LuaCheck(z, limit, windowMs, now, suffix).0, now, windowMs)
  {
    var live := if now >= z.expiresAt then [] else z.members;
    SameCount(ts, z, clock, windowMs, now);
    ScoresAfter(live, now - windowMs);
    AcceptedAgrees(After(live, now - windowMs), windowMs, now, suffix);
  }

  lemma DeniedKeepsAgreement(ts: seq<int>, z: ZSet, clock: int, windowMs: int, limit: int, now: int, suffix: nat)
    requires Agree(ts, z, clock, windowMs) && clock <= now && |Recent(ts, now - windowMs)| >= limit
    ensures Agree(MemCheck(ts, limit, windowMs, now).0, LuaCheck(z, limit, windowMs, now, suffix).0, now, windowMs)
  {
    var members := After(if now >= z.expiresAt then [] else z.members, now - windowMs);
    SameCount(ts, z, clock, windowMs, now);
    DeniedKeepsExpiry(ts, z, clock, windowMs, now);
    EqualAgrees(Scores(members), ZSet(members, z.expiresAt), now, windowMs);
  }

  lemma CleanupUnseen(ts: seq<int>, z: ZSet, clock: int, windowMs: int, op: Op)
    requires Agree(ts, z, clock, windowMs) && op.Cleanup? && clock <= op.now && windowMs <= op.maxAgeMs + 1
    ensures Agree(MemStep(ts, op, windowMs).0, LuaStep(z, op, windowMs).0, op.now, windowMs)
  {
    if forall i :: 0 <= i < |ts| ==> ts[i] < op.now - op.maxAgeMs {
      forall c | c >= op.now - windowMs ensures Recent([], c) == Recent(Scores(z.members), c) {
        NoneRecent(ts, c);
      }
    }
  }

  predicate RunOk(ts: seq<int>, z: ZSet, clock: int, ops: seq<Op>, windowMs: int)
    decreases |ops|
  {
    ops == [] || (
      && clock <= ops[0].now && 0 < ops[0].now
      && (ops[0].Check? ==> Member(ops[0].now, ops[0].suffix) !in z.members)
      && (ops[0].Cleanup? ==> windowMs <= ops[0].maxAgeMs + 1)
      && RunOk(MemStep(ts, ops[0], windowMs).0, LuaStep(z, ops[0], windowMs).0, ops[0].now, ops[1..], windowMs))
  }

  predicate SameAnswers(ts: seq<int>, z: ZSet, ops: seq<Op>, windowMs: int)
    decreases |ops|
  {
    ops == [] || (
      && SameAnswer(MemStep(ts, ops[0], windowMs).1, LuaStep(z, ops[0], windowMs).1)
      && SameAnswers(MemStep(ts, ops[0], windowMs).0, LuaStep(z, ops[0], windowMs).0, ops[1..], windowMs))
  }

  lemma {:induction false} RunAgrees(ts: seq<int>, z: ZSet, clock: int, ops: seq<Op>, windowMs: int)
    requires Agree(ts, z, clock, windowMs) && RunOk(ts, z, clock, ops, windowMs)
    ensures SameAnswers(ts, z, ops, windowMs)
    decreases |ops|
  {
    if ops != [] {
      if ops[0].Check? {
        CheckAgrees(ts, z, clock, windowMs, ops[0].limit, ops[0].now, ops[0].suffix);
      } else {
        CleanupUnseen(ts, z, clock, windowMs, ops[0]);
      }
      RunAgrees(MemStep(ts, ops[0], windowMs).0, LuaStep(z, ops[0], windowMs).0, ops[0].now, ops[1..], windowMs);
    }
  }

  /**
   * From an unused key on, the Lua script and the in-memory limiter give the same verdicts, remaining
   * counts and denial reset times, limits free to vary, cleanups of age at least windowMs - 1 included.
   */
  lemma LuaMatchesInMemory(ops: seq<Op>, windowMs: int, expiresAt: int)
    requires RunOk([], ZSet([], expiresAt), 0, ops, windowMs)
    ensures SameAnswers([], ZSet([], expiresAt), ops, windowMs)
  {
    RunAgrees([], ZSet([], expiresAt), 0, ops, windowMs);
  }

  // ---- What both admit ---------------------------------------------------------------

  /** The times of the requests that the in-memory limiter admits. */
  function MemAccepted(ts: seq<int>, ops: seq<Op>, windowMs: int): seq<int>
    decreases |ops|
  {
    if ops == [] then [] else
      var (next, answer) := MemStep(ts, ops[0], windowMs);
      (if answer.Some? && answer.value.allowed then [ops[0].now] else []) + MemAccepted(next, ops[1..], windowMs)
  }

  /** The times of the requests that the Lua script admits. */
  function LuaAccepted(z: ZSet, ops: seq<Op>, windowMs: int): seq<int>
    decreases |ops|
  {
    if ops == [] then [] else
      var (next, answer) := LuaStep(z, ops[0], windowMs);
      (if answer.Some? && answer.value.allowed then [ops[0].now] else []) + LuaAccepted(next, ops[1..], windowMs)
  }

  lemma {:induction false} SameAccepted(ts: seq<int>, z: ZSet, ops: seq<Op>, windowMs: int)
    requires SameAnswers(ts, z, ops, windowMs)
    ensures MemAccepted(ts, ops, windowMs) == LuaAccepted(z, ops, windowMs)
    decreases |ops|
  {
    if ops != [] {
      SameAccepted(MemStep(ts, ops[0], windowMs).0, LuaStep(z, ops[0], windowMs).0, ops[1..], windowMs);
    }
  }

  lemma CheckKeeps(ts: seq<int>, log: seq<int>, clock: int, windowMs: int, limit: int, now: int)
    requires SameWindows(ts, log, clock, windowMs) && clock <= now
    ensures var (next, result) := MemCheck(ts, limit, windowMs, now);
      && (result.allowed <==> |Recent(log, now - windowMs)| < limit)
      && SameWindows(next, if result.allowed then log + [now] else log, now, windowMs)
  {
    var kept := Recent(ts, now - windowMs);
    forall c | c >= now - windowMs ensures Recent(kept, c) == Recent(log, c)
      ensures Recent(kept + [now], c) == Recent(log + [now], c)
    {
      RecentTwice(ts, now - windowMs, c);
      RecentAppend(kept, [now], c);
      RecentAppend(log, [now], c);
    }
  }

  lemma CleanupKeeps(ts: seq<int>, log: seq<int>, clock: int, windowMs: int, maxAgeMs: int, now: int)
    requires SameWindows(ts, log, clock, windowMs) && clock <= now && windowMs <= maxAgeMs + 1
    ensures SameWindows(MemCleanup(ts, maxAgeMs, now), log, now, windowMs)
  {
    if forall i :: 0 <= i < |ts| ==> ts[i] < now - maxAgeMs {
      forall c | c >= now - windowMs ensures Recent([], c) == Recent(log, c) {
        NoneRecent(ts, c);
      }
    }
  }

  /** Time does not run backwards, there is one limit, and cleanups have a safe age. */
  predicate InTime(clock: int, ops: seq<Op>, limit: int, windowMs: int)
    decreases |ops|
  {
    ops == [] || (
      && clock <= ops[0].now
      && (ops[0].Check? ==> ops[0].limit == limit)
      && (ops[0].Cleanup? ==> windowMs <= ops[0].maxAgeMs + 1)
      && InTime(ops[0].now, ops[1..], limit, windowMs))
  }

  lemma LegalSnoc(log: seq<int>, limit: int, windowMs: int, now: int)
    requires Legal(log, limit, windowMs) && |Recent(log, now - windowMs)| < limit
    ensures Legal(log + [now], limit, windowMs)
  {
    assert forall i :: 0 <= i < |log| ==> (log + [now])[..i] == log[..i];
    assert (log + [now])[..|log|] == log;
  }

  lemma LoggedStaysLegal(ts: seq<int>, log: seq<int>, clock: int, op: Op, limit: int, windowMs: int)
    requires SameWindows(ts, log, clock, windowMs) && Legal(log, limit, windowMs) && clock <= op.now
    requires (op.Check? ==> op.limit == limit) && (op.Cleanup? ==> windowMs <= op.maxAgeMs + 1)
    ensures SameWindows(MemStep(ts, op, windowMs).0, Logged(ts, log, op, windowMs), op.now, windowMs)
    ensures Legal(Logged(ts, log, op, windowMs), limit, windowMs)
  {
    if op.Check? {
      CheckKeeps(ts, log, clock, windowMs, limit, op.now);
      if |Recent(log, op.now - windowMs)| < limit {
        LegalSnoc(log, limit, windowMs, op.now);
      }
    } else {
      CleanupKeeps(ts, log, clock, windowMs, op.maxAgeMs, op.now);
    }
  }

  lemma {:induction false} AcceptedStayLegal(
      ts: seq<int>, log: seq<int>, clock: int, ops: seq<Op>, limit: int, windowMs: int)
    requires SameWindows(ts, log, clock, windowMs) && Legal(log, limit, windowMs) && InTime(clock, ops, limit, windowMs)
    ensures Legal(LogAfter(ts, log, ops, windowMs), limit, windowMs)
    decreases |ops|
  {
    if ops != [] {
      var op := ops[0];
      LoggedStaysLegal(ts, log, clock, op, limit, windowMs);
      AcceptedStayLegal(MemStep(ts, op, windowMs).0, Logged(ts, log, op, windowMs), op.now, ops[1..], limit, windowMs);
    }
  }

  /**
   * In every run with one limit, no window `(t - windowMs, t]` holds more than `limit` of the requests that
   * the in-memory limiter admits, as long as cleanups are of age at least windowMs - 1.
   */
  lemma NoWindowExceedsLimit(clock: int, ops: seq<Op>, limit: int, windowMs: int, t: int)
    requires InTime(clock, ops, limit, windowMs)
    ensures |InWindow(MemAccepted([], ops, windowMs), t, windowMs)| <= if limit >= 0 then limit else 0
  {
    AcceptedStayLegal([], [], clock, ops, limit, windowMs);
    LogIsAccepted([], [], ops, windowMs);
    assert [] + MemAccepted([], ops, windowMs) == MemAccepted([], ops, windowMs);
    LegalBoundsWindows(MemAccepted([], ops, windowMs), limit, windowMs, t);
  }

  lemma {:induction false} RunIsInTime(ts: seq<int>, z: ZSet, clock: int, ops: seq<Op>, limit: int, windowMs: int)
    requires RunOk(ts, z, clock, ops, windowMs)
    requires forall i :: 0 <= i < |ops| && ops[i].Check? ==> ops[i].limit == limit
    ensures InTime(clock, ops, limit, windowMs)
    decreases |ops|
  {
    if ops != [] {
      var (mem, lua) := (MemStep(ts, ops[0], windowMs).0, LuaStep(z, ops[0], windowMs).0);
      RunIsInTime(mem, lua, ops[0].now, ops[1..], limit, windowMs);
    }
  }

  /** The same for the requests that the Lua script admits. */
  lemma NoLuaWindowExceedsLimit(ops: seq<Op>, limit: int, windowMs: int, expiresAt: int, t: int)
    requires RunOk([], ZSet([], expiresAt), 0, ops, windowMs)
    requires forall i :: 0 <= i < |ops| && ops[i].Check? ==> ops[i].limit == limit
    ensures |InWindow(LuaAccepted(ZSet([], expiresAt), ops, windowMs), t, windowMs)| <= if limit >= 0 then limit else 0
  {
    LuaMatchesInMemory(ops, windowMs, expiresAt);
    SameAccepted([], ZSet([], expiresAt), ops, windowMs);
    RunIsInTime([], ZSet([], expiresAt), 0, ops, limit, windowMs);
    NoWindowExceedsLimit(0, ops, limit, windowMs, t);
  }

  /** The cleanup bound is exact: any wider window has a run on which the cleanup lets one request too many through. */
  lemma EarlyCleanupShows(maxAgeMs: int, windowMs: int)
    requires 0 <= maxAgeMs && windowMs > maxAgeMs + 1
    ensures var t := maxAgeMs + 2;
      var mem, lua := MemCheck([], 1, windowMs, 1), LuaCheck(ZSet([], 0), 1, windowMs, 1, 0);
      && mem.1.allowed && lua.1.allowed
      && MemCheck(MemCleanup(mem.0, maxAgeMs, t), 1, windowMs, t).1.allowed
      && !LuaCheck(lua.0, 1, windowMs, t, 1).1.allowed
  {
  }

  // ---- resetAt is exact --------------------------------------------------------------

  /** The key is full, and its oldest timestamp leaves the window exactly at `resetAt`. */
  ghost predicate Blocked(ts: seq<int>, limit: int, windowMs: int, resetAt: int) {
    Sorted(ts) && 0 < limit == |ts| && ts[0] + windowMs == resetAt
  }

  /** What every run with one limit keeps about a key. */
  ghost predicate FixedLimitInv(ts: seq<int>, limit: int, clock: int) {
    Sorted(ts) && |ts| <= limit && forall i :: 0 <= i < |ts| ==> 0 < ts[i] <= clock
  }

  lemma RecentKeepsFixedLimit(ts: seq<int>, limit: int, clock: int, c: int)
    requires FixedLimitInv(ts, limit, clock)
    ensures FixedLimitInv(Recent(ts, c), limit, clock)
  {
    RecentSuffix(ts, c);
  }

  lemma CountedKeepsFixedLimit(kept: seq<int>, limit: int, clock: int, now: int, windowMs: int)
    requires FixedLimitInv(kept, limit, clock) && clock <= now && 0 < now
    ensures FixedLimitInv(kept, limit, now)
    ensures |kept| < limit ==> FixedLimitInv(kept + [now], limit, now)
    ensures |kept| >= limit >= 1 ==> kept[0] != 0 && Blocked(kept, limit, windowMs, kept[0] + windowMs)
  {
  }

  lemma StepKeepsFixedLimit(ts: seq<int>, op: Op, limit: int, clock: int, windowMs: int)
    requires FixedLimitInv(ts, limit, clock) && limit >= 0
    requires clock <= op.now && 0 < op.now && (op.Check? ==> op.limit == limit)
    ensures FixedLimitInv(MemStep(ts, op, windowMs).0, limit, op.now)
    ensures op.Check? && limit >= 1 && !MemStep(ts, op, windowMs).1.value.allowed ==>
      Blocked(MemStep(ts, op, windowMs).0, limit, windowMs, MemStep(ts, op, windowMs).1.value.resetAt)
  {
    if op.Check? {
      RecentKeepsFixedLimit(ts, limit, clock, op.now - windowMs);
      CountedKeepsFixedLimit(Recent(ts, op.now - windowMs), limit, clock, op.now, windowMs);
    }
  }

  lemma {:induction false} RunKeepsFixedLimit(ts: seq<int>, ops: seq<Op>, limit: int, clock: int, windowMs: int)
    requires FixedLimitInv(ts, limit, clock) && limit >= 0 && Timed(clock, ops, limit)
    ensures FixedLimitInv(MemAfter(ts, ops, windowMs), limit, if ops == [] then clock else ops[|ops| - 1].now)
    decreases |ops|
  {
    if ops != [] {
      StepKeepsFixedLimit(ts, ops[0], limit, clock, windowMs);
      RunKeepsFixedLimit(MemStep(ts, ops[0], windowMs).0, ops[1..], limit, ops[0].now, windowMs);
    }
  }

  function MemAfter(ts: seq<int>, ops: seq<Op>, windowMs: int): seq<int>
    decreases |ops|
  {
    if ops == [] then ts else MemAfter(MemStep(ts, ops[0], windowMs).0, ops[1..], windowMs)
  }

  predicate Timed(clock: int, ops: seq<Op>, limit: int)
    decreases |ops|
  {
    ops == [] || (
      && clock <= ops[0].now && 0 < ops[0].now
      && (ops[0].Check? ==> ops[0].limit == limit)
      && Timed(ops[0].now, ops[1..], limit))
  }

  /** While blocked, a check before resetAt is denied with the same resetAt, and nothing a cleanup does shows. */
  lemma StaysBlocked(ts: seq<int>, op: Op, limit: int, windowMs: int, resetAt: int)
    requires Blocked(ts, limit, windowMs, resetAt) && ts[0] > 0 && op.now < resetAt
    requires op.Check? ==> op.limit == limit
    requires op.Cleanup? ==> windowMs <= op.maxAgeMs + 1
    ensures MemStep(ts, op, windowMs).0 == ts
    ensures op.Check? ==> MemStep(ts, op, windowMs).1 == Some(RateLimitResult(false, 0, resetAt))
  {
    if op.Check? {
      AllRecent(ts, op.now - windowMs);
    }
  }

  /** Checks with the one limit and cleanups of a safe age, all before `resetAt`. */
  ghost predicate AllBefore(ops: seq<Op>, limit: int, windowMs: int, resetAt: int) {
    forall i :: 0 <= i < |ops| ==>
      && ops[i].now < resetAt
      && (ops[i].Check? ==> ops[i].limit == limit)
      && (ops[i].Cleanup? ==> windowMs <= ops[i].maxAgeMs + 1)
  }

  predicate AllDenied(ts: seq<int>, ops: seq<Op>, windowMs: int)
    decreases |ops|
  {
    ops == [] || (
      && (ops[0].Check? ==> !MemStep(ts, ops[0], windowMs).1.value.allowed)
      && AllDenied(MemStep(ts, ops[0], windowMs).0, ops[1..], windowMs))
  }

  lemma {:induction false} BlockedUntilReset(ts: seq<int>, ops: seq<Op>, limit: int, windowMs: int, resetAt: int)
    requires Blocked(ts, limit, windowMs, resetAt) && ts[0] > 0 && AllBefore(ops, limit, windowMs, resetAt)
    ensures AllDenied(ts, ops, windowMs) && MemAfter(ts, ops, windowMs) == ts
    decreases |ops|
  {
    if ops != [] {
      StaysBlocked(ts, ops[0], limit, windowMs, resetAt);
      BlockedUntilReset(ts, ops[1..], limit, windowMs, resetAt);
    }
  }

  /**
   * The resetAt of a denial is exact. After any run with one limit of at least 1, once a check is denied,
   * every check before its resetAt is denied too and a check at resetAt is admitted.
   */
  lemma ResetAtIsExact(before: seq<Op>, denied: Op, after: seq<Op>, limit: int, windowMs: int)
    requires limit >= 1 && Timed(0, before + [denied], limit) && denied.Check?
    requires var d := MemStep(MemAfter([], before, windowMs), denied, windowMs);
      !d.1.value.allowed && AllBefore(after, limit, windowMs, d.1.value.resetAt)
    ensures var d := MemStep(MemAfter([], before, windowMs), denied, windowMs);
      && AllDenied(d.0, after, windowMs)
      && MemCheck(MemAfter(d.0, after, windowMs), limit, windowMs, d.1.value.resetAt).1.allowed
  {
    var ts := MemAfter([], before, windowMs);
    TimedSplit(0, before, denied, limit);
    RunKeepsFixedLimit([], before, limit, 0, windowMs);
    StepKeepsFixedLimit(ts, denied, limit, if before == [] then 0 else before[|before| - 1].now, windowMs);
    var d := MemStep(ts, denied, windowMs);
    var r := d.1.value.resetAt;
    BlockedUntilReset(d.0, after, limit, windowMs, r);
    AdmittedAtReset(d.0, limit, windowMs, r);
  }

  lemma AdmittedAtReset(ts: seq<int>, limit: int, windowMs: int, resetAt: int)
    requires Blocked(ts, limit, windowMs, resetAt)
    ensures MemCheck(ts, limit, windowMs, resetAt).1.allowed
  {
    RecentSuffix(ts, resetAt - windowMs);
    RecentMember(ts, resetAt - windowMs, ts[0]);
    assert ts[0] in ts && ts[|ts| - |ts|..] == ts;
    assert Recent(ts, resetAt - windowMs) != ts;
  }

  lemma {:induction false} TimedSplit(clock: int, before: seq<Op>, last: Op, limit: int)
    requires Timed(clock, before + [last], limit)
    ensures Timed(clock, before, limit) && 0 < last.now && (last.Check? ==> last.limit == limit)
    ensures (if before == [] then clock else before[|before| - 1].now) <= last.now
    decreases |before|
  {
    if before != [] {
      assert (before + [last])[1..] == before[1..] + [last];
      TimedSplit(before[0].now, before[1..], last, limit);
    }
  }

  // ---- Every answer, told by what was admitted ---------------------------------------

  /** Time does not run backwards from `clock`, and cleanups have a safe age; the limits are free. */
  predicate Orderly(clock: int, ops: seq<Op>, windowMs: int)
    decreases |ops|
  {
    ops == [] || (
      && clock <= ops[0].now && 0 < ops[0].now
      && (ops[0].Cleanup? ==> windowMs <= ops[0].maxAgeMs + 1)
      && Orderly(ops[0].now, ops[1..], windowMs))
  }

  ghost predicate Within(log: seq<int>, clock: int) {
    forall i :: 0 <= i < |log| ==> 0 < log[i] <= clock
  }

  /** `log` with the request, if it is one and admitted. */
  function Logged(ts: seq<int>, log: seq<int>, op: Op, windowMs: int): seq<int> {
    var answer := MemStep(ts, op, windowMs).1;
    if answer.Some? && answer.value.allowed then log + [op.now] else log
  }

  lemma StepKeepsWindows(ts: seq<int>, log: seq<int>, clock: int, op: Op, windowMs: int)
    requires SameWindows(ts, log, clock, windowMs) && Within(log, clock)
    requires clock <= op.now && 0 < op.now && (op.Cleanup? ==> windowMs <= op.maxAgeMs + 1)
    ensures SameWindows(MemStep(ts, op, windowMs).0, Logged(ts, log, op, windowMs), op.now, windowMs)
    ensures Within(Logged(ts, log, op, windowMs), op.now)
  {
    if op.Check? {
      CheckKeeps(ts, log, clock, windowMs, op.limit, op.now);
    } else {
      CleanupKeeps(ts, log, clock, windowMs, op.maxAgeMs, op.now);
    }
  }

  /** The answer to one check, given all that was admitted before. */
  function Answer(admitted: seq<int>, limit: int, now: int, windowMs: int): RateLimitResult {
    var inside := InWindow(admitted, now, windowMs);
    RateLimitResult(|inside| < limit, if |inside| < limit then limit - |inside| - 1 else 0,
                    (if inside == [] then now else inside[0]) + windowMs)
  }

  lemma CheckAnswers(ts: seq<int>, log: seq<int>, clock: int, limit: int, now: int, windowMs: int)
    requires SameWindows(ts, log, clock, windowMs) && Within(log, clock) && clock <= now
    ensures MemCheck(ts, limit, windowMs, now).1 == Answer(log, limit, now, windowMs)
  {
    var kept := Recent(ts, now - windowMs);
    RecentIsInWindow(log, now, windowMs);
    if kept != [] {
      RecentMember(log, now - windowMs, kept[0]);
    }
  }

  function EndOf(clock: int, ops: seq<Op>): int {
    if ops == [] then clock else ops[|ops| - 1].now
  }

  lemma {:induction false} Associative(a: seq<int>, b: seq<int>, c: seq<int>)
    ensures (a + b) + c == a + (b + c)
  {
  }

  /** `log` with the requests that a run admits. */
  function LogAfter(ts: seq<int>, log: seq<int>, ops: seq<Op>, windowMs: int): seq<int>
    decreases |ops|
  {
    if ops == [] then log
    else LogAfter(MemStep(ts, ops[0], windowMs).0, Logged(ts, log, ops[0], windowMs), ops[1..], windowMs)
  }

  lemma {:induction false} LogIsAccepted(ts: seq<int>, log: seq<int>, ops: seq<Op>, windowMs: int)
    ensures LogAfter(ts, log, ops, windowMs) == log + MemAccepted(ts, ops, windowMs)
    decreases |ops|
  {
    if ops == [] {
      assert log + [] == log;
    } else {
      var (next, answer) := MemStep(ts, ops[0], windowMs);
      var head := if answer.Some? && answer.value.allowed then [ops[0].now] else [];
      var rest := MemAccepted(next, ops[1..], windowMs);
      LogIsAccepted(next, Logged(ts, log, ops[0], windowMs), ops[1..], windowMs);
      assert Logged(ts, log, ops[0], windowMs) == log + head;
      Associative(log, head, rest);
    }
  }

  lemma {:induction false} RunKeepsWindows(ts: seq<int>, log: seq<int>, clock: int, ops: seq<Op>, windowMs: int)
    requires SameWindows(ts, log, clock, windowMs) && Within(log, clock) && Orderly(clock, ops, windowMs)
    ensures var after := LogAfter(ts, log, ops, windowMs);
      SameWindows(MemAfter(ts, ops, windowMs), after, EndOf(clock, ops), windowMs) && Within(after, EndOf(clock, ops))
    decreases |ops|
  {
    if ops != [] {
      var op := ops[0];
      StepKeepsWindows(ts, log, clock, op, windowMs);
      RunKeepsWindows(MemStep(ts, op, windowMs).0, Logged(ts, log, op, windowMs), op.now, ops[1..], windowMs);
    }
  }

  /**
   * After any run, limits free to vary, the in-memory answer is told by the admitted requests in the window up to
   * now: admitted iff they are fewer than the limit, what then remains, and one window after the first of them.
   */
  lemma MemAnswersExactly(ops: seq<Op>, limit: int, now: int, windowMs: int)
    requires Orderly(0, ops, windowMs) && EndOf(0, ops) <= now
    ensures var inside := InWindow(MemAccepted([], ops, windowMs), now, windowMs);
      MemCheck(MemAfter([], ops, windowMs), limit, windowMs, now).1
      == RateLimitResult(|inside| < limit, if |inside| < limit then limit - |inside| - 1 else 0,
                         (if inside == [] then now else inside[0]) + windowMs)
  {
    var admitted := MemAccepted([], ops, windowMs);
    RunKeepsWindows([], [], 0, ops, windowMs);
    LogIsAccepted([], [], ops, windowMs);
    assert [] + admitted == admitted;
    CheckAnswers(MemAfter([], ops, windowMs), admitted, EndOf(0, ops), limit, now, windowMs);
  }

  function LuaAfter(z: ZSet, ops: seq<Op>, windowMs: int): ZSet
    decreases |ops|
  {
    if ops == [] then z else LuaAfter(LuaStep(z, ops[0], windowMs).0, ops[1..], windowMs)
  }

  lemma StepKeepsAgreement(ts: seq<int>, z: ZSet, clock: int, op: Op, windowMs: int)
    requires Agree(ts, z, clock, windowMs) && clock <= op.now && 0 < op.now
    requires op.Check? ==> Member(op.now, op.suffix) !in z.members
    requires op.Cleanup? ==> windowMs <= op.maxAgeMs + 1
    ensures Agree(MemStep(ts, op, windowMs).0, LuaStep(z, op, windowMs).0, op.now, windowMs)
  {
    if op.Check? {
      CheckAgrees(ts, z, clock, windowMs, op.limit, op.now, op.suffix);
    } else {
      CleanupUnseen(ts, z, clock, windowMs, op);
    }
  }

  lemma {:induction false} LastAnswerSame(
      ts: seq<int>, z: ZSet, clock: int, ops: seq<Op>, limit: int, now: int, suffix: nat, windowMs: int)
    requires Agree(ts, z, clock, windowMs) && RunOk(ts, z, clock, ops, windowMs)
    requires EndOf(clock, ops) <= now && 0 < now && Member(now, suffix) !in LuaAfter(z, ops, windowMs).members
    ensures SameAnswer(Some(MemCheck(MemAfter(ts, ops, windowMs), limit, windowMs, now).1),
                       Some(LuaCheck(LuaAfter(z, ops, windowMs), limit, windowMs, now, suffix).1))
    decreases |ops|
  {
    if ops == [] {
      CheckAgrees(ts, z, clock, windowMs, limit, now, suffix);
    } else {
      var (mem, lua) := (MemStep(ts, ops[0], windowMs).0, LuaStep(z, ops[0], windowMs).0);
      StepKeepsAgreement(ts, z, clock, ops[0], windowMs);
      LastAnswerSame(mem, lua, ops[0].now, ops[1..], limit, now, suffix, windowMs);
    }
  }

  lemma {:induction false} RunIsOrderly(ts: seq<int>, z: ZSet, clock: int, ops: seq<Op>, windowMs: int)
    requires RunOk(ts, z, clock, ops, windowMs)
    ensures Orderly(clock, ops, windowMs)
    decreases |ops|
  {
    if ops != [] {
      var (mem, lua) := (MemStep(ts, ops[0], windowMs).0, LuaStep(z, ops[0], windowMs).0);
      RunIsOrderly(mem, lua, ops[0].now, ops[1..], windowMs);
    }
  }

  /** The script's answer likewise; an admitted request is told one window from now, a denied one from the first. */
  lemma LuaAnswersExactly(ops: seq<Op>, limit: int, now: int, suffix: nat, windowMs: int, expiresAt: int)
    requires RunOk([], ZSet([], expiresAt), 0, ops, windowMs) && EndOf(0, ops) <= now && 0 < now
    requires Member(now, suffix) !in LuaAfter(ZSet([], expiresAt), ops, windowMs).members
    ensures var z := ZSet([], expiresAt);
      var inside := InWindow(LuaAccepted(z, ops, windowMs), now, windowMs);
      LuaCheck(LuaAfter(z, ops, windowMs), limit, windowMs, now, suffix).1
      == RateLimitResult(|inside| < limit, if |inside| < limit then limit - |inside| - 1 else 0,
                         (if inside == [] || |inside| < limit then now else inside[0]) + windowMs)
  {
    var z := ZSet([], expiresAt);
    RunAgrees([], z, 0, ops, windowMs);
    SameAccepted([], z, ops, windowMs);
    LastAnswerSame([], z, 0, ops, limit, now, suffix, windowMs);
    RunIsOrderly([], z, 0, ops, windowMs);
    MemAnswersExactly(ops, limit, now, windowMs);
  }
}
