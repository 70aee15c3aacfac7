// apps/web/lib/poll.ts: tallying votes from a message's reactions.
module PollTally {
  import opened Common
  import Poll

  /** The keycap emoji 1 to 8: a digit, a variation selector and the enclosing keycap. */
  const POLL_NUMBER_EMOJIS: seq<string> :=
    ["1\U{FE0F}\U{20E3}", "2\U{FE0F}\U{20E3}", "3\U{FE0F}\U{20E3}", "4\U{FE0F}\U{20E3}",
     "5\U{FE0F}\U{20E3}", "6\U{FE0F}\U{20E3}", "7\U{FE0F}\U{20E3}", "8\U{FE0F}\U{20E3}"]

  datatype Reaction = Reaction(emoji: string, userId: string)

  datatype OptionResult = OptionResult(
    index: nat, caption: string, emoji: string, votes: nat, share: int, hasOwnVote: bool)

  datatype Tally = Tally(results: seq<OptionResult>, totalVotes: nat, voterCount: nat)

  /** `indexOf`. */
  function IndexIn(emojis: seq<string>, emoji: string): Option<nat> {
    if emojis == [] then None
    else if emojis[0] == emoji then Some(0)
    else
      var rest := IndexIn(emojis[1..], emoji);
      if rest.None? then None else Some(rest.value + 1)
  }

  lemma {:induction false} IndexInFinds(emojis: seq<string>, emoji: string, i: nat)
    ensures IndexIn(emojis, emoji) == Some(i)
        <==> i < |emojis| && emojis[i] == emoji && forall j :: 0 <= j < i ==> emojis[j] != emoji
  {
    if emojis != [] && emojis[0] != emoji {
      if i > 0 {
        IndexInFinds(emojis[1..], emoji, i - 1);
        assert forall j :: 0 < j < |emojis| ==> emojis[j] == emojis[1..][j - 1];
      }
    }
  }

  /** The vote emoji differ by their digit, so an option's emoji votes for that option alone. */
  lemma EmojiVotesForOne(i: nat)
    requires i < Poll.MAX_POLL_OPTIONS
    ensures IndexIn(POLL_NUMBER_EMOJIS, POLL_NUMBER_EMOJIS[i]) == Some(i)
  {
    forall j | 0 <= j < i ensures POLL_NUMBER_EMOJIS[j] != POLL_NUMBER_EMOJIS[i] {
      assert POLL_NUMBER_EMOJIS[j][0] != POLL_NUMBER_EMOJIS[i][0];
    }
    IndexInFinds(POLL_NUMBER_EMOJIS, POLL_NUMBER_EMOJIS[i], i);
  }

  predicate VotesFor(r: Reaction, i: nat) {
    IndexIn(POLL_NUMBER_EMOJIS, r.emoji) == Some(i)
  }

  predicate Counts(r: Reaction, n: nat) {
    var i := IndexIn(POLL_NUMBER_EMOJIS, r.emoji);
    i.Some? && i.value < n
  }

  function Votes(reactions: seq<Reaction>, i: nat): seq<Reaction> {
    Filter(reactions, (r: Reaction) => VotesFor(r, i))
  }

  function Counted(reactions: seq<Reaction>, n: nat): seq<Reaction> {
    Filter(reactions, (r: Reaction) => Counts(r, n))
  }

  function Users(reactions: seq<Reaction>): set<string> {
    set r | r in reactions :: r.userId
  }

  predicate OwnVote(reactions: seq<Reaction>, i: nat, userId: string) {
    exists k :: 0 <= k < |reactions| && VotesFor(reactions[k], i) && reactions[k].userId == userId
  }

  function Percent(votes: nat, total: nat): real
    requires total > 0
  {
    votes as real / total as real * 100.0
  }

  function Share(votes: nat, total: nat): int {
    if total == 0 then 0 else Round(Percent(votes, total))
  }

  function OptionCount(options: seq<string>): nat {
    if |options| < Poll.MAX_POLL_OPTIONS then |options| else Poll.MAX_POLL_OPTIONS
  }

  /** The result of option `i`: its emoji's occurrences, their share of the total, whether the user is among them. */
  predicate MeansItsVotes(result: OptionResult, i: nat, reactions: seq<Reaction>, total: nat, userId: string)
    requires i < 8
  {
    && result.votes == multiset(EmojisOf(reactions))[POLL_NUMBER_EMOJIS[i]]
    && 200 * result.votes - total <= 2 * result.share * total <= 200 * result.votes + total
    && (if total == 0 then result.share == 0 else 200 * result.votes - total < 2 * result.share * total)
    && (result.hasOwnVote <==> Reaction(POLL_NUMBER_EMOJIS[i], userId) in reactions)
  }

  // ---- Votes, shares and voters without the machinery ------------------------------

  function EmojisOf(reactions: seq<Reaction>): seq<string> {
    if reactions == [] then [] else [reactions[0].emoji] + EmojisOf(reactions[1..])
  }

  lemma VotesForExactly(r: Reaction, i: nat)
    requires i < 8
    ensures VotesFor(r, i) <==> r.emoji == POLL_NUMBER_EMOJIS[i]
  {
    EmojiVotesForOne(i);
    IndexInFinds(POLL_NUMBER_EMOJIS, r.emoji, i);
  }

  lemma CountsExactly(r: Reaction, n: nat)
    requires n <= 8
    ensures Counts(r, n) <==> r.emoji in POLL_NUMBER_EMOJIS[..n]
  {
    var at := IndexIn(POLL_NUMBER_EMOJIS, r.emoji);
    if at.Some? {
      IndexInFinds(POLL_NUMBER_EMOJIS, r.emoji, at.value);
    }
    if r.emoji in POLL_NUMBER_EMOJIS[..n] {
      var i :| 0 <= i < n && POLL_NUMBER_EMOJIS[i] == r.emoji;
      EmojiVotesForOne(i);
    }
  }

  /** An option has as many votes as its emoji occurs among the reactions. */
  lemma {:induction false} VotesAreOccurrences(reactions: seq<Reaction>, i: nat)
    requires i < 8
    ensures |Votes(reactions, i)| == multiset(EmojisOf(reactions))[POLL_NUMBER_EMOJIS[i]]
  {
    if reactions != [] {
      VotesAreOccurrences(reactions[1..], i);
      VotesForExactly(reactions[0], i);
    }
  }

  lemma OwnVoteExactly(reactions: seq<Reaction>, i: nat, userId: string)
    requires i < 8
    ensures OwnVote(reactions, i, userId) <==> Reaction(POLL_NUMBER_EMOJIS[i], userId) in reactions
  {
    if OwnVote(reactions, i, userId) {
      var k :| 0 <= k < |reactions| && VotesFor(reactions[k], i) && reactions[k].userId == userId;
      VotesForExactly(reactions[k], i);
    }
    if Reaction(POLL_NUMBER_EMOJIS[i], userId) in reactions {
      var k :| 0 <= k < |reactions| && reactions[k] == Reaction(POLL_NUMBER_EMOJIS[i], userId);
      VotesForExactly(reactions[k], i);
    }
  }

  /** Everyone with a reaction that is an option's emoji is a voter, and nobody else. */
  lemma VotersExactly(reactions: seq<Reaction>, n: nat)
    requires n <= 8
    ensures Users(Counted(reactions, n)) == set r | r in reactions && r.emoji in POLL_NUMBER_EMOJIS[..n] :: r.userId
  {
    forall r ensures r in Counted(reactions, n) <==> r in reactions && r.emoji in POLL_NUMBER_EMOJIS[..n] {
      FilterMember(reactions, (x: Reaction) => Counts(x, n), r);
      CountsExactly(r, n);
    }
  }

  /** The share is the percentage to the nearest integer, the larger one in the middle. */
  lemma ShareExactly(votes: nat, total: nat)
    requires votes <= total
    ensures total == 0 ==> Share(votes, total) == 0
    ensures 200 * votes - total <= 2 * Share(votes, total) * total <= 200 * votes + total
    ensures total > 0 ==> 200 * votes - total < 2 * Share(votes, total) * total
  {
    if total > 0 {
      RoundsHalfUp(Percent(votes, total));
      PercentTimes(votes, total);
      InIntegers(Percent(votes, total), Share(votes, total), votes, total);
    }
  }

  lemma InIntegers(percent: real, share: int, votes: nat, total: nat)
    requires total > 0 && percent * total as real == 100.0 * votes as real
    requires percent - 0.5 < share as real <= percent + 0.5
    ensures 200 * votes - total < 2 * share * total <= 200 * votes + total
  {
    var exact, product := 100.0 * votes as real, (share * total) as real;
    CastProduct(share, total);
    Scale(percent, share as real, total as real, exact, product);
    Doubled(exact, product, share * total, votes, total);
  }

  lemma Doubled(exact: real, product: real, p: int, votes: nat, total: nat)
    requires exact == 100.0 * votes as real && product == p as real
    requires 2.0 * exact - total as real < 2.0 * product <= 2.0 * exact + total as real
    ensures 200 * votes - total < 2 * p <= 200 * votes + total
  {
  }

  lemma CastProduct(a: int, b: int)
    ensures (a * b) as real == a as real * b as real
  {
  }

  lemma PercentTimes(votes: nat, total: nat)
    requires total > 0
    ensures Percent(votes, total) * total as real == 100.0 * votes as real
  {
  }

  lemma Scale(x: real, r: real, t: real, exact: real, product: real)
    requires x - 0.5 < r <= x + 0.5 && t > 0.0 && exact == x * t && product == r * t
    ensures 2.0 * exact - t < 2.0 * product <= 2.0 * exact + t
  {
    var difference := HalfOf(r - x, t);
    Distributes(r, x, t);
    assert difference == product - exact;
  }

  lemma HalfOf(d: real, t: real) returns (part: real)
    requires -0.5 < d <= 0.5 && t > 0.0
    ensures part == d * t && -t < 2.0 * part <= t
  {
    part := d * t;
  }

  lemma Distributes(a: real, b: real, t: real)
    ensures (a - b) * t == a * t - b * t
  {
  }

  method TallyPollVotes(options: seq<string>, reactions: seq<Reaction>, currentUserId: string) returns (t: Tally)
    ensures |t.results| == OptionCount(options)
    ensures t.totalVotes == |Counted(reactions, |t.results|)|
    ensures t.voterCount == |Users(Counted(reactions, |t.results|))|
    ensures forall i :: 0 <= i < |t.results| ==> t.results[i] == OptionResult(i, options[i], POLL_NUMBER_EMOJIS[i],
        |Votes(reactions, i)|, Share(|Votes(reactions, i)|, t.totalVotes), OwnVote(reactions, i, currentUserId))
    ensures |t.results| == Min(|options|, 8)
    ensures t.voterCount == |set r | r in reactions && r.emoji in POLL_NUMBER_EMOJIS[..|t.results|] :: r.userId|
    ensures forall i :: 0 <= i < |t.results| ==> MeansItsVotes(t.results[i], i, reactions, t.totalVotes, currentUserId)
  {
    var n := OptionCount(options);
    var results := seq(n, i requires 0 <= i < n => OptionResult(i, options[i], POLL_NUMBER_EMOJIS[i], 0, 0, false));
    var voters: set<string> := {};
    var totalVotes := 0;
    for k := 0 to |reactions|
      invariant |results| == n
      invariant totalVotes == |Counted(reactions[..k], n)|
      invariant voters == Users(Counted(reactions[..k], n))
      invariant forall i :: 0 <= i < n ==> results[i] == OptionResult(i, options[i], POLL_NUMBER_EMOJIS[i],
          |Votes(reactions[..k], i)|, 0, OwnVote(reactions[..k], i, currentUserId))
    {
      var reaction := reactions[k];
      assert reactions[..k + 1] == reactions[..k] + [reaction];
      CountStep(reactions[..k], reaction, n);
      forall i | 0 <= i < n
        ensures |Votes(reactions[..k + 1], i)| == |Votes(reactions[..k], i)| + if VotesFor(reaction, i) then 1 else 0
        ensures OwnVote(reactions[..k + 1], i, currentUserId)
            <==> OwnVote(reactions[..k], i, currentUserId)
                 || (VotesFor(reaction, i) && reaction.userId == currentUserId)
      {
        VoteStep(reactions[..k], reaction, i, currentUserId);
      }
      var index := IndexIn(POLL_NUMBER_EMOJIS, reaction.emoji);
      if index.None? || index.value >= |results| { continue; }
      var result := results[index.value];
      results := results[index.value := result.(votes := result.votes + 1,
                                                hasOwnVote := result.hasOwnVote || reaction.userId == currentUserId)];
      totalVotes := totalVotes + 1;
      voters := voters + {reaction.userId};
    }
    assert reactions[..|reactions|] == reactions;
    if totalVotes > 0 {
      for i := 0 to |results|
        invariant |results| == n
        invariant forall j :: 0 <= j < n ==> results[j] == OptionResult(j, options[j], POLL_NUMBER_EMOJIS[j],
            |Votes(reactions, j)|, if j < i then Share(|Votes(reactions, j)|, totalVotes) else 0,
            OwnVote(reactions, j, currentUserId))
      {
        results := results[i := results[i].(share := Round(results[i].votes as real / totalVotes as real * 100.0))];
      }
    }
    t := Tally(results, totalVotes, |voters|);
    VotersExactly(reactions, n);
    forall i | 0 <= i < n ensures MeansItsVotes(results[i], i, reactions, totalVotes, currentUserId) {
      VotesAreOccurrences(reactions, i);
      FewerVotesThanCounted(reactions, i, n);
      ShareExactly(|Votes(reactions, i)|, totalVotes);
      OwnVoteExactly(reactions, i, currentUserId);
    }
  }

  lemma CountStep(reactions: seq<Reaction>, r: Reaction, n: nat)
    ensures Counted(reactions + [r], n) == Counted(reactions, n) + if Counts(r, n) then [r] else []
    ensures Users(Counted(reactions + [r], n)) == Users(Counted(reactions, n)) + if Counts(r, n) then {r.userId} else {}
  {
    FilterAppend(reactions, [r], (x: Reaction) => Counts(x, n));
    assert [r][1..] == [];
    var was, now := Counted(reactions, n), Counted(reactions + [r], n);
    if Counts(r, n) {
      assert now == was + [r];
      assert forall x :: x in now <==> x in was || x == r;
      assert r in now;
    }
  }

  lemma VoteStep(reactions: seq<Reaction>, r: Reaction, i: nat, userId: string)
    ensures |Votes(reactions + [r], i)| == |Votes(reactions, i)| + if VotesFor(r, i) then 1 else 0
    ensures OwnVote(reactions + [r], i, userId)
        <==> OwnVote(reactions, i, userId) || (VotesFor(r, i) && r.userId == userId)
  {
    FilterAppend(reactions, [r], (x: Reaction) => VotesFor(x, i));
    assert [r][1..] == [];
    var longer := reactions + [r];
    if OwnVote(reactions, i, userId) {
      var k :| 0 <= k < |reactions| && VotesFor(reactions[k], i) && reactions[k].userId == userId;
      assert longer[k] == reactions[k];
    }
    assert longer[|reactions|] == r;
  }

  lemma {:induction false} FewerVotesThanCounted(reactions: seq<Reaction>, i: nat, n: nat)
    requires i < n
    ensures |Votes(reactions, i)| <= |Counted(reactions, n)|
  {
    if reactions != [] {
      FewerVotesThanCounted(reactions[1..], i, n);
    }
  }

  // ---- Conservation --------------------------------------------------------------

  function SumVotes(reactions: seq<Reaction>, n: nat): nat {
    if n == 0 then 0 else SumVotes(reactions, n - 1) + |Votes(reactions, n - 1)|
  }

  function SumShares(reactions: seq<Reaction>, total: nat, n: nat): int {
    if n == 0 then 0 else SumShares(reactions, total, n - 1) + Share(|Votes(reactions, n - 1)|, total)
  }

  lemma {:induction false} CountedGrows(reactions: seq<Reaction>, n: nat)
    ensures |Counted(reactions, n + 1)| == |Counted(reactions, n)| + |Votes(reactions, n)|
  {
    if reactions != [] {
      CountedGrows(reactions[1..], n);
    }
  }

  lemma {:induction false} VotesSumToTotal(reactions: seq<Reaction>, n: nat)
    ensures SumVotes(reactions, n) == |Counted(reactions, n)|
  {
    if n == 0 {
      NothingCounts(reactions);
    } else {
      VotesSumToTotal(reactions, n - 1);
      CountedGrows(reactions, n - 1);
    }
  }

  lemma {:induction false} NothingCounts(reactions: seq<Reaction>)
    ensures Counted(reactions, 0) == []
  {
    if reactions != [] {
      NothingCounts(reactions[1..]);
    }
  }

  lemma {:induction false} FewerUsersThanReactions(reactions: seq<Reaction>)
    ensures |Users(reactions)| <= |reactions|
  {
    if reactions != [] {
      FewerUsersThanReactions(reactions[1..]);
      assert reactions == [reactions[0]] + reactions[1..];
      assert Users(reactions) == Users(reactions[1..]) + {reactions[0].userId};
    }
  }

  lemma PercentAdds(a: nat, b: nat, total: nat)
    requires total > 0
    ensures Percent(a + b, total) == Percent(a, total) + Percent(b, total)
  {
    var t := total as real;
    assert (a + b) as real / t == a as real / t + b as real / t;
  }

  lemma PercentOfAll(total: nat)
    requires total > 0
    ensures Percent(0, total) == 0.0 && Percent(total, total) == 100.0
  {
  }

  /** Rounding moves each share by at most half a point. */
  lemma {:induction false} SharesFollowVotes(reactions: seq<Reaction>, total: nat, n: nat)
    requires total > 0
    ensures var error := SumShares(reactions, total, n) as real - Percent(SumVotes(reactions, n), total);
      -(n as real) <= 2.0 * error <= n as real
  {
    if n == 0 {
      PercentOfAll(total);
    } else {
      var v, s := |Votes(reactions, n - 1)|, SumVotes(reactions, n - 1);
      SharesFollowVotes(reactions, total, n - 1);
      PercentAdds(s, v, total);
      RoundsHalfUp(Percent(v, total));
      ShareStep(SumShares(reactions, total, n - 1), Percent(s, total), Share(v, total), Percent(v, total), n);
    }
  }

  lemma ShareStep(sum: int, exact: real, share: int, percent: real, n: nat)
    requires n > 0 && -((n - 1) as real) <= 2.0 * (sum as real - exact) <= (n - 1) as real
    requires percent - 0.5 <= share as real <= percent + 0.5
    ensures -(n as real) <= 2.0 * ((sum + share) as real - (exact + percent)) <= n as real
  {
  }

  /**
   * Conservation for any reactions: the option votes add up to the total, there are at most as many voters as
   * votes, and with at least one vote the rounded shares add up to 100 give or take half a point per option.
   */
  lemma TallyConserves(reactions: seq<Reaction>, n: nat)
    ensures var total := |Counted(reactions, n)|;
      && SumVotes(reactions, n) == total
      && |Users(Counted(reactions, n))| <= total
      && (total > 0 ==> -(n as int) <= 2 * (SumShares(reactions, total, n) - 100) <= n)
  {
    var total := |Counted(reactions, n)|;
    VotesSumToTotal(reactions, n);
    FewerUsersThanReactions(Counted(reactions, n));
    if total > 0 {
      SharesFollowVotes(reactions, total, n);
      PercentOfAll(total);
    }
  }
}
