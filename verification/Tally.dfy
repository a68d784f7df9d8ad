/** Ballots: the target with strictly the most votes, or nobody
    (resolution/vote.ts, resolution/night/index.ts). */
module Tally {
  import opened Wrappers
  import opened GameState

  function Count(votes: seq<UserId>, target: UserId): nat {
    if votes == [] then 0
    else Count(votes[..|votes| - 1], target) + (if votes[|votes| - 1] == target then 1 else 0)
  }

  /** `target` has votes, and more than anybody else. */
  ghost predicate Leads(votes: seq<UserId>, target: UserId) {
    Count(votes, target) > 0 && forall other: UserId :: other != target ==> Count(votes, other) < Count(votes, target)
  }

  ghost function Plurality(votes: seq<UserId>): (leader: Option<UserId>)
    ensures leader.Some? ==> Leads(votes, leader.value)
    ensures leader.None? ==> forall target :: !Leads(votes, target)
  {
    if target :| Leads(votes, target) then Some(target) else None
  }

  lemma PluralityIs(votes: seq<UserId>, target: UserId)
    requires Leads(votes, target)
    ensures Plurality(votes) == Some(target)
  {
  }

  lemma {:induction false} CountedIsPresent(votes: seq<UserId>, target: UserId)
    ensures Count(votes, target) > 0 <==> target in votes
    decreases |votes|
  {
    if votes != [] {
      CountedIsPresent(votes[..|votes| - 1], target);
      assert votes == votes[..|votes| - 1] + [votes[|votes| - 1]];
    }
  }

  ghost predicate Tallies(tally: map<UserId, nat>, votes: seq<UserId>) {
    forall u: UserId :: if u in tally then tally[u] == Count(votes, u) && tally[u] > 0 else Count(votes, u) == 0
  }

  method CountVotes(votes: seq<UserId>) returns (tally: map<UserId, nat>)
    ensures Tallies(tally, votes)
  {
    tally := map[];
    for i := 0 to |votes|
      invariant Tallies(tally, votes[..i])
    {
      assert votes[..i + 1][..i] == votes[..i];
      var before := if votes[i] in tally then tally[votes[i]] else 0;
      tally := tally[votes[i] := before + 1];
    }
    assert votes[..|votes|] == votes;
  }

  ghost predicate Highest(tally: map<UserId, nat>, highest: nat) {
    && (forall u :: u in tally ==> tally[u] <= highest)
    && (highest == 0 || exists u :: u in tally && tally[u] == highest)
  }

  /** Being the only one at the top is leading. */
  lemma LeaderTopsAlone(tally: map<UserId, nat>, votes: seq<UserId>, highest: nat, winners: set<UserId>, target: UserId)
    requires Tallies(tally, votes) && Highest(tally, highest)
    requires winners == set u | u in tally && tally[u] == highest && tally[u] > 0
    ensures Leads(votes, target) <==> winners == {target}
  {
    hide Count;
    if winners == {target} {
      assert target in winners;
      forall other: UserId | other != target ensures Count(votes, other) < Count(votes, target) {
        assert other !in winners;
      }
    }
    if Leads(votes, target) {
      assert target in tally && tally[target] == highest;
      assert forall u :: u in winners ==> u == target;
    }
  }

  /** The one entry that reaches the highest count. */
  method UniqueWinner(tally: map<UserId, nat>, ghost votes: seq<UserId>) returns (winner: Option<UserId>)
    requires Tallies(tally, votes)
    ensures winner == Plurality(votes)
  {
    hide Tallies, Leads;
    var highest := 0;
    var left := tally.Keys;
    while left != {}
      invariant left <= tally.Keys
      invariant forall u :: u in tally && u !in left ==> tally[u] <= highest
      invariant highest == 0 || exists u :: u in tally && u !in left && tally[u] == highest
      decreases |left|
    {
      var u :| u in left;
      if tally[u] > highest { highest := tally[u]; }
      left := left - {u};
    }
    assert Highest(tally, highest);
    var winners := set u | u in tally && tally[u] == highest && tally[u] > 0;
    forall target: UserId ensures Leads(votes, target) <==> winners == {target} {
      LeaderTopsAlone(tally, votes, highest, winners, target);
    }
    if |winners| == 1 {
      var w :| w in winners;
      assert winners == {w} by { assert |winners - {w}| == 0; }
      return Some(w);
    }
    return None;
  }
}
