/**
 * Ballot weights, `toBallotWeights` (data.kt:130-144): a voter's weight is
 * maxRating / (maxRating + the sum of the ratings the voter gave to options already chosen),
 * keyed by vote id.
 */
module Weights {
  import opened AssocLists
  import opened VoteData

  // ---------------------------------------------------------------------------------------------
  // Specification

  /** The sum of the ratings given to options in `chosen`. */
  function WinnerRatingSum(ratings: AList<int>, chosen: set<string>): int
    decreases |ratings|
  {
    if ratings == [] then 0
    else (if ratings[0].0 in chosen then ratings[0].1 else 0) + WinnerRatingSum(ratings[1..], chosen)
  }

  /** No vote's weight divides by zero (the Double arithmetic would give an infinity or NaN). */
  predicate WeightsDefined(maxRating: int, chosen: set<string>, votes: seq<RangeVote>)
  {
    forall i :: 0 <= i < |votes| ==> maxRating + WinnerRatingSum(votes[i].ratings, chosen) != 0
  }

  /** One voter's weight. */
  function VoteWeight(maxRating: int, chosen: set<string>, ratings: AList<int>): real
    requires maxRating + WinnerRatingSum(ratings, chosen) != 0
  {
    maxRating as real / (maxRating + WinnerRatingSum(ratings, chosen)) as real
  }

  /** The vote loop run over `votes`, starting from `weights`; a later vote with the same id overwrites. */
  function WeightsFrom(maxRating: int, chosen: set<string>, votes: seq<RangeVote>, weights: map<string, real>)
    : map<string, real>
    requires WeightsDefined(maxRating, chosen, votes)
    decreases |votes|
  {
    if votes == [] then weights
    else
      assert forall i :: 1 <= i < |votes| ==> votes[1..][i - 1] == votes[i];
      WeightsFrom(maxRating, chosen, votes[1..], weights[votes[0].id := VoteWeight(maxRating, chosen, votes[0].ratings)])
  }

  /** `toBallotWeights(maxRating, chosen, votes)`. */
  function BallotWeights(maxRating: int, chosen: set<string>, votes: seq<RangeVote>): map<string, real>
    requires WeightsDefined(maxRating, chosen, votes)
  {
    WeightsFrom(maxRating, chosen, votes, map[])
  }

  // ---------------------------------------------------------------------------------------------
  // The source's loops

  method ToBallotWeights(maxRating: int, chosen: set<string>, votes: seq<RangeVote>) returns (weights: map<string, real>)
    requires WeightsDefined(maxRating, chosen, votes)
    ensures weights == BallotWeights(maxRating, chosen, votes)
  {
    var maxRatingReal := maxRating as real;
    weights := map[];
    for i := 0 to |votes|
      invariant WeightsFrom(maxRating, chosen, votes[i..], weights) == BallotWeights(maxRating, chosen, votes)
    {
      var vote := votes[i];
      assert votes[i..][0] == vote && votes[i..][1..] == votes[i + 1..];
      var sumWinnerRatings := 0.0;
      for j := 0 to |vote.ratings|
        invariant sumWinnerRatings + WinnerRatingSum(vote.ratings[j..], chosen) as real
                  == WinnerRatingSum(vote.ratings, chosen) as real
      {
        var (option, rating) := vote.ratings[j];
        assert vote.ratings[j..][0] == (option, rating) && vote.ratings[j..][1..] == vote.ratings[j + 1..];
        if option in chosen {
          sumWinnerRatings := sumWinnerRatings + rating as real;
        }
      }
      var weight := maxRatingReal / (maxRatingReal + sumWinnerRatings);
      weights := weights[vote.id := weight];
    }
  }

  // ---------------------------------------------------------------------------------------------
  // Properties

  /** A positive scale and no negative rating: the domain the tally is meant for. */
  predicate WellScaled(maxRating: int, votes: seq<RangeVote>)
  {
    maxRating > 0 && forall i :: 0 <= i < |votes| ==> NonNegativeRatings(votes[i].ratings)
  }

  /** With no negative rating, the sum is 0 exactly when every rating of a chosen option is 0. */
  lemma {:induction false} WinnerRatingSumZero(ratings: AList<int>, chosen: set<string>)
    requires NonNegativeRatings(ratings)
    ensures WinnerRatingSum(ratings, chosen) >= 0
    ensures WinnerRatingSum(ratings, chosen) == 0
            <==> forall j :: 0 <= j < |ratings| && ratings[j].0 in chosen ==> ratings[j].1 == 0
    decreases |ratings|
  {
    if ratings != [] {
      assert forall j :: 1 <= j < |ratings| ==> ratings[1..][j - 1] == ratings[j];
      WinnerRatingSumZero(ratings[1..], chosen);
    }
  }

  /** On a positive scale without negative ratings every weight is defined, whatever was chosen. */
  lemma WellScaledWeightsDefined(maxRating: int, chosen: set<string>, votes: seq<RangeVote>)
    requires WellScaled(maxRating, votes)
    ensures WeightsDefined(maxRating, chosen, votes)
  {
    forall i | 0 <= i < |votes| ensures maxRating + WinnerRatingSum(votes[i].ratings, chosen) != 0 {
      WinnerRatingSumZero(votes[i].ratings, chosen);
    }
  }

  /**
   * A weight lies in (0, 1], and is exactly 1 when the voter gave every chosen option a 0 or
   * did not rate it; in particular when the voter rated no chosen option.
   */
  lemma VoteWeightBounds(maxRating: int, chosen: set<string>, ratings: AList<int>)
    requires maxRating > 0 && NonNegativeRatings(ratings)
    ensures maxRating + WinnerRatingSum(ratings, chosen) > 0
    ensures 0.0 < VoteWeight(maxRating, chosen, ratings) <= 1.0
    ensures VoteWeight(maxRating, chosen, ratings) == 1.0
            <==> forall j :: 0 <= j < |ratings| && ratings[j].0 in chosen ==> ratings[j].1 == 0
  {
    WinnerRatingSumZero(ratings, chosen);
    var m := maxRating as real;
    var s := WinnerRatingSum(ratings, chosen) as real;
    assert VoteWeight(maxRating, chosen, ratings) == m / (m + s);
    QuotientBounds(m, m + s);
  }

  lemma QuotientBounds(m: real, d: real)
    requires 0.0 < m <= d
    ensures 0.0 < m / d <= 1.0
    ensures m / d == 1.0 <==> m == d
  {
    var q := m / d;
    assert q * d == m;
  }

  /** The weights are keyed by exactly the ids of the votes (and whatever the start held). */
  lemma {:induction false} WeightsFromKeys(maxRating: int, chosen: set<string>, votes: seq<RangeVote>,
                                           weights: map<string, real>)
    requires WeightsDefined(maxRating, chosen, votes)
    ensures WeightsFrom(maxRating, chosen, votes, weights).Keys
            == weights.Keys + set i | 0 <= i < |votes| :: votes[i].id
    decreases |votes|
  {
    if votes != [] {
      assert forall i :: 1 <= i < |votes| ==> votes[1..][i - 1] == votes[i];
      var w' := weights[votes[0].id := VoteWeight(maxRating, chosen, votes[0].ratings)];
      WeightsFromKeys(maxRating, chosen, votes[1..], w');
      var ids := set i | 0 <= i < |votes| :: votes[i].id;
      var rest := set i | 0 <= i < |votes[1..]| :: votes[1..][i].id;
      assert ids == {votes[0].id} + rest by {
        forall id | id in ids ensures id in {votes[0].id} + rest {
          var i :| 0 <= i < |votes| && votes[i].id == id;
          if i > 0 { assert votes[1..][i - 1].id == id; }
        }
      }
    }
  }

  /** A vote no later vote shares its id with sets the weight under that id. */
  lemma {:induction false} WeightsFromLastVote(maxRating: int, chosen: set<string>, votes: seq<RangeVote>,
                                               weights: map<string, real>, i: nat)
    requires WeightsDefined(maxRating, chosen, votes)
    requires i < |votes| && forall k :: i < k < |votes| ==> votes[k].id != votes[i].id
    ensures votes[i].id in WeightsFrom(maxRating, chosen, votes, weights)
    ensures WeightsFrom(maxRating, chosen, votes, weights)[votes[i].id] == VoteWeight(maxRating, chosen, votes[i].ratings)
    decreases |votes|
  {
    assert forall k :: 1 <= k < |votes| ==> votes[1..][k - 1] == votes[k];
    var w' := weights[votes[0].id := VoteWeight(maxRating, chosen, votes[0].ratings)];
    if i == 0 {
      WeightsFromUntouched(maxRating, chosen, votes[1..], w', votes[0].id);
    } else {
      WeightsFromLastVote(maxRating, chosen, votes[1..], w', i - 1);
    }
  }

  /** Votes that do not carry `id` leave the weight under `id` as it was. */
  lemma {:induction false} WeightsFromUntouched(maxRating: int, chosen: set<string>, votes: seq<RangeVote>,
                                                weights: map<string, real>, id: string)
    requires WeightsDefined(maxRating, chosen, votes)
    requires id in weights && forall k :: 0 <= k < |votes| ==> votes[k].id != id
    ensures id in WeightsFrom(maxRating, chosen, votes, weights)
    ensures WeightsFrom(maxRating, chosen, votes, weights)[id] == weights[id]
    decreases |votes|
  {
    if votes != [] {
      assert forall k :: 1 <= k < |votes| ==> votes[1..][k - 1] == votes[k];
      var w' := weights[votes[0].id := VoteWeight(maxRating, chosen, votes[0].ratings)];
      WeightsFromUntouched(maxRating, chosen, votes[1..], w', id);
    }
  }

  /**
   * The weight under a vote's id is the weight of the last vote with that id; when ids are
   * distinct, every vote has its own weight.
   */
  lemma BallotWeightsByLastVote(maxRating: int, chosen: set<string>, votes: seq<RangeVote>, i: nat)
    requires WeightsDefined(maxRating, chosen, votes)
    requires i < |votes| && forall k :: i < k < |votes| ==> votes[k].id != votes[i].id
    ensures votes[i].id in BallotWeights(maxRating, chosen, votes)
    ensures BallotWeights(maxRating, chosen, votes)[votes[i].id] == VoteWeight(maxRating, chosen, votes[i].ratings)
  {
    WeightsFromLastVote(maxRating, chosen, votes, map[], i);
  }

  /** On a positive scale without negative ratings, every weight in the map lies in (0, 1]. */
  lemma {:induction false} WeightsFromBounds(maxRating: int, chosen: set<string>, votes: seq<RangeVote>,
                                             weights: map<string, real>)
    requires WellScaled(maxRating, votes) && WeightsDefined(maxRating, chosen, votes)
    requires forall id :: id in weights ==> 0.0 < weights[id] <= 1.0
    ensures forall id :: id in WeightsFrom(maxRating, chosen, votes, weights)
                         ==> 0.0 < WeightsFrom(maxRating, chosen, votes, weights)[id] <= 1.0
    decreases |votes|
  {
    if votes != [] {
      assert forall k :: 1 <= k < |votes| ==> votes[1..][k - 1] == votes[k];
      VoteWeightBounds(maxRating, chosen, votes[0].ratings);
      var w' := weights[votes[0].id := VoteWeight(maxRating, chosen, votes[0].ratings)];
      WeightsFromBounds(maxRating, chosen, votes[1..], w');
    }
  }
}
