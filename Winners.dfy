/**
 * The winner loop, `toRangeWinners` (data.kt:85-100): selection rounds are repeated, each time
 * with the options elected so far, until as many winners as the question declares options are
 * elected or a round finds no candidate.
 */
module Winners {
  import opened Wrappers
  import opened VoteData
  import opened Weights
  import opened Selection

  // ---------------------------------------------------------------------------------------------
  // Specification

  /** `winningOptionsSoFar`: the options of `winners`. */
  function WinnerOptions(winners: seq<RangeWinner>): set<string>
  {
    if winners == [] then {} else WinnerOptions(winners[..|winners| - 1]) + {winners[|winners| - 1].option}
  }

  /** The loop run from `winners` on, with `optionCount` the number of declared options. */
  function WinnersFrom(maxRating: int, optionCount: nat, votes: seq<RangeVote>, winners: seq<RangeWinner>)
    : seq<RangeWinner>
    requires WellScaled(maxRating, votes) && RatingsAreMaps(votes)
    decreases optionCount - |WinnerOptions(winners)|
  {
    var chosen := WinnerOptions(winners);
    if |chosen| >= optionCount then winners
    else
      WellScaledWeightsDefined(maxRating, chosen, votes);
      var next := RoundWinner(maxRating, chosen, votes);
      if next.None? then winners
      else
        RoundWinnerIsBest(maxRating, chosen, votes);
        assert (winners + [next.value])[..|winners|] == winners;
        WinnersFrom(maxRating, optionCount, votes, winners + [next.value])
  }

  /** `toRangeWinners(question, votes)`. */
  function RangeWinners(question: RangeQuestion, votes: seq<RangeVote>): seq<RangeWinner>
    requires WellScaled(question.maxRating, votes) && RatingsAreMaps(votes)
  {
    WinnersFrom(question.maxRating, |question.options|, votes, [])
  }

  /** A round that elects w extends the winners by w and goes on. */
  lemma WinnersFromNext(maxRating: int, optionCount: nat, votes: seq<RangeVote>, winners: seq<RangeWinner>,
                        w: RangeWinner)
    requires WellScaled(maxRating, votes) && RatingsAreMaps(votes)
    requires |WinnerOptions(winners)| < optionCount
    requires WeightsDefined(maxRating, WinnerOptions(winners), votes)
    requires RoundWinner(maxRating, WinnerOptions(winners), votes) == Some(w)
    ensures WinnersFrom(maxRating, optionCount, votes, winners) == WinnersFrom(maxRating, optionCount, votes, winners + [w])
  {
  }

  /** A round that finds no candidate ends the loop. */
  lemma WinnersFromStop(maxRating: int, optionCount: nat, votes: seq<RangeVote>, winners: seq<RangeWinner>)
    requires WellScaled(maxRating, votes) && RatingsAreMaps(votes)
    requires WeightsDefined(maxRating, WinnerOptions(winners), votes)
    requires RoundWinner(maxRating, WinnerOptions(winners), votes).None?
    ensures WinnersFrom(maxRating, optionCount, votes, winners) == winners
  {
  }

  // ---------------------------------------------------------------------------------------------
  // The source's loop

  method ToRangeWinners(question: RangeQuestion, votes: seq<RangeVote>) returns (winners: seq<RangeWinner>)
    requires WellScaled(question.maxRating, votes) && RatingsAreMaps(votes)
    ensures winners == RangeWinners(question, votes)
  {
    winners := [];
    var winningOptionsSoFar: set<string> := {};
    while |winningOptionsSoFar| < |question.options|
      invariant winningOptionsSoFar == WinnerOptions(winners)
      invariant WinnersFrom(question.maxRating, |question.options|, votes, winners) == RangeWinners(question, votes)
      decreases |question.options| - |winningOptionsSoFar|
    {
      WellScaledWeightsDefined(question.maxRating, winningOptionsSoFar, votes);
      var winner := NextRangeWinner(question.maxRating, winningOptionsSoFar, votes);
      if winner.None? {
        break;
      }
      RoundWinnerIsBest(question.maxRating, winningOptionsSoFar, votes);
      assert (winners + [winner.value])[..|winners|] == winners;
      winners := winners + [winner.value];
      winningOptionsSoFar := winningOptionsSoFar + {winner.value.option};
    }
  }

  // ---------------------------------------------------------------------------------------------
  // Properties

  /** No option is elected twice. */
  predicate DistinctOptions(winners: seq<RangeWinner>)
  {
    forall i, j :: 0 <= i < j < |winners| ==> winners[i].option != winners[j].option
  }

  /** The options elected are those of the winners. */
  lemma {:induction false} WinnerOptionsMembers(winners: seq<RangeWinner>)
    ensures forall option :: option in WinnerOptions(winners)
                             <==> exists i :: 0 <= i < |winners| && winners[i].option == option
    decreases |winners|
  {
    if winners != [] {
      var init := winners[..|winners| - 1];
      WinnerOptionsMembers(init);
      forall option ensures option in WinnerOptions(winners)
                            <==> exists i :: 0 <= i < |winners| && winners[i].option == option {
        if option in WinnerOptions(init) {
          var i :| 0 <= i < |init| && init[i].option == option;
          assert winners[i].option == option;
        }
        if exists i :: 0 <= i < |winners| && winners[i].option == option {
          var i :| 0 <= i < |winners| && winners[i].option == option;
          if i < |init| {
            assert init[i].option == option;
          }
        }
      }
    }
  }

  /** When no option repeats, one option is elected per winner. */
  lemma {:induction false} WinnerOptionsCount(winners: seq<RangeWinner>)
    requires DistinctOptions(winners)
    ensures |WinnerOptions(winners)| == |winners|
    decreases |winners|
  {
    if winners != [] {
      var init := winners[..|winners| - 1];
      var last := winners[|winners| - 1];
      assert DistinctOptions(init) by {
        assert forall i :: 0 <= i < |init| ==> init[i] == winners[i];
      }
      WinnerOptionsCount(init);
      assert last.option !in WinnerOptions(init) by {
        WinnerOptionsMembers(init);
        forall i | 0 <= i < |init| ensures init[i].option != last.option {
          assert winners[i] == init[i];
        }
      }
    }
  }

  /** A round's winner is not among the winners it was run with. */
  lemma NextWinnerFresh(maxRating: int, votes: seq<RangeVote>, winners: seq<RangeWinner>, w: RangeWinner)
    requires WellScaled(maxRating, votes) && RatingsAreMaps(votes) && DistinctOptions(winners)
    requires WeightsDefined(maxRating, WinnerOptions(winners), votes)
    requires RoundWinner(maxRating, WinnerOptions(winners), votes) == Some(w)
    ensures DistinctOptions(winners + [w])
  {
    var chosen := WinnerOptions(winners);
    RoundWinnerIsBest(maxRating, chosen, votes);
    WinnerOptionsMembers(winners);
    var winners' := winners + [w];
    forall i, j | 0 <= i < j < |winners'| ensures winners'[i].option != winners'[j].option {
      if j == |winners| {
        assert winners[i].option in chosen;
      }
    }
  }

  /**
   * The loop only extends what it was given: with no repeated option, each new winner is the
   * winner of the round run with the winners before it, no option repeats, the count stays within
   * the declared options, and a loop that stops short stops because its last round found nothing.
   */
  lemma {:induction false} WinnersFromSpec(maxRating: int, optionCount: nat, votes: seq<RangeVote>,
                                           winners: seq<RangeWinner>)
    requires WellScaled(maxRating, votes) && RatingsAreMaps(votes)
    requires DistinctOptions(winners) && |winners| <= optionCount
    ensures var r := WinnersFrom(maxRating, optionCount, votes, winners);
            && winners <= r && DistinctOptions(r) && |r| <= optionCount
            && (forall k :: |winners| <= k < |r| ==>
                  WeightsDefined(maxRating, WinnerOptions(r[..k]), votes)
                  && RoundWinner(maxRating, WinnerOptions(r[..k]), votes) == Some(r[k]))
            && (|r| < optionCount ==>
                  WeightsDefined(maxRating, WinnerOptions(r), votes)
                  && RoundWinner(maxRating, WinnerOptions(r), votes).None?)
    decreases optionCount - |winners|
  {
    var chosen := WinnerOptions(winners);
    WellScaledWeightsDefined(maxRating, chosen, votes);
    WinnerOptionsCount(winners);
    if |chosen| < optionCount {
      var next := RoundWinner(maxRating, chosen, votes);
      if next.Some? {
        var w := next.value;
        var winners' := winners + [w];
        assert winners'[..|winners|] == winners;
        NextWinnerFresh(maxRating, votes, winners, w);
        WinnersFromSpec(maxRating, optionCount, votes, winners');
        var r := WinnersFrom(maxRating, optionCount, votes, winners');
        WinnersFromNext(maxRating, optionCount, votes, winners, w);
        forall k | |winners| <= k < |r|
          ensures WeightsDefined(maxRating, WinnerOptions(r[..k]), votes)
          ensures RoundWinner(maxRating, WinnerOptions(r[..k]), votes) == Some(r[k])
        {
          if k == |winners| {
            assert r[..k] == winners by {
              assert winners' <= r;
            }
          }
        }
      }
    }
  }

  /**
   * `toRangeWinners` on a positive scale without negative ratings: at most one winner per declared
   * option, no option elected twice, each winner the winner of the round run with the ones before
   * it, and when fewer winners than options are elected, every option any vote rated was elected.
   */
  lemma RangeWinnersSpec(question: RangeQuestion, votes: seq<RangeVote>)
    requires WellScaled(question.maxRating, votes) && RatingsAreMaps(votes)
    ensures var r := RangeWinners(question, votes);
            && |r| <= |question.options|
            && DistinctOptions(r)
            && (forall k :: 0 <= k < |r| ==>
                  WeightsDefined(question.maxRating, WinnerOptions(r[..k]), votes)
                  && RoundWinner(question.maxRating, WinnerOptions(r[..k]), votes) == Some(r[k]))
            && (|r| < |question.options| ==>
                  forall i, j :: 0 <= i < |votes| && 0 <= j < |votes[i].ratings| ==>
                    votes[i].ratings[j].0 in WinnerOptions(r))
  {
    var r := RangeWinners(question, votes);
    WinnersFromSpec(question.maxRating, |question.options|, votes, []);
    if |r| < |question.options| {
      RoundWinnerNone(question.maxRating, WinnerOptions(r), votes);
    }
  }
}
