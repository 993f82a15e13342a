/**
 * The repository's own test ballot (datatest.kt): three options a, b, c on a 0..5 scale, two
 * voters. Doubles are exact reals here, so 0.5555555555555556 is 5/9 and 1.1111111111111112 is 10/9.
 */
module Examples {
  import opened Wrappers
  import opened AssocLists
  import opened VoteData
  import opened Weights
  import opened Selection
  import opened Winners

  const TestQuestion := RangeQuestion("q1", "zz", ["a", "b", "c"], 5)

  const TestVotes := [RangeVote("v1", "b1", "q1", [("a", 4), ("b", 1)]),
                      RangeVote("v2", "b1", "q1", [("a", 1), ("b", 2)])]

  /** Every vote weighs 1 before any winner; once a is elected, v1 weighs 5/9 and v2 5/6. */
  lemma TestBallotWeights()
    ensures WeightsDefined(5, {}, TestVotes) && BallotWeights(5, {}, TestVotes) == map["v1" := 1.0, "v2" := 1.0]
    ensures WeightsDefined(5, {"a"}, TestVotes)
            && BallotWeights(5, {"a"}, TestVotes) == map["v1" := 5.0 / 9.0, "v2" := 5.0 / 6.0]
  {
    assert WinnerRatingSum(TestVotes[0].ratings, {"a"}) == 4;
    assert WinnerRatingSum(TestVotes[1].ratings, {"a"}) == 1;
  }

  /** The candidate table of two votes with two ratings each, rating by rating. */
  lemma TwoVoteTable(weights: map<string, real>, chosen: set<string>)
    ensures CandidateTable(TestVotes, weights, chosen)
            == var w1, w2 := WeightOf(weights, "v1"), WeightOf(weights, "v2");
               var t1 := AddWeightedRating(AddWeightedRating([], "a", 4, w1, chosen), "b", 1, w1, chosen);
               AddWeightedRating(AddWeightedRating(t1, "a", 1, w2, chosen), "b", 2, w2, chosen)
  {
    var v1, v2 := TestVotes[0], TestVotes[1];
    assert TestVotes[1..] == [v2] && TestVotes[1..][1..] == [];
    assert v1.ratings[1..] == [("b", 1)] && v1.ratings[1..][1..] == [];
    assert v2.ratings[1..] == [("b", 2)] && v2.ratings[1..][1..] == [];
  }

  /** A rating for an option not yet in the table opens its column at the end. */
  lemma NewColumn(table: Candidates, option: string, rating: int, weight: real, chosen: set<string>, x: real)
    requires option !in Keys(table) && option !in chosen && rating as real * weight == x
    ensures AddWeightedRating(table, option, rating, weight, chosen) == table + [(option, [x])]
  {
    var none: seq<real> := [];
    LookupKeys(table, option);
    assert GetOr(table, option, none) == none;
    assert none + [x] == [x];
    PutNew(table, option, [x]);
  }

  /** A further rating for an option in the table extends its column in place. */
  lemma ExtendColumn(table: Candidates, i: nat, rating: int, weight: real, chosen: set<string>, x: real)
    requires i < |table| && DistinctKeys(table) && table[i].0 !in chosen && rating as real * weight == x
    ensures AddWeightedRating(table, table[i].0, rating, weight, chosen) == table[i := (table[i].0, table[i].1 + [x])]
  {
    LookupEntry(table, i);
    PutAt(table, i, table[i].1 + [x]);
  }

  /** The first round's four ratings, each with weight 1, one lemma per rating. */
  lemma TestFirstStep1()
    ensures AddWeightedRating([], "a", 4, 1.0, {}) == [("a", [4.0])]
  {
    var empty: Candidates := [];
    NewColumn(empty, "a", 4, 1.0, {}, 4.0);
    assert empty + [("a", [4.0])] == [("a", [4.0])];
  }

  lemma TestFirstStep2()
    ensures AddWeightedRating([("a", [4.0])], "b", 1, 1.0, {}) == [("a", [4.0]), ("b", [1.0])]
  {
    var t1: Candidates := [("a", [4.0])];
    assert Keys(t1) == ["a"];
    NewColumn(t1, "b", 1, 1.0, {}, 1.0);
  }

  lemma TestFirstStep3()
    ensures AddWeightedRating([("a", [4.0]), ("b", [1.0])], "a", 1, 1.0, {}) == [("a", [4.0, 1.0]), ("b", [1.0])]
  {
    var t2: Candidates := [("a", [4.0]), ("b", [1.0])];
    ExtendColumn(t2, 0, 1, 1.0, {}, 1.0);
    assert t2[0].1 + [1.0] == [4.0, 1.0];
    assert t2[0 := ("a", [4.0, 1.0])] == [("a", [4.0, 1.0]), ("b", [1.0])];
  }

  lemma TestFirstStep4()
    ensures AddWeightedRating([("a", [4.0, 1.0]), ("b", [1.0])], "b", 2, 1.0, {})
            == [("a", [4.0, 1.0]), ("b", [1.0, 2.0])]
  {
    var t3: Candidates := [("a", [4.0, 1.0]), ("b", [1.0])];
    ExtendColumn(t3, 1, 2, 1.0, {}, 2.0);
    assert t3[1].1 + [2.0] == [1.0, 2.0];
    assert t3[1 := ("b", [1.0, 2.0])] == [("a", [4.0, 1.0]), ("b", [1.0, 2.0])];
  }

  /** First round's table: every weight is 1, so the columns hold the plain ratings. */
  lemma TestFirstTable(weights: map<string, real>)
    requires WeightOf(weights, "v1") == 1.0 && WeightOf(weights, "v2") == 1.0
    ensures CandidateTable(TestVotes, weights, {}) == [("a", [4.0, 1.0]), ("b", [1.0, 2.0])]
  {
    TwoVoteTable(weights, {});
    TestFirstStep1();
    TestFirstStep2();
    TestFirstStep3();
    TestFirstStep4();
  }

  lemma TestFirstMeans()
    ensures Mean([4.0, 1.0]) == 2.5 && Mean([1.0, 2.0]) == 1.5
  {
    assert Sum([4.0, 1.0]) == 5.0 by {
      assert [4.0, 1.0][1..] == [1.0] && [1.0][1..] == [];
    }
    assert Sum([1.0, 2.0]) == 3.0 by {
      assert [1.0, 2.0][1..] == [2.0] && [2.0][1..] == [];
    }
  }

  /** First round: a has mean (4 + 1) / 2, b (1 + 2) / 2. */
  lemma TestFirstRound()
    ensures WeightsDefined(5, {}, TestVotes) && RoundWinner(5, {}, TestVotes) == Some(RangeWinner("a", 2.5))
  {
    TestBallotWeights();
    TestFirstTable(BallotWeights(5, {}, TestVotes));
    TestFirstScan();
  }

  /** a's mean 2.5 beats b's 1.5. */
  lemma TestFirstScan()
    ensures ScanFrom([("a", [4.0, 1.0]), ("b", [1.0, 2.0])], ("", 0.0)) == ("a", 2.5)
  {
    TestFirstMeans();
    var table: Candidates := [("a", [4.0, 1.0]), ("b", [1.0, 2.0])];
    assert table[1..] == [("b", [1.0, 2.0])] && table[1..][1..] == [];
  }

  /** Second round's table: a is skipped, b's column holds 1 * 5/9 and 2 * 5/6. */
  lemma TestSecondTable(weights: map<string, real>)
    requires WeightOf(weights, "v1") == 5.0 / 9.0 && WeightOf(weights, "v2") == 5.0 / 6.0
    ensures CandidateTable(TestVotes, weights, {"a"}) == [("b", [5.0 / 9.0, 5.0 / 3.0])]
  {
    TwoVoteTable(weights, {"a"});
    var empty: Candidates := [];
    var t1: Candidates := [("b", [5.0 / 9.0])];
    assert AddWeightedRating(empty, "b", 1, 5.0 / 9.0, {"a"}) == t1 by {
      NewColumn(empty, "b", 1, 5.0 / 9.0, {"a"}, 5.0 / 9.0);
      assert empty + [("b", [5.0 / 9.0])] == t1;
    }
    assert AddWeightedRating(t1, "b", 2, 5.0 / 6.0, {"a"}) == [("b", [5.0 / 9.0, 5.0 / 3.0])] by {
      ExtendColumn(t1, 0, 2, 5.0 / 6.0, {"a"}, 5.0 / 3.0);
      assert t1[0].1 + [5.0 / 3.0] == [5.0 / 9.0, 5.0 / 3.0];
      assert t1[0 := ("b", [5.0 / 9.0, 5.0 / 3.0])] == [("b", [5.0 / 9.0, 5.0 / 3.0])];
    }
  }

  lemma TestSecondMean()
    ensures Mean([5.0 / 9.0, 5.0 / 3.0]) == 10.0 / 9.0
  {
    assert Sum([5.0 / 9.0, 5.0 / 3.0]) == 20.0 / 9.0 by {
      assert [5.0 / 9.0, 5.0 / 3.0][1..] == [5.0 / 3.0] && [5.0 / 3.0][1..] == [];
    }
  }

  /** Second round: only b is left, with mean (1 * 5/9 + 2 * 5/6) / 2 = 10/9. */
  lemma TestSecondRound()
    ensures WeightsDefined(5, {"a"}, TestVotes) && RoundWinner(5, {"a"}, TestVotes) == Some(RangeWinner("b", 10.0 / 9.0))
  {
    TestBallotWeights();
    TestSecondTable(BallotWeights(5, {"a"}, TestVotes));
    TestSecondMean();
    var table: Candidates := [("b", [5.0 / 9.0, 5.0 / 3.0])];
    assert table[1..] == [];
    assert ScanFrom(table, ("", 0.0)) == ("b", 10.0 / 9.0);
  }

  /** Third round: every rated option is elected, so there is no candidate. */
  lemma TestThirdRound()
    ensures WeightsDefined(5, {"a", "b"}, TestVotes) && RoundWinner(5, {"a", "b"}, TestVotes) == None
  {
    WellScaledWeightsDefined(5, {"a", "b"}, TestVotes);
    RoundWinnerNone(5, {"a", "b"}, TestVotes);
  }

  /** The test votes are on a positive scale, with no negative rating and no option rated twice. */
  lemma TestVotesWellScaled()
    ensures WellScaled(5, TestVotes) && RatingsAreMaps(TestVotes)
  {
    assert DistinctKeys(TestVotes[0].ratings) && DistinctKeys(TestVotes[1].ratings);
  }

  /** The winners the repository's test expects, in election order. */
  const WinnerA := RangeWinner("a", 2.5)
  const WinnerB := RangeWinner("b", 10.0 / 9.0)

  /** The loop from no winner: the first round elects a. */
  lemma TestLoopFromNone()
    ensures WellScaled(5, TestVotes) && RatingsAreMaps(TestVotes)
    ensures WinnersFrom(5, 3, TestVotes, []) == WinnersFrom(5, 3, TestVotes, [WinnerA])
  {
    TestVotesWellScaled();
    var none: seq<RangeWinner> := [];
    assert WinnerOptions(none) == {};
    TestFirstRound();
    WinnersFromNext(5, 3, TestVotes, none, WinnerA);
    assert none + [WinnerA] == [WinnerA];
  }

  /** The loop from a: the second round elects b. */
  lemma TestLoopFromOne()
    ensures WellScaled(5, TestVotes) && RatingsAreMaps(TestVotes)
    ensures WinnersFrom(5, 3, TestVotes, [WinnerA]) == WinnersFrom(5, 3, TestVotes, [WinnerA, WinnerB])
  {
    TestVotesWellScaled();
    var one := [WinnerA];
    assert WinnerOptions(one) == {"a"} by {
      assert one[..0] == [];
    }
    TestSecondRound();
    WinnersFromNext(5, 3, TestVotes, one, WinnerB);
    assert one + [WinnerB] == [WinnerA, WinnerB];
  }

  /** The loop from a and b: the third round finds nothing and the loop stops. */
  lemma TestLoopFromTwo()
    ensures WellScaled(5, TestVotes) && RatingsAreMaps(TestVotes)
    ensures WinnersFrom(5, 3, TestVotes, [WinnerA, WinnerB]) == [WinnerA, WinnerB]
  {
    TestVotesWellScaled();
    var two := [WinnerA, WinnerB];
    assert WinnerA.option == "a" && WinnerB.option == "b";
    assert WinnerOptions(two) == {"a", "b"} by {
      var one := two[..1];
      assert one == [WinnerA];
      assert WinnerOptions(one) == {"a"} by {
        assert one[..0] == [];
      }
    }
    TestThirdRound();
    WinnersFromStop(5, 3, TestVotes, two);
  }

  /** a is elected with mean 2.5, then b with 10/9; c, which nobody rated, never is. */
  lemma TestRangeWinners()
    ensures WellScaled(5, TestVotes) && RatingsAreMaps(TestVotes)
    ensures RangeWinners(TestQuestion, TestVotes) == [RangeWinner("a", 2.5), RangeWinner("b", 10.0 / 9.0)]
  {
    TestLoopFromNone();
    TestLoopFromOne();
    TestLoopFromTwo();
  }

  /**
   * With only a negative rating, the round reports the empty option with mean 0, and does so
   * again once that option counts as elected: the winner set stops growing, so the winner loop
   * of the source would not end.
   */
  lemma NegativeRatingStalls()
    ensures var votes := [RangeVote("v1", "b1", "q1", [("a", -1)])];
            && WeightsDefined(5, {}, votes) && RoundWinner(5, {}, votes) == Some(RangeWinner("", 0.0))
            && WeightsDefined(5, {""}, votes) && RoundWinner(5, {""}, votes) == Some(RangeWinner("", 0.0))
  {
    var votes := [RangeVote("v1", "b1", "q1", [("a", -1)])];
    assert WinnerRatingSum(votes[0].ratings, {}) == 0;
    assert BallotWeights(5, {}, votes) == map["v1" := 1.0];
    assert WinnerRatingSum(votes[0].ratings, {""}) == 0;
    assert BallotWeights(5, {""}, votes) == map["v1" := 1.0];
    var empty: Candidates := [];
    var none: seq<real> := [];
    assert GetOr(empty, "a", none) == none;
    assert none + [(-1) as real * 1.0] == [-1.0];
    assert Put(empty, "a", [-1.0]) == [("a", [-1.0])];
    assert AddWeightedRating(empty, "a", -1, 1.0, {}) == [("a", [-1.0])];
    assert votes[0].ratings[1..] == [];
    assert CandidateTable(votes, BallotWeights(5, {}, votes), {}) == [("a", [-1.0])];
    assert CandidateTable(votes, BallotWeights(5, {""}, votes), {""}) == [("a", [-1.0])];
    assert Mean([-1.0]) == -1.0;
  }
}
