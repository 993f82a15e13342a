/**
 * The ballot tally, `toBallotResult` (data.kt:34-59): free-text answers are collected per
 * question in ballot order, and each range question that received range votes gets its list of
 * winners; a rating that is not an integer aborts the whole tally.
 */
module BallotResults {
  import opened Wrappers
  import opened AssocLists
  import opened VoteData
  import opened Grouping
  import opened Weights
  import opened Selection
  import opened Winners

  /** Free-text answers are stored under `question_<question id>`. */
  const QuestionPrefix := "question_"

  // ---------------------------------------------------------------------------------------------
  // Specification

  /** The answer one vote gives under `key`: none when it has no such key. */
  function AnswerOf(vote: Vote, key: string): seq<string>
  {
    var found := Lookup(vote.answers, key);
    if found.Some? then [found.value] else []
  }

  /** The answers `votes` hold under `key`, in vote order (data.kt:41-47). */
  function AnswersUnder(votes: seq<Vote>, key: string): seq<string>
  {
    if votes == [] then [] else AnswersUnder(votes[..|votes| - 1], key) + AnswerOf(votes[|votes| - 1], key)
  }

  /** The free-text results, one per question in ballot order (data.kt:39-49). */
  function QuestionResults(questions: seq<Question>, votes: seq<Vote>): seq<QuestionResult>
  {
    if questions == [] then []
    else
      var question := questions[|questions| - 1];
      QuestionResults(questions[..|questions| - 1], votes)
        + [QuestionResult(question.question, AnswersUnder(votes, QuestionPrefix + question.id))]
  }

  /** Every list a range question is tallied from is well scaled for it and rates each option at most once. */
  predicate Tallyable(rangeQuestions: seq<RangeQuestion>, grouped: map<string, seq<RangeVote>>)
  {
    forall k :: 0 <= k < |rangeQuestions| && rangeQuestions[k].id in grouped ==>
      WellScaled(rangeQuestions[k].maxRating, grouped[rangeQuestions[k].id])
      && RatingsAreMaps(grouped[rangeQuestions[k].id])
  }

  /** The range results: the range questions that have range votes, in ballot order, with their winners (data.kt:51-56). */
  function RangeResults(rangeQuestions: seq<RangeQuestion>, grouped: map<string, seq<RangeVote>>)
    : seq<RangeQuestionResult>
    requires Tallyable(rangeQuestions, grouped)
  {
    if rangeQuestions == [] then []
    else
      var init := rangeQuestions[..|rangeQuestions| - 1];
      var question := rangeQuestions[|rangeQuestions| - 1];
      assert forall k :: 0 <= k < |init| ==> init[k] == rangeQuestions[k];
      RangeResults(init, grouped)
        + if question.id in grouped then [RangeQuestionResult(question, RangeWinners(question, grouped[question.id]))]
          else []
  }

  /** Every range question is rated on a positive scale. */
  predicate PositiveScales(ballot: Ballot)
  {
    forall k :: 0 <= k < |ballot.rangeQuestions| ==> ballot.rangeQuestions[k].maxRating > 0
  }

  /** No vote gives a negative rating. */
  predicate NoNegativeRatings(votes: seq<Vote>)
  {
    forall i :: 0 <= i < |votes| ==> AnswersNonNegative(votes[i].answers)
  }

  /** `toBallotResult(ballot, votes)`, with the exception of `Integer.parseInt` as a Failure. */
  function TallyBallot(ballot: Ballot, votes: seq<Vote>): Result<BallotResult, TallyError>
    requires PositiveScales(ballot) && NoNegativeRatings(votes)
  {
    match GroupedRangeVotes(votes)
    case Failure(e) => Failure(e)
    case Success(grouped) =>
      GroupedTallyable(ballot, votes, grouped);
      Success(BallotResult(ballot, QuestionResults(ballot.questions, votes), RangeResults(ballot.rangeQuestions, grouped)))
  }

  // ---------------------------------------------------------------------------------------------
  // The source's loops

  method ToBallotResult(ballot: Ballot, votes: seq<Vote>) returns (r: Result<BallotResult, TallyError>)
    requires PositiveScales(ballot) && NoNegativeRatings(votes)
    ensures r == TallyBallot(ballot, votes)
  {
    var grouping := ToRangeVotesByQuestionId(votes);
    if grouping.Failure? {
      return Failure(grouping.error);
    }
    var rangeVotesByQuestionId := grouping.value;
    GroupedTallyable(ballot, votes, rangeVotesByQuestionId);
    var questions := ToQuestionResults(ballot.questions, votes);
    var rangeQuestions := ToRangeQuestionResults(ballot.rangeQuestions, rangeVotesByQuestionId);
    return Success(BallotResult(ballot, questions, rangeQuestions));
  }

  /** The free-text loop of `toBallotResult` (data.kt:39-49). */
  method ToQuestionResults(ballotQuestions: seq<Question>, votes: seq<Vote>) returns (questions: seq<QuestionResult>)
    ensures questions == QuestionResults(ballotQuestions, votes)
  {
    questions := [];
    for qi := 0 to |ballotQuestions|
      invariant questions == QuestionResults(ballotQuestions[..qi], votes)
    {
      var question := ballotQuestions[qi];
      var answers := CollectAnswers(votes, QuestionPrefix + question.id);
      assert ballotQuestions[..qi + 1][..qi] == ballotQuestions[..qi];
      questions := questions + [QuestionResult(question.question, answers)];
    }
    assert ballotQuestions[..|ballotQuestions|] == ballotQuestions;
  }

  /** The answers of one free-text question (data.kt:41-47). */
  method CollectAnswers(votes: seq<Vote>, key: string) returns (answers: seq<string>)
    ensures answers == AnswersUnder(votes, key)
  {
    answers := [];
    for vi := 0 to |votes|
      invariant answers == AnswersUnder(votes[..vi], key)
    {
      assert votes[..vi + 1][..vi] == votes[..vi];
      var v := Lookup(votes[vi].answers, key);
      if v.Some? {
        answers := answers + [v.value];
      }
    }
    assert votes[..|votes|] == votes;
  }

  /** The range-question loop of `toBallotResult` (data.kt:51-56). */
  method ToRangeQuestionResults(ballotRangeQuestions: seq<RangeQuestion>, rangeVotesByQuestionId: map<string, seq<RangeVote>>)
    returns (rangeQuestions: seq<RangeQuestionResult>)
    requires Tallyable(ballotRangeQuestions, rangeVotesByQuestionId)
    ensures rangeQuestions == RangeResults(ballotRangeQuestions, rangeVotesByQuestionId)
  {
    rangeQuestions := [];
    for qi := 0 to |ballotRangeQuestions|
      invariant Tallyable(ballotRangeQuestions[..qi], rangeVotesByQuestionId)
      invariant rangeQuestions == RangeResults(ballotRangeQuestions[..qi], rangeVotesByQuestionId)
    {
      var question := ballotRangeQuestions[qi];
      assert ballotRangeQuestions[..qi + 1][..qi] == ballotRangeQuestions[..qi];
      assert ballotRangeQuestions[..qi + 1][qi] == question;
      if question.id in rangeVotesByQuestionId {
        var rangeVotes := rangeVotesByQuestionId[question.id];
        var winners := ToRangeWinners(question, rangeVotes);
        rangeQuestions := rangeQuestions + [RangeQuestionResult(question, winners)];
      }
    }
    assert ballotRangeQuestions[..|ballotRangeQuestions|] == ballotRangeQuestions;
  }

  // ---------------------------------------------------------------------------------------------
  // The grouped votes can be tallied

  /** Each RangeVote rates an option at most once and never negatively. */
  predicate SoundRangeVotes(rangeVotes: seq<RangeVote>)
  {
    forall k :: 0 <= k < |rangeVotes| ==> DistinctKeys(rangeVotes[k].ratings) && NonNegativeRatings(rangeVotes[k].ratings)
  }

  /** Grouping only ever produces RangeVotes whose ratings come from one vote's table for that question. */
  lemma {:induction false} QuestionColumnSound(votes: seq<Vote>, q: string)
    requires AllRatingsParse(votes) && NoNegativeRatings(votes)
    ensures SoundRangeVotes(QuestionColumn(votes, q))
    decreases |votes|
  {
    if votes != [] {
      assert AllRatingsParse(votes[1..]) && NoNegativeRatings(votes[1..]) by {
        assert forall i :: 1 <= i < |votes| ==> votes[i] == votes[1..][i - 1];
      }
      QuestionColumnSound(votes[1..], q);
      RangeVoteOfSound(votes[0], q);
      SoundAppend(RangeVoteOf(votes[0], RatingsByQuestion(votes[0].answers).value, q), QuestionColumn(votes[1..], q));
    }
  }

  /** The RangeVote one vote contributes rates each option once and never negatively. */
  lemma RangeVoteOfSound(vote: Vote, q: string)
    requires RatingsParse(vote.answers) && AnswersNonNegative(vote.answers)
    ensures RatingsByQuestion(vote.answers).Success?
    ensures SoundRangeVotes(RangeVoteOf(vote, RatingsByQuestion(vote.answers).value, q))
  {
    RatingsByQuestionSucceeds(vote.answers, []);
    var t := RatingsByQuestion(vote.answers).value;
    RatingsByQuestionInvariants(vote.answers, []);
    LookupKeys(t, q);
    if Lookup(t, q).Some? {
      var ratings := Lookup(t, q).value;
      var i :| 0 <= i < |t| && t[i] == (q, ratings);
      assert DistinctKeys(ratings) && NonNegativeRatings(ratings);
    }
  }

  lemma SoundAppend(a: seq<RangeVote>, b: seq<RangeVote>)
    requires SoundRangeVotes(a) && SoundRangeVotes(b)
    ensures SoundRangeVotes(a + b)
  {
    var c := a + b;
    forall k | 0 <= k < |c| ensures DistinctKeys(c[k].ratings) && NonNegativeRatings(c[k].ratings) {
      if k >= |a| {
        assert c[k] == b[k - |a|];
      }
    }
  }

  /** Each range question's list is what grouping gives its id: the votes that rated it. */
  lemma GroupedLists(votes: seq<Vote>, grouped: map<string, seq<RangeVote>>, q: string)
    requires GroupedRangeVotes(votes) == Success(grouped)
    ensures AllRatingsParse(votes)
    ensures q in grouped <==> exists i :: 0 <= i < |votes| && RatesQuestion(votes[i].answers, q)
    ensures q in grouped ==> grouped[q] == QuestionColumn(votes, q)
  {
    GroupSucceeds(votes, map[]);
    GroupKeys(votes, map[], q);
    GroupColumn(votes, map[], q, grouped);
    assert VotesFor(map[], q) + QuestionColumn(votes, q) == QuestionColumn(votes, q);
  }

  lemma GroupedTallyable(ballot: Ballot, votes: seq<Vote>, grouped: map<string, seq<RangeVote>>)
    requires PositiveScales(ballot) && NoNegativeRatings(votes)
    requires GroupedRangeVotes(votes) == Success(grouped)
    ensures Tallyable(ballot.rangeQuestions, grouped)
    ensures forall n :: 0 <= n <= |ballot.rangeQuestions| ==> Tallyable(ballot.rangeQuestions[..n], grouped)
  {
    forall k | 0 <= k < |ballot.rangeQuestions| && ballot.rangeQuestions[k].id in grouped
      ensures WellScaled(ballot.rangeQuestions[k].maxRating, grouped[ballot.rangeQuestions[k].id])
      ensures RatingsAreMaps(grouped[ballot.rangeQuestions[k].id])
    {
      var q := ballot.rangeQuestions[k].id;
      GroupedLists(votes, grouped, q);
      QuestionColumnSound(votes, q);
    }
  }

  // ---------------------------------------------------------------------------------------------
  // Properties

  /** The tally fails exactly when grouping does, with grouping's error: some range answer is no integer. */
  lemma TallyFailure(ballot: Ballot, votes: seq<Vote>)
    requires PositiveScales(ballot) && NoNegativeRatings(votes)
    ensures TallyBallot(ballot, votes).Failure? <==> !AllRatingsParse(votes)
    ensures TallyBallot(ballot, votes).Failure? ==> TallyBallot(ballot, votes).error == GroupedRangeVotes(votes).error
  {
    GroupSucceeds(votes, map[]);
  }

  /** Answers are gathered vote by vote: the answers of two runs of votes are the two lists joined. */
  lemma {:induction false} AnswersUnderAppend(a: seq<Vote>, b: seq<Vote>, key: string)
    ensures AnswersUnder(a + b, key) == AnswersUnder(a, key) + AnswersUnder(b, key)
    decreases |b|
  {
    if b == [] {
      assert a + b == a;
    } else {
      var b' := b[..|b| - 1];
      assert (a + b)[..|a + b| - 1] == a + b';
      AnswersUnderAppend(a, b', key);
      assert AnswersUnder(a, key) + AnswersUnder(b', key) + AnswerOf(b[|b| - 1], key)
             == AnswersUnder(a, key) + (AnswersUnder(b', key) + AnswerOf(b[|b| - 1], key));
    }
  }

  lemma AnswerOfMembers(vote: Vote, key: string)
    ensures forall s :: s in AnswerOf(vote, key) <==> Lookup(vote.answers, key) == Some(s)
    ensures |AnswerOf(vote, key)| == if Lookup(vote.answers, key).Some? then 1 else 0
  {
  }

  /** Every answer a vote holds under the key is collected. */
  lemma {:induction false} AnswersUnderComplete(votes: seq<Vote>, key: string, i: nat)
    requires i < |votes| && Lookup(votes[i].answers, key).Some?
    ensures Lookup(votes[i].answers, key).value in AnswersUnder(votes, key)
    decreases |votes|
  {
    var init := votes[..|votes| - 1];
    var last := votes[|votes| - 1];
    var answers := AnswersUnder(votes, key);
    assert answers == AnswersUnder(init, key) + AnswerOf(last, key);
    if i < |init| {
      assert init[i] == votes[i];
      AnswersUnderComplete(init, key, i);
    } else {
      assert AnswerOf(last, key) == [Lookup(votes[i].answers, key).value];
      assert answers[|answers| - 1] == Lookup(votes[i].answers, key).value;
    }
  }

  /** Nothing is collected that no vote holds under the key. */
  lemma {:induction false} AnswersUnderSound(votes: seq<Vote>, key: string, s: string)
    requires s in AnswersUnder(votes, key)
    ensures exists i :: 0 <= i < |votes| && Lookup(votes[i].answers, key) == Some(s)
    decreases |votes|
  {
    var init := votes[..|votes| - 1];
    var last := votes[|votes| - 1];
    AnswerOfMembers(last, key);
    assert AnswersUnder(votes, key) == AnswersUnder(init, key) + AnswerOf(last, key);
    if s in AnswersUnder(init, key) {
      AnswersUnderSound(init, key, s);
      var i :| 0 <= i < |init| && Lookup(init[i].answers, key) == Some(s);
      assert init[i] == votes[i];
    } else {
      assert Lookup(votes[|votes| - 1].answers, key) == Some(s);
    }
  }

  /** One answer per vote holding the key: all votes contribute exactly when every vote answered. */
  lemma {:induction false} AnswersUnderCount(votes: seq<Vote>, key: string)
    ensures |AnswersUnder(votes, key)| <= |votes|
    ensures |AnswersUnder(votes, key)| == |votes|
            <==> forall i :: 0 <= i < |votes| ==> Lookup(votes[i].answers, key).Some?
    decreases |votes|
  {
    if votes != [] {
      var init := votes[..|votes| - 1];
      var last := votes[|votes| - 1];
      AnswersUnderCount(init, key);
      assert |AnswersUnder(votes, key)| == |AnswersUnder(init, key)| + |AnswerOf(last, key)|;
      if Lookup(last.answers, key).None? {
        assert |AnswerOf(last, key)| == 0;
        assert !Lookup(votes[|votes| - 1].answers, key).Some?;
      } else {
        assert |AnswerOf(last, key)| == 1;
        assert (forall i :: 0 <= i < |votes| ==> Lookup(votes[i].answers, key).Some?)
               <==> (forall i :: 0 <= i < |init| ==> Lookup(init[i].answers, key).Some?) by {
          assert forall i :: 0 <= i < |init| ==> init[i] == votes[i];
        }
      }
    }
  }

  /** The free-text results follow the ballot's questions one for one, each with that question's answers. */
  lemma {:induction false} QuestionResultsSpec(questions: seq<Question>, votes: seq<Vote>)
    ensures |QuestionResults(questions, votes)| == |questions|
    ensures forall k :: 0 <= k < |questions| ==>
              QuestionResults(questions, votes)[k]
              == QuestionResult(questions[k].question, AnswersUnder(votes, QuestionPrefix + questions[k].id))
    decreases |questions|
  {
    if questions != [] {
      var init := questions[..|questions| - 1];
      QuestionResultsSpec(init, votes);
      assert forall k :: 0 <= k < |init| ==> init[k] == questions[k];
    }
  }

  /** The last range question adds its result, if it has range votes, after those of the others. */
  lemma RangeResultsLast(rangeQuestions: seq<RangeQuestion>, grouped: map<string, seq<RangeVote>>)
    requires rangeQuestions != [] && Tallyable(rangeQuestions, grouped)
    ensures var init := rangeQuestions[..|rangeQuestions| - 1];
            var question := rangeQuestions[|rangeQuestions| - 1];
            && rangeQuestions == init + [question]
            && Tallyable(init, grouped)
            && (question.id in grouped ==>
                  WellScaled(question.maxRating, grouped[question.id]) && RatingsAreMaps(grouped[question.id]))
            && RangeResults(rangeQuestions, grouped)
               == RangeResults(init, grouped)
                  + if question.id in grouped then [RangeQuestionResult(question, RangeWinners(question, grouped[question.id]))]
                    else []
  {
    var init := rangeQuestions[..|rangeQuestions| - 1];
    assert forall k :: 0 <= k < |init| ==> init[k] == rangeQuestions[k];
  }

  /** The range results list, in ballot order, exactly the range questions with a list of range votes. */
  lemma {:induction false} RangeResultsMembers(rangeQuestions: seq<RangeQuestion>, grouped: map<string, seq<RangeVote>>)
    requires Tallyable(rangeQuestions, grouped)
    ensures var r := RangeResults(rangeQuestions, grouped);
            && |r| <= |rangeQuestions|
            && forall question :: question in rangeQuestions && question.id in grouped
                                  <==> exists k :: 0 <= k < |r| && r[k].question == question
    decreases |rangeQuestions|
  {
    if rangeQuestions != [] {
      var init := rangeQuestions[..|rangeQuestions| - 1];
      var question := rangeQuestions[|rangeQuestions| - 1];
      RangeResultsLast(rangeQuestions, grouped);
      RangeResultsMembers(init, grouped);
      var r0 := RangeResults(init, grouped);
      var r := RangeResults(rangeQuestions, grouped);
      forall q ensures q in rangeQuestions && q.id in grouped <==> exists k :: 0 <= k < |r| && r[k].question == q {
        assert q in rangeQuestions <==> q in init || q == question;
        if q == question && q.id in grouped {
          assert r[|r0|].question == q;
        }
        if q in init && q.id in grouped {
          var k :| 0 <= k < |r0| && r0[k].question == q;
          assert r[k].question == q;
        }
        if exists k :: 0 <= k < |r| && r[k].question == q {
          var k :| 0 <= k < |r| && r[k].question == q;
          if k < |r0| {
            assert r0[k].question == q;
          }
        }
      }
    }
  }

  /** The positions `idx` lists are strictly increasing. */
  predicate Increasing(idx: seq<nat>)
  {
    forall a, b :: 0 <= a < b < |idx| ==> idx[a] < idx[b]
  }

  /** Listing one more position, past every listed one, keeps the list increasing and adds just that position. */
  lemma IncreasingAppend(idx: seq<nat>, n: nat)
    requires Increasing(idx) && forall k :: 0 <= k < |idx| ==> idx[k] < n
    ensures Increasing(idx + [n]) && n !in idx
    ensures forall i :: i in idx + [n] <==> i in idx || i == n
  {
  }

  /**
   * The range results follow the ballot: result k is for the range question at position idx[k],
   * the positions increase, and a position is listed exactly when its question has range votes.
   */
  lemma {:induction false} RangeResultsIndices(rangeQuestions: seq<RangeQuestion>, grouped: map<string, seq<RangeVote>>)
    returns (idx: seq<nat>)
    requires Tallyable(rangeQuestions, grouped)
    ensures var r := RangeResults(rangeQuestions, grouped);
            && |idx| == |r|
            && Increasing(idx)
            && (forall k :: 0 <= k < |r| ==> idx[k] < |rangeQuestions| && r[k].question == rangeQuestions[idx[k]])
            && (forall i :: 0 <= i < |rangeQuestions| ==> (i in idx <==> rangeQuestions[i].id in grouped))
    decreases |rangeQuestions|
  {
    if rangeQuestions == [] {
      idx := [];
    } else {
      var n := |rangeQuestions| - 1;
      var init := rangeQuestions[..n];
      var question := rangeQuestions[n];
      RangeResultsLast(rangeQuestions, grouped);
      var idx0 := RangeResultsIndices(init, grouped);
      var r0 := RangeResults(init, grouped);
      var r := RangeResults(rangeQuestions, grouped);
      if question.id in grouped {
        IncreasingAppend(idx0, n);
        idx := idx0 + [n];
      } else {
        idx := idx0;
      }
      forall k | 0 <= k < |r|
        ensures idx[k] < |rangeQuestions| && r[k].question == rangeQuestions[idx[k]]
      {
        if k < |r0| {
          assert r[k] == r0[k] && idx[k] == idx0[k];
        }
      }
      forall i | 0 <= i < |rangeQuestions|
        ensures i in idx <==> rangeQuestions[i].id in grouped
      {
        if i < n {
          assert init[i] == rangeQuestions[i];
          assert i in idx <==> i in idx0;
        } else {
          assert n !in idx0;
        }
      }
    }
  }

  /** Each range result holds the winners tallied from its question's list of range votes. */
  lemma {:induction false} RangeResultsEntries(rangeQuestions: seq<RangeQuestion>, grouped: map<string, seq<RangeVote>>)
    requires Tallyable(rangeQuestions, grouped)
    ensures var r := RangeResults(rangeQuestions, grouped);
            forall k :: 0 <= k < |r| ==>
              r[k].question.id in grouped
              && WellScaled(r[k].question.maxRating, grouped[r[k].question.id])
              && RatingsAreMaps(grouped[r[k].question.id])
              && r[k].winners == RangeWinners(r[k].question, grouped[r[k].question.id])
    decreases |rangeQuestions|
  {
    if rangeQuestions != [] {
      var init := rangeQuestions[..|rangeQuestions| - 1];
      RangeResultsLast(rangeQuestions, grouped);
      RangeResultsEntries(init, grouped);
      var r0 := RangeResults(init, grouped);
      var r := RangeResults(rangeQuestions, grouped);
      assert forall k :: 0 <= k < |r0| ==> r[k] == r0[k];
    }
  }

  /** A tally whose ratings all parse succeeds with the free-text and range results of the grouped votes. */
  lemma TallyBallotValue(ballot: Ballot, votes: seq<Vote>)
    requires PositiveScales(ballot) && NoNegativeRatings(votes) && AllRatingsParse(votes)
    ensures GroupedRangeVotes(votes).Success?
    ensures Tallyable(ballot.rangeQuestions, GroupedRangeVotes(votes).value)
    ensures TallyBallot(ballot, votes)
            == Success(BallotResult(ballot, QuestionResults(ballot.questions, votes),
                                    RangeResults(ballot.rangeQuestions, GroupedRangeVotes(votes).value)))
  {
    GroupSucceeds(votes, map[]);
    GroupedTallyable(ballot, votes, GroupedRangeVotes(votes).value);
  }

  /** The free-text results: one per ballot question, in ballot order, each with the answers under its key. */
  lemma TallyQuestions(ballot: Ballot, votes: seq<Vote>)
    requires PositiveScales(ballot) && NoNegativeRatings(votes) && AllRatingsParse(votes)
    ensures TallyBallot(ballot, votes).Success?
    ensures var result := TallyBallot(ballot, votes).value;
            && result.ballot == ballot
            && |result.questions| == |ballot.questions|
            && forall k :: 0 <= k < |ballot.questions| ==>
                 result.questions[k]
                 == QuestionResult(ballot.questions[k].question,
                                   AnswersUnder(votes, QuestionPrefix + ballot.questions[k].id))
  {
    TallyBallotValue(ballot, votes);
    QuestionResultsSpec(ballot.questions, votes);
  }

  /** A range question gets a result exactly when some vote rated it; a question nobody rated is left out. */
  lemma TallyRangeQuestions(ballot: Ballot, votes: seq<Vote>, question: RangeQuestion)
    requires PositiveScales(ballot) && NoNegativeRatings(votes) && AllRatingsParse(votes)
    ensures TallyBallot(ballot, votes).Success?
    ensures var results := TallyBallot(ballot, votes).value.rangeQuestions;
            (question in ballot.rangeQuestions
             && exists i :: 0 <= i < |votes| && RatesQuestion(votes[i].answers, question.id))
            <==> exists k :: 0 <= k < |results| && results[k].question == question
  {
    TallyBallotValue(ballot, votes);
    var grouped := GroupedRangeVotes(votes).value;
    RangeResultsMembers(ballot.rangeQuestions, grouped);
    GroupedLists(votes, grouped, question.id);
  }

  /**
   * The range results come in ballot order, one for each position of a range question that some
   * vote rated and none for the others.
   */
  lemma TallyRangeOrder(ballot: Ballot, votes: seq<Vote>) returns (idx: seq<nat>)
    requires PositiveScales(ballot) && NoNegativeRatings(votes) && AllRatingsParse(votes)
    ensures TallyBallot(ballot, votes).Success?
    ensures var results := TallyBallot(ballot, votes).value.rangeQuestions;
            var questions := ballot.rangeQuestions;
            && |idx| == |results|
            && Increasing(idx)
            && (forall k :: 0 <= k < |results| ==> idx[k] < |questions| && results[k].question == questions[idx[k]])
            && (forall i :: 0 <= i < |questions| ==>
                  (i in idx <==> exists v :: 0 <= v < |votes| && RatesQuestion(votes[v].answers, questions[i].id)))
  {
    TallyBallotValue(ballot, votes);
    var grouped := GroupedRangeVotes(votes).value;
    idx := RangeResultsIndices(ballot.rangeQuestions, grouped);
    forall i | 0 <= i < |ballot.rangeQuestions|
      ensures ballot.rangeQuestions[i].id in grouped
              <==> exists v :: 0 <= v < |votes| && RatesQuestion(votes[v].answers, ballot.rangeQuestions[i].id)
    {
      GroupedLists(votes, grouped, ballot.rangeQuestions[i].id);
    }
  }

  /** The winners of a range question are tallied from the votes that rated it, in vote order. */
  lemma TallyRangeWinners(ballot: Ballot, votes: seq<Vote>, k: nat)
    requires PositiveScales(ballot) && NoNegativeRatings(votes) && AllRatingsParse(votes)
    requires TallyBallot(ballot, votes).Success? && k < |TallyBallot(ballot, votes).value.rangeQuestions|
    ensures var result := TallyBallot(ballot, votes).value.rangeQuestions[k];
            && WellScaled(result.question.maxRating, QuestionColumn(votes, result.question.id))
            && RatingsAreMaps(QuestionColumn(votes, result.question.id))
            && result.winners == RangeWinners(result.question, QuestionColumn(votes, result.question.id))
  {
    TallyBallotValue(ballot, votes);
    var grouped := GroupedRangeVotes(votes).value;
    RangeResultsEntries(ballot.rangeQuestions, grouped);
    GroupedLists(votes, grouped, TallyBallot(ballot, votes).value.rangeQuestions[k].question.id);
  }
}
