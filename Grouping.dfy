/**
 * Vote grouping, `toRangeVotesByQuestionId` (data.kt:61-83): each vote's range answers are
 * parsed and grouped by question id, and every vote that rated a question contributes one
 * RangeVote to that question's list, in vote order.
 */
module Grouping {
  import opened Wrappers
  import opened AssocLists
  import opened VoteData
  import opened RangeKeys

  /** One vote's ratings by question: question id to (option to rating). */
  type QuestionRatings = AList<AList<int>>

  // ---------------------------------------------------------------------------------------------
  // Specification

  /** One iteration of the answer loop (data.kt:66-74). */
  function AddAnswer(table: QuestionRatings, answer: (string, string)): Result<QuestionRatings, TallyError>
  {
    match ParseRangeKey(answer.0)
    case None => Success(table)
    case Some((questionId, option)) =>
      match ParseInt(answer.1)
      case None => Failure(NumberFormat(answer.0, answer.1))
      case Some(rating) => Success(Put(table, questionId, Put(GetOr(table, questionId, []), option, rating)))
  }

  /** The answer loop run over `answers`, starting from `table`; the first bad rating aborts. */
  function RatingsByQuestionFrom(answers: AList<string>, table: QuestionRatings): Result<QuestionRatings, TallyError>
    decreases |answers|
  {
    if answers == [] then Success(table)
    else
      match AddAnswer(table, answers[0])
      case Failure(e) => Failure(e)
      case Success(table') => RatingsByQuestionFrom(answers[1..], table')
  }

  /** `ratingsByQuestionId` of one vote (data.kt:64-76). */
  function RatingsByQuestion(answers: AList<string>): Result<QuestionRatings, TallyError>
  {
    RatingsByQuestionFrom(answers, [])
  }

  /** `byQuestionId.get(questionId) ?: []`. */
  function VotesFor(byQuestionId: map<string, seq<RangeVote>>, questionId: string): seq<RangeVote>
  {
    if questionId in byQuestionId then byQuestionId[questionId] else []
  }

  /** The loop at data.kt:77-80: one RangeVote per question the vote rated. */
  function AddRangeVotes(byQuestionId: map<string, seq<RangeVote>>, vote: Vote, table: QuestionRatings)
    : map<string, seq<RangeVote>>
    decreases |table|
  {
    if table == [] then byQuestionId
    else
      var (questionId, ratings) := table[0];
      var byQuestionId' := byQuestionId[questionId := VotesFor(byQuestionId, questionId)
                                                      + [RangeVote(vote.id, vote.ballotId, questionId, ratings)]];
      AddRangeVotes(byQuestionId', vote, table[1..])
  }

  /** The vote loop run over `votes`, starting from `byQuestionId`. */
  function GroupFrom(votes: seq<Vote>, byQuestionId: map<string, seq<RangeVote>>)
    : Result<map<string, seq<RangeVote>>, TallyError>
    decreases |votes|
  {
    if votes == [] then Success(byQuestionId)
    else
      match RatingsByQuestion(votes[0].answers)
      case Failure(e) => Failure(e)
      case Success(table) => GroupFrom(votes[1..], AddRangeVotes(byQuestionId, votes[0], table))
  }

  /** `toRangeVotesByQuestionId(votes)`, with the parse exception as a Failure. */
  function GroupedRangeVotes(votes: seq<Vote>): Result<map<string, seq<RangeVote>>, TallyError>
  {
    GroupFrom(votes, map[])
  }

  // ---------------------------------------------------------------------------------------------
  // When grouping fails

  /** Every answer under a range key holds a valid integer. */
  predicate RatingsParse(answers: AList<string>)
  {
    forall j :: 0 <= j < |answers| && ParseRangeKey(answers[j].0).Some? ==> ParseInt(answers[j].1).Some?
  }

  predicate AllRatingsParse(votes: seq<Vote>)
  {
    forall i :: 0 <= i < |votes| ==> RatingsParse(votes[i].answers)
  }

  /** A vote's answers group without error exactly when every range answer is an integer. */
  lemma {:induction false} RatingsByQuestionSucceeds(answers: AList<string>, table: QuestionRatings)
    ensures RatingsByQuestionFrom(answers, table).Success? <==> RatingsParse(answers)
    decreases |answers|
  {
    if answers != [] {
      assert forall j :: 1 <= j < |answers| ==> answers[j] == answers[1..][j - 1];
      var step := AddAnswer(table, answers[0]);
      if step.Success? {
        RatingsByQuestionSucceeds(answers[1..], step.value);
      }
    }
  }

  /** The error reported for a vote is the first range answer that is not an integer. */
  lemma {:induction false} RatingsByQuestionFirstError(answers: AList<string>, table: QuestionRatings, j: nat)
    requires j < |answers| && ParseRangeKey(answers[j].0).Some? && ParseInt(answers[j].1).None?
    requires forall i :: 0 <= i < j && ParseRangeKey(answers[i].0).Some? ==> ParseInt(answers[i].1).Some?
    ensures RatingsByQuestionFrom(answers, table) == Failure(NumberFormat(answers[j].0, answers[j].1))
    decreases j
  {
    if j > 0 {
      RatingsByQuestionFirstError(answers[1..], AddAnswer(table, answers[0]).value, j - 1);
    }
  }

  /** Grouping succeeds exactly when every range answer of every vote is an integer. */
  lemma {:induction false} GroupSucceeds(votes: seq<Vote>, byQuestionId: map<string, seq<RangeVote>>)
    ensures GroupFrom(votes, byQuestionId).Success? <==> AllRatingsParse(votes)
    decreases |votes|
  {
    if votes != [] {
      RatingsByQuestionSucceeds(votes[0].answers, []);
      assert forall i :: 1 <= i < |votes| ==> votes[i] == votes[1..][i - 1];
      var step := RatingsByQuestion(votes[0].answers);
      if step.Success? {
        GroupSucceeds(votes[1..], AddRangeVotes(byQuestionId, votes[0], step.value));
      }
    }
  }

  /** When grouping fails, it reports the error of the first vote holding a bad rating. */
  lemma {:induction false} GroupFirstError(votes: seq<Vote>, byQuestionId: map<string, seq<RangeVote>>, i: nat)
    requires i < |votes| && !RatingsParse(votes[i].answers)
    requires forall k :: 0 <= k < i ==> RatingsParse(votes[k].answers)
    ensures RatingsByQuestion(votes[i].answers).Failure?
    ensures GroupFrom(votes, byQuestionId) == Failure(RatingsByQuestion(votes[i].answers).error)
    decreases i
  {
    RatingsByQuestionSucceeds(votes[i].answers, []);
    if i > 0 {
      RatingsByQuestionSucceeds(votes[0].answers, []);
      var table := RatingsByQuestion(votes[0].answers).value;
      GroupFirstError(votes[1..], AddRangeVotes(byQuestionId, votes[0], table), i - 1);
    }
  }

  // ---------------------------------------------------------------------------------------------
  // The shape of a vote's ratings table

  /** As the answer loop builds a table: no question or option twice, no empty entry. */
  predicate WellFormedTable(t: QuestionRatings)
  {
    DistinctKeys(t) && forall i :: 0 <= i < |t| ==> t[i].1 != [] && DistinctKeys(t[i].1)
  }

  /** Every rating in the table is at least 0. */
  predicate TableNonNegative(t: QuestionRatings)
  {
    forall i, j :: 0 <= i < |t| && 0 <= j < |t[i].1| ==> t[i].1[j].1 >= 0
  }

  /** Every integer given under a range key is at least 0. */
  predicate AnswersNonNegative(answers: AList<string>)
  {
    forall j :: 0 <= j < |answers| && ParseRangeKey(answers[j].0).Some? && ParseInt(answers[j].1).Some?
      ==> ParseInt(answers[j].1).value >= 0
  }

  /** Storing a non-empty list without repeated options keeps the table well formed. */
  lemma PutColumnWellFormed(t: QuestionRatings, q: string, inner: AList<int>)
    requires WellFormedTable(t) && inner != [] && DistinctKeys(inner)
    ensures WellFormedTable(Put(t, q, inner))
  {
    PutDistinct(t, q, inner);
    var r := Put(t, q, inner);
    forall i | 0 <= i < |r| ensures r[i].1 != [] && DistinctKeys(r[i].1) {
      PutEntries(t, q, inner, i);
    }
  }

  /** Storing a list without negative ratings keeps the table without negative ratings. */
  lemma PutColumnNonNegative(t: QuestionRatings, q: string, inner: AList<int>)
    requires TableNonNegative(t) && NonNegativeRatings(inner)
    ensures TableNonNegative(Put(t, q, inner))
  {
    var r := Put(t, q, inner);
    forall i | 0 <= i < |r| ensures NonNegativeRatings(r[i].1) {
      PutEntries(t, q, inner, i);
    }
  }

  /** Storing a rating of at least 0 keeps a list without negative ratings. */
  lemma PutRatingNonNegative(ratings: AList<int>, o: string, n: int)
    requires NonNegativeRatings(ratings) && n >= 0
    ensures NonNegativeRatings(Put(ratings, o, n))
  {
    var r := Put(ratings, o, n);
    forall j | 0 <= j < |r| ensures r[j].1 >= 0 {
      PutEntries(ratings, o, n, j);
    }
  }

  /** The list a table holds for q is one of its entries' lists, or empty. */
  lemma GetOrEntry(t: QuestionRatings, q: string)
    ensures GetOr(t, q, []) == [] || exists i :: 0 <= i < |t| && t[i].1 == GetOr(t, q, [])
  {
    LookupKeys(t, q);
    if Lookup(t, q).Some? {
      var i :| 0 <= i < |t| && t[i] == (q, Lookup(t, q).value);
    }
  }

  lemma AddAnswerInvariants(t: QuestionRatings, answer: (string, string))
    requires WellFormedTable(t) && AddAnswer(t, answer).Success?
    ensures WellFormedTable(AddAnswer(t, answer).value)
    ensures TableNonNegative(t) && AnswersNonNegative([answer]) ==> TableNonNegative(AddAnswer(t, answer).value)
  {
    if ParseRangeKey(answer.0).Some? {
      var (q, o) := ParseRangeKey(answer.0).value;
      var n := ParseInt(answer.1).value;
      var old_ := GetOr(t, q, []);
      GetOrEntry(t, q);
      PutDistinct(old_, o, n);
      var inner := Put(old_, o, n);
      assert o in Keys(inner);
      PutColumnWellFormed(t, q, inner);
      if TableNonNegative(t) && AnswersNonNegative([answer]) {
        assert [answer][0] == answer;
        assert NonNegativeRatings(old_);
        PutRatingNonNegative(old_, o, n);
        PutColumnNonNegative(t, q, inner);
      }
    }
  }

  lemma {:induction false} RatingsByQuestionInvariants(answers: AList<string>, t: QuestionRatings)
    requires WellFormedTable(t) && RatingsByQuestionFrom(answers, t).Success?
    ensures WellFormedTable(RatingsByQuestionFrom(answers, t).value)
    ensures TableNonNegative(t) && AnswersNonNegative(answers)
            ==> TableNonNegative(RatingsByQuestionFrom(answers, t).value)
    decreases |answers|
  {
    if answers != [] {
      AddAnswerInvariants(t, answers[0]);
      assert AnswersNonNegative(answers) ==> AnswersNonNegative([answers[0]]) && AnswersNonNegative(answers[1..]) by {
        assert [answers[0]][0] == answers[0];
        assert forall j :: 1 <= j < |answers| ==> answers[j] == answers[1..][j - 1];
      }
      RatingsByQuestionInvariants(answers[1..], AddAnswer(t, answers[0]).value);
    }
  }

  // ---------------------------------------------------------------------------------------------
  // What a vote's table says

  /** Some answer key names question q. */
  predicate RatesQuestion(answers: AList<string>, q: string)
  {
    exists j :: 0 <= j < |answers| && ParseRangeKey(answers[j].0).Some? && ParseRangeKey(answers[j].0).value.0 == q
  }

  /** A vote's table has an entry for q exactly when some answer key names q. */
  lemma {:induction false} RatingsByQuestionKeys(answers: AList<string>, t: QuestionRatings, q: string)
    requires RatingsByQuestionFrom(answers, t).Success?
    ensures q in Keys(RatingsByQuestionFrom(answers, t).value) <==> q in Keys(t) || RatesQuestion(answers, q)
    decreases |answers|
  {
    if answers != [] {
      var t' := AddAnswer(t, answers[0]).value;
      AddAnswerKeys(t, answers[0], q);
      RatingsByQuestionKeys(answers[1..], t', q);
      RatesQuestionCons(answers, q);
    }
  }

  /** One answer adds its question to the table's keys, if it names one. */
  lemma AddAnswerKeys(t: QuestionRatings, answer: (string, string), q: string)
    requires AddAnswer(t, answer).Success?
    ensures q in Keys(AddAnswer(t, answer).value)
            <==> q in Keys(t) || (ParseRangeKey(answer.0).Some? && ParseRangeKey(answer.0).value.0 == q)
  {
  }

  /** Answers name q exactly when the first does or one of the rest does. */
  lemma RatesQuestionCons(answers: AList<string>, q: string)
    requires answers != []
    ensures RatesQuestion(answers, q)
            <==> (ParseRangeKey(answers[0].0).Some? && ParseRangeKey(answers[0].0).value.0 == q)
                 || RatesQuestion(answers[1..], q)
  {
    if RatesQuestion(answers, q) {
      var j :| 0 <= j < |answers| && ParseRangeKey(answers[j].0).Some? && ParseRangeKey(answers[j].0).value.0 == q;
      if j > 0 {
        assert answers[1..][j - 1] == answers[j];
      }
    }
    if RatesQuestion(answers[1..], q) {
      var j :| 0 <= j < |answers[1..]| && ParseRangeKey(answers[1..][j].0).Some?
               && ParseRangeKey(answers[1..][j].0).value.0 == q;
      assert answers[j + 1] == answers[1..][j];
    }
  }

  /** The rating a table holds for option o of question q. */
  function RatingFor(t: QuestionRatings, q: string, o: string): Option<int>
  {
    Lookup(GetOr(t, q, []), o)
  }

  /** Answers that do not name (q, o) leave the rating for (q, o) as it was. */
  lemma {:induction false} RatingUntouched(answers: AList<string>, t: QuestionRatings, q: string, o: string)
    requires RatingsByQuestionFrom(answers, t).Success?
    requires forall j :: 0 <= j < |answers| ==> ParseRangeKey(answers[j].0) != Some((q, o))
    ensures RatingFor(RatingsByQuestionFrom(answers, t).value, q, o) == RatingFor(t, q, o)
    decreases |answers|
  {
    if answers != [] {
      assert forall j :: 1 <= j < |answers| ==> answers[j] == answers[1..][j - 1];
      AddAnswerUntouched(t, answers[0], q, o);
      RatingUntouched(answers[1..], AddAnswer(t, answers[0]).value, q, o);
    }
  }

  /** One answer that does not name (q, o) leaves the rating for (q, o) as it was. */
  lemma AddAnswerUntouched(t: QuestionRatings, answer: (string, string), q: string, o: string)
    requires AddAnswer(t, answer).Success? && ParseRangeKey(answer.0) != Some((q, o))
    ensures RatingFor(AddAnswer(t, answer).value, q, o) == RatingFor(t, q, o)
  {
    if ParseRangeKey(answer.0).Some? {
      var (q', o') := ParseRangeKey(answer.0).value;
      var n := ParseInt(answer.1).value;
      var inner := Put(GetOr(t, q', []), o', n);
      var r := Put(t, q', inner);
      assert AddAnswer(t, answer).value == r;
      if q' == q {
        assert GetOr(r, q, []) == inner;
      } else {
        assert Lookup(r, q) == Lookup(t, q);
      }
    }
  }

  /**
   * Decoding: in a form without repeated keys, the rating grouped for option o of question q
   * is the integer written under the key `range_<q>_<o>`.
   */
  lemma {:induction false} RatingOfAnswer(answers: AList<string>, t: QuestionRatings, j: nat, q: string, o: string)
    requires DistinctKeys(answers) && RatingsByQuestionFrom(answers, t).Success?
    requires j < |answers| && ParseRangeKey(answers[j].0) == Some((q, o))
    ensures RatingFor(RatingsByQuestionFrom(answers, t).value, q, o) == ParseInt(answers[j].1)
    decreases |answers|
  {
    RatingsByQuestionSucceeds(answers, t);
    var t' := AddAnswer(t, answers[0]).value;
    assert forall i :: 1 <= i < |answers| ==> answers[i] == answers[1..][i - 1];
    if j == 0 {
      ParseRangeKeyIff(answers[0].0, q, o);
      forall i | 0 <= i < |answers[1..]| ensures ParseRangeKey(answers[1..][i].0) != Some((q, o)) {
        ParseRangeKeyIff(answers[i + 1].0, q, o);
      }
      RatingUntouched(answers[1..], t', q, o);
    } else {
      RatingOfAnswer(answers[1..], t', j - 1, q, o);
    }
  }

  // ---------------------------------------------------------------------------------------------
  // What the grouped lists say

  /** The RangeVote a vote with ratings table t contributes to question q: one, or none if it did not rate q. */
  function RangeVoteOf(vote: Vote, t: QuestionRatings, q: string): seq<RangeVote>
  {
    match Lookup(t, q)
    case Some(ratings) => [RangeVote(vote.id, vote.ballotId, q, ratings)]
    case None => []
  }

  /**
   * The list grouping should produce for question q: for each vote in order that rated q, one
   * RangeVote with the vote's id and ballot id and its ratings for q.
   */
  function QuestionColumn(votes: seq<Vote>, q: string): (c: seq<RangeVote>)
    requires AllRatingsParse(votes)
    ensures |c| <= |votes|
    ensures forall k :: 0 <= k < |c| ==> c[k].questionId == q
    ensures c == [] <==> forall i :: 0 <= i < |votes| ==> !RatesQuestion(votes[i].answers, q)
    decreases |votes|
  {
    if votes == [] then []
    else
      RatingsByQuestionSucceeds(votes[0].answers, []);
      RatingsByQuestionKeys(votes[0].answers, [], q);
      LookupKeys(RatingsByQuestion(votes[0].answers).value, q);
      assert forall i :: 1 <= i < |votes| ==> votes[i] == votes[1..][i - 1];
      RangeVoteOf(votes[0], RatingsByQuestion(votes[0].answers).value, q) + QuestionColumn(votes[1..], q)
  }

  lemma {:induction false} AddRangeVotesColumn(byQuestionId: map<string, seq<RangeVote>>, vote: Vote,
                                               t: QuestionRatings, q: string)
    requires DistinctKeys(t)
    ensures VotesFor(AddRangeVotes(byQuestionId, vote, t), q) == VotesFor(byQuestionId, q) + RangeVoteOf(vote, t, q)
    ensures q in AddRangeVotes(byQuestionId, vote, t) <==> q in byQuestionId || q in Keys(t)
    decreases |t|
  {
    if t != [] {
      var (q0, ratings) := t[0];
      var m' := byQuestionId[q0 := VotesFor(byQuestionId, q0) + [RangeVote(vote.id, vote.ballotId, q0, ratings)]];
      assert DistinctKeys(t[1..]);
      assert Keys(t) == [q0] + Keys(t[1..]);
      if q0 == q {
        assert q !in Keys(t[1..]);
        LookupKeys(t[1..], q);
      }
      AddRangeVotesColumn(m', vote, t[1..], q);
    }
  }

  /** Grouping, question by question: the list grouped for q is QuestionColumn(votes, q). */
  lemma {:induction false} GroupColumn(votes: seq<Vote>, byQuestionId: map<string, seq<RangeVote>>, q: string,
                                       grouped: map<string, seq<RangeVote>>)
    requires AllRatingsParse(votes) && GroupFrom(votes, byQuestionId) == Success(grouped)
    ensures VotesFor(grouped, q) == VotesFor(byQuestionId, q) + QuestionColumn(votes, q)
    decreases |votes|
  {
    if votes == [] {
      assert VotesFor(byQuestionId, q) + [] == VotesFor(byQuestionId, q);
    } else {
      assert RatingsByQuestion(votes[0].answers).Success? by {
        RatingsByQuestionSucceeds(votes[0].answers, []);
      }
      var t := RatingsByQuestion(votes[0].answers).value;
      var m' := AddRangeVotes(byQuestionId, votes[0], t);
      assert VotesFor(m', q) == VotesFor(byQuestionId, q) + RangeVoteOf(votes[0], t, q) by {
        RatingsByQuestionInvariants(votes[0].answers, []);
        AddRangeVotesColumn(byQuestionId, votes[0], t, q);
      }
      assert AllRatingsParse(votes[1..]) by {
        assert forall i :: 1 <= i < |votes| ==> votes[i] == votes[1..][i - 1];
      }
      assert GroupFrom(votes[1..], m') == Success(grouped);
      assert QuestionColumn(votes, q) == RangeVoteOf(votes[0], t, q) + QuestionColumn(votes[1..], q);
      GroupColumn(votes[1..], m', q, grouped);
      ConcatAssoc(VotesFor(byQuestionId, q), RangeVoteOf(votes[0], t, q), QuestionColumn(votes[1..], q));
    }
  }

  /** Grouping gives question q a list exactly when some vote rated q. */
  lemma {:induction false} GroupKeys(votes: seq<Vote>, byQuestionId: map<string, seq<RangeVote>>, q: string)
    requires AllRatingsParse(votes)
    ensures GroupFrom(votes, byQuestionId).Success?
    ensures q in GroupFrom(votes, byQuestionId).value
            <==> q in byQuestionId || exists i :: 0 <= i < |votes| && RatesQuestion(votes[i].answers, q)
    decreases |votes|
  {
    GroupSucceeds(votes, byQuestionId);
    if votes != [] {
      RatingsByQuestionSucceeds(votes[0].answers, []);
      var t := RatingsByQuestion(votes[0].answers).value;
      var m' := AddRangeVotes(byQuestionId, votes[0], t);
      assert q in m' <==> q in byQuestionId || RatesQuestion(votes[0].answers, q) by {
        RatingsByQuestionInvariants(votes[0].answers, []);
        RatingsByQuestionKeys(votes[0].answers, [], q);
        AddRangeVotesColumn(byQuestionId, votes[0], t, q);
      }
      assert AllRatingsParse(votes[1..]) by {
        assert forall i :: 1 <= i < |votes| ==> votes[i] == votes[1..][i - 1];
      }
      GroupKeys(votes[1..], m', q);
      assert GroupFrom(votes, byQuestionId) == GroupFrom(votes[1..], m');
      assert (exists i :: 0 <= i < |votes| && RatesQuestion(votes[i].answers, q))
             <==> RatesQuestion(votes[0].answers, q) || exists i :: 0 <= i < |votes[1..]| && RatesQuestion(votes[1..][i].answers, q) by {
        assert forall i :: 1 <= i < |votes| ==> votes[i] == votes[1..][i - 1];
      }
    }
  }

  // ---------------------------------------------------------------------------------------------
  // The source's loops

  method ToRangeVotesByQuestionId(votes: seq<Vote>) returns (r: Result<map<string, seq<RangeVote>>, TallyError>)
    ensures r == GroupedRangeVotes(votes)
  {
    var byQuestionId: map<string, seq<RangeVote>> := map[];
    for i := 0 to |votes|
      invariant GroupFrom(votes[i..], byQuestionId) == GroupedRangeVotes(votes)
    {
      var vote := votes[i];
      assert votes[i..][0] == vote && votes[i..][1..] == votes[i + 1..];
      var ratingsByQuestionId: QuestionRatings := [];
      for j := 0 to |vote.answers|
        invariant RatingsByQuestionFrom(vote.answers[j..], ratingsByQuestionId) == RatingsByQuestion(vote.answers)
      {
        var (k, v) := vote.answers[j];
        assert vote.answers[j..][0] == (k, v) && vote.answers[j..][1..] == vote.answers[j + 1..];
        if |k| >= |RangePrefix| && k[..|RangePrefix|] == RangePrefix {
          var pos := IndexOf(k, '_', |RangePrefix|);
          if pos > -1 {
            var questionId := k[|RangePrefix|..pos];
            var option := k[pos + 1..];
            var rating := ParseInt(v);
            if rating.None? {
              return Failure(NumberFormat(k, v));
            }
            var ratings := GetOr(ratingsByQuestionId, questionId, []);
            ratingsByQuestionId := Put(ratingsByQuestionId, questionId, Put(ratings, option, rating.value));
          }
        }
      }
      ghost var before := byQuestionId;
      for j := 0 to |ratingsByQuestionId|
        invariant AddRangeVotes(byQuestionId, vote, ratingsByQuestionId[j..])
                  == AddRangeVotes(before, vote, ratingsByQuestionId)
      {
        var (questionId, ratings) := ratingsByQuestionId[j];
        assert ratingsByQuestionId[j..][1..] == ratingsByQuestionId[j + 1..];
        var rangeVotes := VotesFor(byQuestionId, questionId);
        byQuestionId := byQuestionId[questionId := rangeVotes + [RangeVote(vote.id, vote.ballotId, questionId, ratings)]];
      }
    }
    return Success(byQuestionId);
  }
}
