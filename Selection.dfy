/**
 * One selection round, `nextRangeWinner` (data.kt:102-128): weighted ratings are collected per
 * option not yet chosen, in the order options are first rated, and the option with the greatest
 * mean wins; on equal means the one scanned last wins.
 */
module Selection {
  import opened Wrappers
  import opened AssocLists
  import opened VoteData
  import opened Weights

  /** `weightedRatingByOption`: option to the weighted ratings it received, in first-rated order. */
  type Candidates = AList<seq<real>>

  // ---------------------------------------------------------------------------------------------
  // Specification

  /** `weightsByVoteId.get(id) ?: 1.0`. */
  function WeightOf(weights: map<string, real>, id: string): real
  {
    if id in weights then weights[id] else 1.0
  }

  /** One rating of the loop at data.kt:108-111: a chosen option is skipped. */
  function AddWeightedRating(table: Candidates, option: string, rating: int, weight: real, chosen: set<string>): Candidates
  {
    if option in chosen then table
    else Put(table, option, GetOr(table, option, []) + [rating as real * weight])
  }

  /** The rating loop of one vote (data.kt:107-112), starting from `table`. */
  function AddWeightedRatings(table: Candidates, ratings: AList<int>, weight: real, chosen: set<string>): Candidates
    decreases |ratings|
  {
    if ratings == [] then table
    else
      var table' := AddWeightedRating(table, ratings[0].0, ratings[0].1, weight, chosen);
      AddWeightedRatings(table', ratings[1..], weight, chosen)
  }

  /** The vote loop (data.kt:105-113), starting from `table`. */
  function CandidatesFrom(votes: seq<RangeVote>, weights: map<string, real>, chosen: set<string>, table: Candidates)
    : Candidates
    decreases |votes|
  {
    if votes == [] then table
    else
      var table' := AddWeightedRatings(table, votes[0].ratings, WeightOf(weights, votes[0].id), chosen);
      CandidatesFrom(votes[1..], weights, chosen, table')
  }

  /** `weightedRatingByOption` once all votes are read. */
  function CandidateTable(votes: seq<RangeVote>, weights: map<string, real>, chosen: set<string>): Candidates
  {
    CandidatesFrom(votes, weights, chosen, [])
  }

  /** `ratings.sum()`. */
  function Sum(xs: seq<real>): real
  {
    if xs == [] then 0.0 else xs[0] + Sum(xs[1..])
  }

  /** `ratings.sum() / ratings.size`. */
  function Mean(xs: seq<real>): real
    requires xs != []
  {
    Sum(xs) / |xs| as real
  }

  predicate NonEmptyColumns(table: Candidates)
  {
    forall i :: 0 <= i < |table| ==> table[i].1 != []
  }

  /** The scan at data.kt:119-125 from the current best (option, mean): `>=` lets a later equal mean win. */
  function ScanFrom(table: Candidates, best: (string, real)): (string, real)
    requires NonEmptyColumns(table)
    decreases |table|
  {
    if table == [] then best
    else
      var mean := Mean(table[0].1);
      assert forall i :: 1 <= i < |table| ==> table[1..][i - 1] == table[i];
      ScanFrom(table[1..], if mean >= best.1 then (table[0].0, mean) else best)
  }

  /** `nextRangeWinner(maxRating, chosen, votes)`; None is Kotlin's `null`. */
  function RoundWinner(maxRating: int, chosen: set<string>, votes: seq<RangeVote>): Option<RangeWinner>
    requires WeightsDefined(maxRating, chosen, votes)
  {
    var table := CandidateTable(votes, BallotWeights(maxRating, chosen, votes), chosen);
    if table == [] then None
    else
      CandidateColumnsNonEmpty(votes, BallotWeights(maxRating, chosen, votes), chosen, []);
      var (option, mean) := ScanFrom(table, ("", 0.0));
      Some(RangeWinner(option, mean))
  }

  // ---------------------------------------------------------------------------------------------
  // The source's loops

  /** The rating loop of one vote (data.kt:107-112), applied to `table`. */
  method AddVoteRatings(table: Candidates, ratings: AList<int>, weight: real, chosen: set<string>) returns (t: Candidates)
    ensures t == AddWeightedRatings(table, ratings, weight, chosen)
  {
    t := table;
    for j := 0 to |ratings|
      invariant AddWeightedRatings(t, ratings[j..], weight, chosen) == AddWeightedRatings(table, ratings, weight, chosen)
    {
      var (option, rating) := ratings[j];
      assert ratings[j..][0] == (option, rating) && ratings[j..][1..] == ratings[j + 1..];
      ghost var before := t;
      if option !in chosen {
        var column := GetOr(t, option, []);
        t := Put(t, option, column + [rating as real * weight]);
      }
      assert t == AddWeightedRating(before, option, rating, weight, chosen);
      assert AddWeightedRatings(before, ratings[j..], weight, chosen) == AddWeightedRatings(t, ratings[j + 1..], weight, chosen);
    }
  }

  method NextRangeWinner(maxRating: int, chosen: set<string>, votes: seq<RangeVote>) returns (winner: Option<RangeWinner>)
    requires WeightsDefined(maxRating, chosen, votes)
    ensures winner == RoundWinner(maxRating, chosen, votes)
  {
    var weightsByVoteId := ToBallotWeights(maxRating, chosen, votes);
    var weightedRatingByOption: Candidates := [];
    for i := 0 to |votes|
      invariant CandidatesFrom(votes[i..], weightsByVoteId, chosen, weightedRatingByOption)
                == CandidateTable(votes, weightsByVoteId, chosen)
    {
      var vote := votes[i];
      assert votes[i..][0] == vote && votes[i..][1..] == votes[i + 1..];
      var weight := if vote.id in weightsByVoteId then weightsByVoteId[vote.id] else 1.0;
      weightedRatingByOption := AddVoteRatings(weightedRatingByOption, vote.ratings, weight, chosen);
    }
    if weightedRatingByOption == [] {
      return None;
    }
    CandidateColumnsNonEmpty(votes, weightsByVoteId, chosen, []);
    var winningOption := "";
    var winningMeanScore := 0.0;
    for i := 0 to |weightedRatingByOption|
      invariant ScanFrom(weightedRatingByOption[i..], (winningOption, winningMeanScore))
                == ScanFrom(weightedRatingByOption, ("", 0.0))
    {
      var (option, ratings) := weightedRatingByOption[i];
      assert weightedRatingByOption[i..][0] == (option, ratings);
      assert weightedRatingByOption[i..][1..] == weightedRatingByOption[i + 1..];
      var mean := Sum(ratings) / |ratings| as real;
      if mean >= winningMeanScore {
        winningOption := option;
        winningMeanScore := mean;
      }
    }
    return Some(RangeWinner(winningOption, winningMeanScore));
  }

  // ---------------------------------------------------------------------------------------------
  // The shape of the candidate table

  lemma PutColumnShape(table: Candidates, option: string, col: seq<real>)
    requires NonEmptyColumns(table) && DistinctKeys(table) && col != []
    ensures NonEmptyColumns(Put(table, option, col)) && DistinctKeys(Put(table, option, col))
  {
    var t' := Put(table, option, col);
    PutDistinct(table, option, col);
    forall i | 0 <= i < |t'| ensures t'[i].1 != [] {
      PutEntries(table, option, col, i);
    }
  }

  lemma {:induction false} AddWeightedRatingsShape(table: Candidates, ratings: AList<int>, weight: real, chosen: set<string>)
    requires NonEmptyColumns(table) && DistinctKeys(table)
    ensures NonEmptyColumns(AddWeightedRatings(table, ratings, weight, chosen))
    ensures DistinctKeys(AddWeightedRatings(table, ratings, weight, chosen))
    decreases |ratings|
  {
    if ratings != [] {
      var option := ratings[0].0;
      var t' := AddWeightedRating(table, option, ratings[0].1, weight, chosen);
      if option !in chosen {
        PutColumnShape(table, option, GetOr(table, option, []) + [ratings[0].1 as real * weight]);
      }
      assert AddWeightedRatings(table, ratings, weight, chosen) == AddWeightedRatings(t', ratings[1..], weight, chosen);
      AddWeightedRatingsShape(t', ratings[1..], weight, chosen);
    }
  }

  /** Every option in the candidate table received at least one rating, and no option appears twice. */
  lemma {:induction false} CandidateColumnsNonEmpty(votes: seq<RangeVote>, weights: map<string, real>,
                                                    chosen: set<string>, table: Candidates)
    requires NonEmptyColumns(table) && DistinctKeys(table)
    ensures NonEmptyColumns(CandidatesFrom(votes, weights, chosen, table))
    ensures DistinctKeys(CandidatesFrom(votes, weights, chosen, table))
    decreases |votes|
  {
    if votes != [] {
      var w := WeightOf(weights, votes[0].id);
      AddWeightedRatingsShape(table, votes[0].ratings, w, chosen);
      CandidateColumnsNonEmpty(votes[1..], weights, chosen, AddWeightedRatings(table, votes[0].ratings, w, chosen));
    }
  }

  // ---------------------------------------------------------------------------------------------
  // What each option's column holds

  /** The weighted rating one vote gives `option`: none when the vote did not rate it. */
  function OwnRating(ratings: AList<int>, option: string, weight: real): seq<real>
    decreases |ratings|
  {
    if ratings == [] then []
    else if ratings[0].0 == option then [ratings[0].1 as real * weight]
    else OwnRating(ratings[1..], option, weight)
  }

  lemma {:induction false} OwnRatingAbsent(ratings: AList<int>, option: string, weight: real)
    requires forall j :: 0 <= j < |ratings| ==> ratings[j].0 != option
    ensures OwnRating(ratings, option, weight) == []
    decreases |ratings|
  {
    if ratings != [] {
      assert forall j :: 1 <= j < |ratings| ==> ratings[1..][j - 1] == ratings[j];
      OwnRatingAbsent(ratings[1..], option, weight);
    }
  }

  /** The weighted ratings `votes` gave `option`, one per vote that rated it, in vote order. */
  function RatedColumn(votes: seq<RangeVote>, weights: map<string, real>, option: string): seq<real>
    decreases |votes|
  {
    if votes == [] then []
    else OwnRating(votes[0].ratings, option, WeightOf(weights, votes[0].id)) + RatedColumn(votes[1..], weights, option)
  }

  /** Every vote rates each option at most once (the ratings come from a map). */
  predicate RatingsAreMaps(votes: seq<RangeVote>)
  {
    forall i :: 0 <= i < |votes| ==> DistinctKeys(votes[i].ratings)
  }

  lemma AddWeightedRatingColumn(table: Candidates, k: string, r: int, weight: real, chosen: set<string>, option: string)
    ensures GetOr(AddWeightedRating(table, k, r, weight, chosen), option, [])
            == GetOr(table, option, []) + (if k == option && k !in chosen then [r as real * weight] else [])
  {
    if k != option || k in chosen {
      assert GetOr(table, option, []) + [] == GetOr(table, option, []);
    }
  }

  lemma {:induction false} AddWeightedRatingsColumn(table: Candidates, ratings: AList<int>, weight: real,
                                                    chosen: set<string>, option: string)
    requires DistinctKeys(ratings)
    ensures GetOr(AddWeightedRatings(table, ratings, weight, chosen), option, [])
            == GetOr(table, option, []) + (if option in chosen then [] else OwnRating(ratings, option, weight))
    decreases |ratings|
  {
    if ratings == [] {
      assert GetOr(table, option, []) + [] == GetOr(table, option, []);
    } else {
      var k, r := ratings[0].0, ratings[0].1;
      var rest := ratings[1..];
      assert DistinctKeys(rest) by {
        assert forall j :: 0 <= j < |rest| ==> rest[j] == ratings[j + 1];
      }
      var t' := AddWeightedRating(table, k, r, weight, chosen);
      assert AddWeightedRatings(table, ratings, weight, chosen) == AddWeightedRatings(t', rest, weight, chosen);
      AddWeightedRatingsColumn(t', rest, weight, chosen, option);
      AddWeightedRatingColumn(table, k, r, weight, chosen, option);
      if k == option {
        assert forall j :: 0 <= j < |rest| ==> rest[j] == ratings[j + 1];
        OwnRatingAbsent(rest, option, weight);
      }
    }
  }

  /**
   * The column of an option not yet chosen holds, in vote order, the rating of every vote that
   * rated it times that vote's weight; a chosen option gets no column.
   */
  lemma {:induction false} CandidatesColumn(votes: seq<RangeVote>, weights: map<string, real>, chosen: set<string>,
                                            table: Candidates, option: string)
    requires RatingsAreMaps(votes)
    ensures GetOr(CandidatesFrom(votes, weights, chosen, table), option, [])
            == GetOr(table, option, []) + (if option in chosen then [] else RatedColumn(votes, weights, option))
    decreases |votes|
  {
    if votes != [] {
      var w := WeightOf(weights, votes[0].id);
      var t' := AddWeightedRatings(table, votes[0].ratings, w, chosen);
      assert RatingsAreMaps(votes[1..]) by {
        assert forall i :: 0 <= i < |votes| - 1 ==> votes[1..][i] == votes[i + 1];
      }
      AddWeightedRatingsColumn(table, votes[0].ratings, w, chosen, option);
      CandidatesColumn(votes[1..], weights, chosen, t', option);
      ConcatAssoc(GetOr(table, option, []), OwnRating(votes[0].ratings, option, w), RatedColumn(votes[1..], weights, option));
    }
  }

  // ---------------------------------------------------------------------------------------------
  // The order of the candidates

  /** `put` on an insertion-ordered map: a new key goes last, a present key stays where it is. */
  function AppendNew(keys: seq<string>, k: string): seq<string>
  {
    if k in keys then keys else keys + [k]
  }

  /** The distinct elements of `xs` not in `keys`, appended to `keys` in order of first occurrence. */
  function DedupInto(keys: seq<string>, xs: seq<string>): seq<string>
    decreases |xs|
  {
    if xs == [] then keys else DedupInto(AppendNew(keys, xs[0]), xs[1..])
  }

  /** The options one vote rated that are not chosen yet, in its rating order. */
  function UnchosenOptions(ratings: AList<int>, chosen: set<string>): seq<string>
    decreases |ratings|
  {
    if ratings == [] then []
    else (if ratings[0].0 in chosen then [] else [ratings[0].0]) + UnchosenOptions(ratings[1..], chosen)
  }

  /** The options rated and not chosen yet, vote after vote, with repetitions. */
  function RatedOptions(votes: seq<RangeVote>, chosen: set<string>): seq<string>
    decreases |votes|
  {
    if votes == [] then [] else UnchosenOptions(votes[0].ratings, chosen) + RatedOptions(votes[1..], chosen)
  }

  /** Some vote rated `option`. */
  predicate Rated(votes: seq<RangeVote>, option: string)
  {
    exists i, j :: 0 <= i < |votes| && 0 <= j < |votes[i].ratings| && votes[i].ratings[j].0 == option
  }

  lemma {:induction false} DedupIntoAppend(keys: seq<string>, xs: seq<string>, ys: seq<string>)
    ensures DedupInto(keys, xs + ys) == DedupInto(DedupInto(keys, xs), ys)
    decreases |xs|
  {
    if xs == [] {
      assert xs + ys == ys;
    } else {
      assert (xs + ys)[1..] == xs[1..] + ys;
      DedupIntoAppend(AppendNew(keys, xs[0]), xs[1..], ys);
    }
  }

  /** Deduplicating loses and invents nothing, and repeats nothing that was not repeated. */
  lemma {:induction false} DedupIntoMembers(keys: seq<string>, xs: seq<string>)
    ensures forall k :: k in DedupInto(keys, xs) <==> k in keys || k in xs
    ensures DistinctSeq(keys) ==> DistinctSeq(DedupInto(keys, xs))
    ensures keys <= DedupInto(keys, xs)
    decreases |xs|
  {
    if xs != [] {
      DedupIntoMembers(AppendNew(keys, xs[0]), xs[1..]);
      assert forall k :: k in xs <==> k == xs[0] || k in xs[1..];
    }
  }

  predicate DistinctSeq(xs: seq<string>)
  {
    forall i, j :: 0 <= i < j < |xs| ==> xs[i] != xs[j]
  }

  lemma {:induction false} AddWeightedRatingsKeys(table: Candidates, ratings: AList<int>, weight: real,
                                                  chosen: set<string>)
    ensures Keys(AddWeightedRatings(table, ratings, weight, chosen))
            == DedupInto(Keys(table), UnchosenOptions(ratings, chosen))
    decreases |ratings|
  {
    if ratings != [] {
      var k, r := ratings[0].0, ratings[0].1;
      var t' := AddWeightedRating(table, k, r, weight, chosen);
      AddWeightedRatingsKeys(t', ratings[1..], weight, chosen);
      if k in chosen {
        assert UnchosenOptions(ratings, chosen) == UnchosenOptions(ratings[1..], chosen);
      } else {
        assert Keys(t') == AppendNew(Keys(table), k);
        assert UnchosenOptions(ratings, chosen) == [k] + UnchosenOptions(ratings[1..], chosen);
        DedupIntoAppend(Keys(table), [k], UnchosenOptions(ratings[1..], chosen));
        assert DedupInto(Keys(table), [k]) == DedupInto(AppendNew(Keys(table), k), []);
      }
    }
  }

  /** The candidates come in the order their options were first rated, each once. */
  lemma {:induction false} CandidatesKeys(votes: seq<RangeVote>, weights: map<string, real>, chosen: set<string>,
                                          table: Candidates)
    ensures Keys(CandidatesFrom(votes, weights, chosen, table)) == DedupInto(Keys(table), RatedOptions(votes, chosen))
    decreases |votes|
  {
    if votes != [] {
      var w := WeightOf(weights, votes[0].id);
      var t' := AddWeightedRatings(table, votes[0].ratings, w, chosen);
      AddWeightedRatingsKeys(table, votes[0].ratings, w, chosen);
      CandidatesKeys(votes[1..], weights, chosen, t');
      DedupIntoAppend(Keys(table), UnchosenOptions(votes[0].ratings, chosen), RatedOptions(votes[1..], chosen));
    }
  }

  lemma {:induction false} UnchosenOptionsMembers(ratings: AList<int>, chosen: set<string>, option: string)
    ensures option in UnchosenOptions(ratings, chosen)
            <==> option !in chosen && exists j :: 0 <= j < |ratings| && ratings[j].0 == option
    decreases |ratings|
  {
    if ratings != [] {
      UnchosenOptionsMembers(ratings[1..], chosen, option);
      assert forall j :: 1 <= j < |ratings| ==> ratings[1..][j - 1] == ratings[j];
    }
  }

  /** The rated options are the options some vote rated, less the chosen ones. */
  lemma {:induction false} RatedOptionsMembers(votes: seq<RangeVote>, chosen: set<string>, option: string)
    ensures option in RatedOptions(votes, chosen) <==> option !in chosen && Rated(votes, option)
    decreases |votes|
  {
    if votes != [] {
      RatedOptionsMembers(votes[1..], chosen, option);
      UnchosenOptionsMembers(votes[0].ratings, chosen, option);
      assert forall i :: 1 <= i < |votes| ==> votes[1..][i - 1] == votes[i];
      if option !in chosen && Rated(votes, option) {
        var i, j :| 0 <= i < |votes| && 0 <= j < |votes[i].ratings| && votes[i].ratings[j].0 == option;
        if i > 0 {
          assert votes[1..][i - 1].ratings[j].0 == option;
        }
      }
    }
  }

  /**
   * The candidate table lists exactly the options rated and not yet chosen, each once, in the
   * order they were first rated.
   */
  lemma CandidateOrder(votes: seq<RangeVote>, weights: map<string, real>, chosen: set<string>)
    ensures Keys(CandidateTable(votes, weights, chosen)) == DedupInto([], RatedOptions(votes, chosen))
    ensures DistinctSeq(Keys(CandidateTable(votes, weights, chosen)))
    ensures forall option :: option in Keys(CandidateTable(votes, weights, chosen))
                             <==> option !in chosen && Rated(votes, option)
  {
    CandidatesKeys(votes, weights, chosen, []);
    DedupIntoMembers([], RatedOptions(votes, chosen));
    forall option ensures option in Keys(CandidateTable(votes, weights, chosen))
                          <==> option !in chosen && Rated(votes, option) {
      RatedOptionsMembers(votes, chosen, option);
    }
  }

  /** The table mapping each candidate to its column is the column `RatedColumn` describes. */
  lemma TableColumns(votes: seq<RangeVote>, weights: map<string, real>, chosen: set<string>)
    requires RatingsAreMaps(votes)
    ensures var table := CandidateTable(votes, weights, chosen);
            forall i :: 0 <= i < |table| ==> table[i].1 == RatedColumn(votes, weights, table[i].0)
  {
    var table := CandidateTable(votes, weights, chosen);
    CandidateColumnsNonEmpty(votes, weights, chosen, []);
    CandidateOrder(votes, weights, chosen);
    forall i | 0 <= i < |table| ensures table[i].1 == RatedColumn(votes, weights, table[i].0) {
      LookupEntry(table, i);
      assert Keys(table)[i] == table[i].0;
      CandidatesColumn(votes, weights, chosen, [], table[i].0);
    }
  }

  // ---------------------------------------------------------------------------------------------
  // The scan for the greatest mean

  /** Entry `j` has the greatest mean of the table, and every later entry a strictly smaller one. */
  predicate LastBest(table: Candidates, j: int)
    requires NonEmptyColumns(table)
  {
    0 <= j < |table|
    && (forall i :: 0 <= i < |table| ==> Mean(table[i].1) <= Mean(table[j].1))
    && (forall i :: j < i < |table| ==> Mean(table[i].1) < Mean(table[j].1))
  }

  /**
   * The scan keeps its starting point when every mean is below it; otherwise it ends on the
   * last entry with the greatest mean, which is at least the starting mean.
   */
  lemma {:induction false} ScanFromSpec(table: Candidates, best: (string, real))
    requires NonEmptyColumns(table)
    ensures var r := ScanFrom(table, best);
            (r == best && forall i :: 0 <= i < |table| ==> Mean(table[i].1) < best.1)
            || (exists j :: LastBest(table, j) && r == (table[j].0, Mean(table[j].1)) && best.1 <= r.1)
    decreases |table|
  {
    if table != [] {
      var rest := table[1..];
      assert forall i :: 1 <= i < |table| ==> rest[i - 1] == table[i];
      var m := Mean(table[0].1);
      var best' := if m >= best.1 then (table[0].0, m) else best;
      ScanFromSpec(rest, best');
      var r := ScanFrom(rest, best');
      assert ScanFrom(table, best) == r;
      if r == best' && forall i :: 0 <= i < |rest| ==> Mean(rest[i].1) < best'.1 {
        if m >= best.1 {
          assert LastBest(table, 0);
        }
      } else {
        var j' :| LastBest(rest, j') && r == (rest[j'].0, Mean(rest[j'].1)) && best'.1 <= r.1;
        assert LastBest(table, j' + 1);
      }
    }
  }

  /**
   * When every candidate's mean is negative, the scan never leaves its start: the round reports
   * the empty option with mean 0, which is no candidate at all.
   */
  lemma ScanAllNegative(table: Candidates)
    requires NonEmptyColumns(table)
    requires forall i :: 0 <= i < |table| ==> Mean(table[i].1) < 0.0
    ensures ScanFrom(table, ("", 0.0)) == ("", 0.0)
  {
    ScanFromSpec(table, ("", 0.0));
  }

  // ---------------------------------------------------------------------------------------------
  // Signs

  lemma {:induction false} SumNonNegative(xs: seq<real>)
    requires forall k :: 0 <= k < |xs| ==> xs[k] >= 0.0
    ensures Sum(xs) >= 0.0
    decreases |xs|
  {
    if xs != [] {
      assert forall k :: 1 <= k < |xs| ==> xs[1..][k - 1] == xs[k];
      SumNonNegative(xs[1..]);
    }
  }

  lemma MeanNonNegative(xs: seq<real>)
    requires xs != [] && forall k :: 0 <= k < |xs| ==> xs[k] >= 0.0
    ensures Mean(xs) >= 0.0
  {
    SumNonNegative(xs);
    var n := |xs| as real;
    var m := Mean(xs);
    assert m * n == Sum(xs);
  }

  lemma {:induction false} OwnRatingNonNegative(ratings: AList<int>, option: string, weight: real)
    requires NonNegativeRatings(ratings) && weight >= 0.0
    ensures forall k :: 0 <= k < |OwnRating(ratings, option, weight)| ==> OwnRating(ratings, option, weight)[k] >= 0.0
    decreases |ratings|
  {
    if ratings != [] {
      if ratings[0].0 == option {
        var r := ratings[0].1 as real;
        assert r >= 0.0;
        assert r * weight >= 0.0;
      } else {
        assert forall j :: 1 <= j < |ratings| ==> ratings[1..][j - 1] == ratings[j];
        OwnRatingNonNegative(ratings[1..], option, weight);
      }
    }
  }

  /** Without negative ratings or weights, no weighted rating is negative. */
  lemma {:induction false} RatedColumnNonNegative(votes: seq<RangeVote>, weights: map<string, real>, option: string)
    requires forall i :: 0 <= i < |votes| ==> NonNegativeRatings(votes[i].ratings)
    requires forall id :: id in weights ==> weights[id] >= 0.0
    ensures forall k :: 0 <= k < |RatedColumn(votes, weights, option)| ==> RatedColumn(votes, weights, option)[k] >= 0.0
    decreases |votes|
  {
    if votes != [] {
      assert forall i :: 1 <= i < |votes| ==> votes[1..][i - 1] == votes[i];
      OwnRatingNonNegative(votes[0].ratings, option, WeightOf(weights, votes[0].id));
      RatedColumnNonNegative(votes[1..], weights, option);
    }
  }

  // ---------------------------------------------------------------------------------------------
  // The winner of a round

  /** A round finds no winner exactly when every option any vote rated has been chosen already. */
  lemma RoundWinnerNone(maxRating: int, chosen: set<string>, votes: seq<RangeVote>)
    requires WeightsDefined(maxRating, chosen, votes)
    ensures RoundWinner(maxRating, chosen, votes).None?
            <==> forall i, j :: 0 <= i < |votes| && 0 <= j < |votes[i].ratings| ==> votes[i].ratings[j].0 in chosen
  {
    var weights := BallotWeights(maxRating, chosen, votes);
    var table := CandidateTable(votes, weights, chosen);
    CandidateOrder(votes, weights, chosen);
    if table != [] {
      assert Keys(table)[0] in Keys(table);
      var i, j :| 0 <= i < |votes| && 0 <= j < |votes[i].ratings| && votes[i].ratings[j].0 == Keys(table)[0];
    } else {
      forall i, j | 0 <= i < |votes| && 0 <= j < |votes[i].ratings| ensures votes[i].ratings[j].0 in chosen {
        assert Rated(votes, votes[i].ratings[j].0);
      }
    }
  }

  /**
   * On a positive scale without negative ratings, the winner of a round is an option not yet
   * chosen that some vote rated, its mean is the mean of the weighted ratings it received, and no
   * other unchosen rated option has a greater mean.
   */
  lemma RoundWinnerIsBest(maxRating: int, chosen: set<string>, votes: seq<RangeVote>)
    requires WellScaled(maxRating, votes) && RatingsAreMaps(votes)
    ensures WeightsDefined(maxRating, chosen, votes)
    ensures RoundWinner(maxRating, chosen, votes).Some? ==>
              var winner := RoundWinner(maxRating, chosen, votes).value;
              var weights := BallotWeights(maxRating, chosen, votes);
              && winner.option !in chosen && Rated(votes, winner.option)
              && RatedColumn(votes, weights, winner.option) != []
              && winner.mean == Mean(RatedColumn(votes, weights, winner.option))
              && forall option :: option !in chosen && Rated(votes, option) ==>
                   RatedColumn(votes, weights, option) != [] && Mean(RatedColumn(votes, weights, option)) <= winner.mean
  {
    WellScaledWeightsDefined(maxRating, chosen, votes);
    if RoundWinner(maxRating, chosen, votes).Some? {
      var weights := BallotWeights(maxRating, chosen, votes);
      var table := CandidateTable(votes, weights, chosen);
      var j := RoundScan(maxRating, chosen, votes);
      var winner := RoundWinner(maxRating, chosen, votes).value;
      forall option | option !in chosen && Rated(votes, option)
        ensures RatedColumn(votes, weights, option) != [] && Mean(RatedColumn(votes, weights, option)) <= winner.mean
      {
        var i :| 0 <= i < |table| && Keys(table)[i] == option;
      }
    }
  }

  /**
   * Among options with the greatest mean the round picks the one first rated last: every
   * candidate after the winner, in first-rated order, has a strictly smaller mean.
   */
  lemma RoundWinnerTieBreak(maxRating: int, chosen: set<string>, votes: seq<RangeVote>)
    requires WellScaled(maxRating, votes) && RatingsAreMaps(votes)
    ensures WeightsDefined(maxRating, chosen, votes)
    ensures RoundWinner(maxRating, chosen, votes).Some? ==>
              var winner := RoundWinner(maxRating, chosen, votes).value;
              var weights := BallotWeights(maxRating, chosen, votes);
              var order := DedupInto([], RatedOptions(votes, chosen));
              exists j :: 0 <= j < |order| && order[j] == winner.option
                && forall i :: j < i < |order| ==>
                     RatedColumn(votes, weights, order[i]) != [] && Mean(RatedColumn(votes, weights, order[i])) < winner.mean
  {
    WellScaledWeightsDefined(maxRating, chosen, votes);
    if RoundWinner(maxRating, chosen, votes).Some? {
      var j := RoundScan(maxRating, chosen, votes);
      var table := CandidateTable(votes, BallotWeights(maxRating, chosen, votes), chosen);
      assert Keys(table)[j] == table[j].0;
    }
  }

  /** The scan of a well-scaled round ends on the last entry with the greatest mean. */
  lemma RoundScan(maxRating: int, chosen: set<string>, votes: seq<RangeVote>) returns (j: int)
    requires WellScaled(maxRating, votes) && RatingsAreMaps(votes)
    requires WeightsDefined(maxRating, chosen, votes) && RoundWinner(maxRating, chosen, votes).Some?
    ensures var weights := BallotWeights(maxRating, chosen, votes);
            var table := CandidateTable(votes, weights, chosen);
            && NonEmptyColumns(table) && DistinctKeys(table) && LastBest(table, j)
            && RoundWinner(maxRating, chosen, votes) == Some(RangeWinner(table[j].0, Mean(table[j].1)))
            && Keys(table) == DedupInto([], RatedOptions(votes, chosen))
            && (forall option :: option in Keys(table) <==> option !in chosen && Rated(votes, option))
            && forall i :: 0 <= i < |table| ==> table[i].1 == RatedColumn(votes, weights, table[i].0)
  {
    var weights := BallotWeights(maxRating, chosen, votes);
    var table := CandidateTable(votes, weights, chosen);
    CandidateColumnsNonEmpty(votes, weights, chosen, []);
    CandidateOrder(votes, weights, chosen);
    TableColumns(votes, weights, chosen);
    WeightsFromBounds(maxRating, chosen, votes, map[]);
    RatedColumnNonNegative(votes, weights, table[0].0);
    MeanNonNegative(table[0].1);
    ScanFromSpec(table, ("", 0.0));
    j :| LastBest(table, j) && ScanFrom(table, ("", 0.0)) == (table[j].0, Mean(table[j].1)) && 0.0 <= Mean(table[j].1);
  }
}
