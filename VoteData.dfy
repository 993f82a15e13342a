/**
 * The records of the vote-web tally (data.kt:6-32). All are immutable values.
 * Kotlin `Int` and `Long` become `int`, `Double` becomes `real`, `Map<String, X>` an
 * insertion-ordered association list, `List<X>` a `seq<X>`.
 */
module VoteData {
  import opened AssocLists

  /** A ballot: free-text questions and range (rating) questions. */
  datatype Ballot = Ballot(id: string, updatedAt: int, name: string,
                           questions: seq<Question>, rangeQuestions: seq<RangeQuestion>)

  /** A free-text question. */
  datatype Question = Question(id: string, question: string)

  /** A question whose options are rated on the scale 0..maxRating. */
  datatype RangeQuestion = RangeQuestion(id: string, question: string, options: seq<string>, maxRating: int)

  /** One voter's submitted form: answer key to answer text. */
  datatype Vote = Vote(id: string, ballotId: string, answers: AList<string>)

  /** One voter's ratings for one range question: option to rating. */
  datatype RangeVote = RangeVote(id: string, ballotId: string, questionId: string, ratings: AList<int>)

  /** No rating in an option-to-rating list is negative. */
  predicate NonNegativeRatings(ratings: AList<int>)
  {
    forall j :: 0 <= j < |ratings| ==> ratings[j].1 >= 0
  }

  /** An elected option and the weighted mean rating it was elected with. */
  datatype RangeWinner = RangeWinner(option: string, mean: real)

  datatype RangeQuestionResult = RangeQuestionResult(question: RangeQuestion, winners: seq<RangeWinner>)

  datatype QuestionResult = QuestionResult(question: string, answers: seq<string>)

  datatype BallotResult = BallotResult(ballot: Ballot, questions: seq<QuestionResult>,
                                       rangeQuestions: seq<RangeQuestionResult>)

  /** The exception `Integer.parseInt` throws for a rating that is not a 32-bit decimal integer. */
  datatype TallyError = NumberFormat(key: string, value: string)
}
