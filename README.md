# vote-web tally, modelled in Dafny

vote-web runs ballots. A ballot has two kinds of questions:

- **Free-text questions.** Each voter writes an answer.
- **Range questions.** The form invites each voter to rate options with a whole number from
  0 to the question's `maxRating`. The tally itself checks neither the range nor that a rated
  option is one the question declares: it accepts any 32-bit integer under any option name.

A vote arrives as a submitted form, which is a map from field names to strings:

- `question_<id>` holds a free-text answer;
- `range_<question id>_<option>` holds a rating written in decimal.

Tallying a ballot does two things:

- It collects each free-text question's answers in vote order.
- It elects winners for each range question by Reweighted Range Voting (RRV).

RRV works in rounds:

1. Each voter gets the weight `maxRating / (maxRating + sum of the ratings that voter gave to options already elected)`.
2. Each option not yet elected gets the mean of its weighted ratings.
3. The option with the greatest mean is elected.

Rounds repeat until as many options are elected as the question declares, or no rated option
remains. The elected options need not be declared ones.

The model covers the tally core of `src/main/kotlin/voteweb/data.kt`. Each of its loops is a
Dafny method, proved equal to a recursive specification function. The lemmas then state what the
tally promises about those functions.

| Dafny file | models |
|---|---|
| `Wrappers.dfy` | `Option` (Kotlin's nullable results) and `Result` (the parse exception as a value) |
| `AssocLists.dfy` | Kotlin's insertion-ordered `mutableMapOf()` as a list of pairs: `get`, `put`, `computeIfAbsent` |
| `VoteData.dfy` | the data classes of data.kt:6-32 and the tally's one error |
| `RangeKeys.dfy` | decoding `range_<q>_<o>` keys and `Integer.parseInt` |
| `Grouping.dfy` | `toRangeVotesByQuestionId`: form answers to RangeVotes, grouped by question |
| `Weights.dfy` | `toBallotWeights`: the RRV voter weights |
| `Selection.dfy` | `nextRangeWinner`: one RRV round |
| `Winners.dfy` | `toRangeWinners`: the rounds, until as many options are elected as are declared, or no rated option is left |
| `BallotResults.dfy` | `toBallotResult`: the whole tally |
| `Examples.dfy` | the repository's two unit tests, worked through the model, and one edge case |

Representation choices:

- **Maps.** A Kotlin `Map` that the source iterates is a sequence of (key, value) pairs. This
  keeps the insertion order that decides the order of the RangeVotes and the tie-break. The
  types do not forbid a repeated key in `Vote.answers` or `RangeVote.ratings`. Distinct keys
  are assumed only where a proof needs them: `DistinctKeys` in `Grouping.RatingOfAnswer`, and
  `RatingsAreMaps` for the winner loop. The maps the tally builds with `put` keep their keys
  distinct (`AssocLists.PutDistinct`). Two maps are only ever looked up, `byQuestionId` in
  `toBallotResult` and `weightsByVoteId` in `nextRangeWinner`, and both are Dafny `map`s.
- **Numbers.** `Double` is `real`. `Int` is `int`, and `ParseInt` accepts only values that fit
  in 32 bits, as `Integer.parseInt` does.
- **The parse exception.** `Integer.parseInt` throws a `NumberFormatException` on an answer
  that is not an integer. The model returns `Failure(NumberFormat(key, value))` instead.

## Model

| member | source | states |
|---|---|---|
| AssocLists.LookupKeys | src/main/kotlin/voteweb/data.kt:43 | `get` finds a value exactly when the key is present, and that value is stored under the key |
| AssocLists.Put | src/main/kotlin/voteweb/data.kt:73 | after `put(k, v)`: `get(k)` is `v`; the keys are the old keys, plus `k` at the end if it was new; every other key keeps its value |
| AssocLists.PutDistinct | src/main/kotlin/voteweb/data.kt:73 | `put` never creates a repeated key |
| AssocLists.PutEntries | src/main/kotlin/voteweb/data.kt:73 | every entry after `put` is the new pair or an entry that was there before |
| AssocLists.LookupEntry | src/main/kotlin/voteweb/data.kt:43 | in a map, every entry is what `get` returns for its key |
| AssocLists.PutNew | src/main/kotlin/voteweb/data.kt:109 | `computeIfAbsent`/`put` of a new key appends one entry at the end |
| AssocLists.PutAt | src/main/kotlin/voteweb/data.kt:109-110 | `put` of a present key replaces that entry where it stands and leaves the order as it was |
| RangeKeys.ParseInt | src/main/kotlin/voteweb/data.kt:71 | a successful `parseInt` gives a 32-bit value read from an optional sign followed by at least one ASCII digit, so a lone `-` or `+` fails; a string of digits parses to its value when that fits in 32 bits and fails otherwise; a `+` or `-` sign followed by digits parses to the signed value when that fits in 32 bits and fails otherwise |
| RangeKeys.ParseIntToString | src/main/kotlin/voteweb/data.kt:71 | every 32-bit integer written in decimal parses back to itself |
| RangeKeys.IndexOf | src/main/kotlin/voteweb/data.kt:67 | `indexOf(c, from)` is the first index at or after `from` holding `c`, or -1 when there is none |
| RangeKeys.ParseRangeKeyIff | src/main/kotlin/voteweb/data.kt:66-70 | a key decodes to (q, o) exactly when it is `range_` + q + `_` + o and q contains no `_`; the option may contain `_` |
| Grouping.ToRangeVotesByQuestionId | src/main/kotlin/voteweb/data.kt:61-83 | the nested loops compute the grouping function `GroupedRangeVotes`, including its parse failure |
| Grouping.RatingsByQuestionSucceeds | src/main/kotlin/voteweb/data.kt:65-76 | a vote's range answers group without error exactly when each of them parses as an integer |
| Grouping.RatingsByQuestionFirstError | src/main/kotlin/voteweb/data.kt:71 | the error reported for a vote is the first range answer, in form order, that does not parse |
| Grouping.GroupSucceeds | src/main/kotlin/voteweb/data.kt:63-81 | grouping succeeds exactly when every range answer of every vote parses |
| Grouping.GroupFirstError | src/main/kotlin/voteweb/data.kt:63-71 | a failed grouping reports the error of the first vote holding a bad rating |
| Grouping.AddAnswerInvariants | src/main/kotlin/voteweb/data.kt:66-74 | one answer keeps a vote's table free of repeated questions, repeated options and empty entries, and free of negative ratings when the answer is not negative |
| Grouping.RatingsByQuestionInvariants | src/main/kotlin/voteweb/data.kt:65-76 | the whole answer loop keeps the same invariants |
| Grouping.RatingsByQuestionKeys | src/main/kotlin/voteweb/data.kt:65-76 | a vote's table has an entry for question q exactly when some answer key names q |
| Grouping.RatingUntouched | src/main/kotlin/voteweb/data.kt:72-73 | answers that do not name (q, o) leave the rating for (q, o) unchanged |
| Grouping.RatingOfAnswer | src/main/kotlin/voteweb/data.kt:66-73 | in a form without repeated keys, the rating grouped for option o of question q is the integer written under `range_<q>_<o>` |
| Grouping.QuestionColumn | src/main/kotlin/voteweb/data.kt:77-80 | the list meant for question q has at most one RangeVote per vote, each for q, and is empty exactly when no vote rated q |
| Grouping.AddRangeVotesColumn | src/main/kotlin/voteweb/data.kt:77-80 | one vote appends to q's list only the RangeVote built from its own ratings for q, and creates q's list exactly when it rated q |
| Grouping.GroupColumn | src/main/kotlin/voteweb/data.kt:63-82 | grouping gives q the list `QuestionColumn(votes, q)`: one RangeVote per vote that rated q, in vote order |
| Grouping.GroupKeys | src/main/kotlin/voteweb/data.kt:63-82 | grouping has a list for q exactly when some vote rated q |
| Weights.ToBallotWeights | src/main/kotlin/voteweb/data.kt:130-144 | the nested loops compute the weight function `BallotWeights` |
| Weights.WinnerRatingSumZero | src/main/kotlin/voteweb/data.kt:134-139 | with no negative rating, the sum of a voter's ratings for elected options is 0 exactly when each such rating is 0 |
| Weights.WellScaledWeightsDefined | src/main/kotlin/voteweb/data.kt:140 | on a positive scale with no negative rating, no weight divides by zero, whatever has been elected |
| Weights.VoteWeightBounds | src/main/kotlin/voteweb/data.kt:140 | a weight lies in (0, 1], and is 1 exactly when the voter gave every elected option 0 or did not rate it |
| Weights.WeightsFromKeys | src/main/kotlin/voteweb/data.kt:133-142 | the weights are keyed by exactly the ids of the votes |
| Weights.WeightsFromLastVote | src/main/kotlin/voteweb/data.kt:141 | a vote whose id no later vote shares sets the weight under that id |
| Weights.WeightsFromUntouched | src/main/kotlin/voteweb/data.kt:141 | votes that do not carry an id leave the weight under that id unchanged |
| Weights.BallotWeightsByLastVote | src/main/kotlin/voteweb/data.kt:130-144 | the weight under a vote's id is the weight of the last vote with that id, so with distinct ids every vote has its own weight |
| Weights.WeightsFromBounds | src/main/kotlin/voteweb/data.kt:130-144 | on a positive scale with no negative rating, every weight in the map lies in (0, 1] |
| Selection.AddVoteRatings | src/main/kotlin/voteweb/data.kt:107-112 | the rating loop of one vote computes `AddWeightedRatings` |
| Selection.NextRangeWinner | src/main/kotlin/voteweb/data.kt:102-128 | the method (weights, candidate table, `isEmpty` test and scan) computes the round function `RoundWinner` |
| Selection.AddWeightedRatingsShape | src/main/kotlin/voteweb/data.kt:107-112 | one vote's ratings keep the candidate table free of repeated options and empty lists |
| Selection.CandidateColumnsNonEmpty | src/main/kotlin/voteweb/data.kt:104-113 | every candidate received at least one rating, so no mean divides by zero, and no option appears twice |
| Selection.AddWeightedRatingColumn | src/main/kotlin/voteweb/data.kt:108-111 | one rating appends `rating * weight` to its option's list unless that option is elected, and touches no other list |
| Selection.AddWeightedRatingsColumn | src/main/kotlin/voteweb/data.kt:107-112 | one vote appends to an unelected option's list exactly its own weighted rating of that option, if it gave one |
| Selection.CandidatesColumn | src/main/kotlin/voteweb/data.kt:105-113 | each candidate's list holds the weighted ratings the votes gave it, one per vote that rated it, in vote order |
| Selection.AddWeightedRatingsKeys | src/main/kotlin/voteweb/data.kt:107-112 | one vote adds its newly rated, unelected options to the end of the candidate order, in its rating order |
| Selection.CandidatesKeys | src/main/kotlin/voteweb/data.kt:105-113 | the candidates come in the order their options were first rated, each once |
| Selection.CandidateOrder | src/main/kotlin/voteweb/data.kt:104-113 | the candidates are exactly the options that some vote rated and that are not yet elected, each once, in first-rated order |
| Selection.TableColumns | src/main/kotlin/voteweb/data.kt:104-113 | the table pairs each candidate with the weighted ratings the votes gave it |
| Selection.ScanFromSpec | src/main/kotlin/voteweb/data.kt:117-125 | the `>=` scan keeps its start when every mean is below it; otherwise it ends on the last entry with the greatest mean |
| Selection.ScanAllNegative | src/main/kotlin/voteweb/data.kt:117-125 | when every mean is negative, the scan returns its start ("", 0.0) |
| Selection.RatedColumnNonNegative | src/main/kotlin/voteweb/data.kt:110 | with no negative ratings or weights, no weighted rating is negative |
| Selection.RoundWinnerNone | src/main/kotlin/voteweb/data.kt:114-115 | a round returns null exactly when every option any vote rated is already elected |
| Selection.RoundWinnerIsBest | src/main/kotlin/voteweb/data.kt:102-128 | on a positive scale with no negative rating, the winner is an unelected rated option whose mean is the mean of its weighted ratings, and no unelected rated option has a greater mean |
| Selection.RoundWinnerTieBreak | src/main/kotlin/voteweb/data.kt:119-125 | among options with the greatest mean, the one first rated last wins: every candidate after the winner in first-rated order has a strictly smaller mean |
| Winners.ToRangeWinners | src/main/kotlin/voteweb/data.kt:85-100 | the `while` loop computes the election function `RangeWinners` |
| Winners.WinnerOptionsMembers | src/main/kotlin/voteweb/data.kt:95 | the set of elected options holds exactly the winners' options |
| Winners.WinnerOptionsCount | src/main/kotlin/voteweb/data.kt:89 | with no repeated option, the set of elected options is as large as the list of winners |
| Winners.NextWinnerFresh | src/main/kotlin/voteweb/data.kt:90-95 | a round's winner is never an option already elected, so the winners stay free of repeats |
| Winners.WinnersFromSpec | src/main/kotlin/voteweb/data.kt:89-97 | the loop only extends its winners: each new winner is the winner of the round run with the ones before it, no option repeats, the count stays within the declared options, and a loop that stops short stops on a null round |
| Winners.RangeWinnersSpec | src/main/kotlin/voteweb/data.kt:85-100 | at most one winner per declared option; no option elected twice; each winner wins the round run with the earlier ones; when fewer winners than options are elected, every rated option was elected |
| BallotResults.ToBallotResult | src/main/kotlin/voteweb/data.kt:34-59 | the method computes the tally function `TallyBallot`, including the parse failure |
| BallotResults.ToQuestionResults | src/main/kotlin/voteweb/data.kt:39-49 | the free-text loop computes `QuestionResults` |
| BallotResults.CollectAnswers | src/main/kotlin/voteweb/data.kt:41-47 | the answer loop computes `AnswersUnder` |
| BallotResults.ToRangeQuestionResults | src/main/kotlin/voteweb/data.kt:51-56 | the range-question loop computes `RangeResults` |
| BallotResults.QuestionColumnSound | src/main/kotlin/voteweb/data.kt:77-80 | grouped RangeVotes rate each option at most once and never negatively, when no form answer is negative |
| BallotResults.GroupedLists | src/main/kotlin/voteweb/data.kt:52 | the list looked up for a question id exists exactly when some vote rated that question, and it is that question's column |
| BallotResults.GroupedTallyable | src/main/kotlin/voteweb/data.kt:51-54 | every list handed to `toRangeWinners` is well scaled for its question and rates each option at most once |
| BallotResults.TallyFailure | src/main/kotlin/voteweb/data.kt:37 | the tally fails exactly when some range answer is not an integer, with grouping's error |
| BallotResults.AnswersUnderAppend | src/main/kotlin/voteweb/data.kt:42-47 | the answers of two runs of votes are the two runs' answers joined |
| BallotResults.AnswersUnderComplete | src/main/kotlin/voteweb/data.kt:42-47 | every answer a vote holds under the key is collected |
| BallotResults.AnswersUnderSound | src/main/kotlin/voteweb/data.kt:42-47 | nothing is collected that no vote holds under the key |
| BallotResults.AnswersUnderCount | src/main/kotlin/voteweb/data.kt:42-47 | at most one answer per vote, and one per vote exactly when every vote answered |
| BallotResults.QuestionResultsSpec | src/main/kotlin/voteweb/data.kt:39-49 | one free-text result per ballot question, in ballot order, each holding that question's text and the answers under `question_<id>` |
| BallotResults.RangeResultsMembers | src/main/kotlin/voteweb/data.kt:51-56 | there are no more range results than range questions, and a question has a result exactly when it has range votes |
| BallotResults.RangeResultsIndices | src/main/kotlin/voteweb/data.kt:51-56 | result k is for the range question at ballot position idx[k]; the positions strictly increase, so results follow ballot order with no repeats; and a position is listed exactly when its question has range votes |
| BallotResults.RangeResultsEntries | src/main/kotlin/voteweb/data.kt:51-56 | each range result holds the winners elected from its question's list of range votes |
| BallotResults.TallyBallotValue | src/main/kotlin/voteweb/data.kt:34-59 | a tally whose ratings all parse succeeds with the ballot, its free-text results and the range results of the grouped votes |
| BallotResults.TallyQuestions | src/main/kotlin/voteweb/data.kt:39-49 | the whole tally's free-text results: one per question, in order, with the answers under its key |
| BallotResults.TallyRangeQuestions | src/main/kotlin/voteweb/data.kt:51-56 | a range question gets a result exactly when some vote rated it |
| BallotResults.TallyRangeOrder | src/main/kotlin/voteweb/data.kt:37-56 | the whole tally's range results come in ballot order, one for each range question position that some vote rated and none for the others |
| BallotResults.TallyRangeWinners | src/main/kotlin/voteweb/data.kt:51-54 | a range question's winners are elected from the votes that rated it, in vote order |
| Examples.TestBallotWeights | src/test/kotlin/voteweb/datatest.kt:22-32 | the test's weights: every vote weighs 1 before any election; once a is elected, v1 weighs 5/9 and v2 weighs 5/6 |
| Examples.TestFirstRound | src/test/kotlin/voteweb/datatest.kt:9-19 | the first round elects a with mean 2.5 |
| Examples.TestSecondRound | src/test/kotlin/voteweb/datatest.kt:9-19 | the second round elects b with mean 10/9 |
| Examples.TestThirdRound | src/test/kotlin/voteweb/datatest.kt:9-19 | the third round finds no candidate |
| Examples.TestRangeWinners | src/test/kotlin/voteweb/datatest.kt:9-19 | the test's expected winners: a with 2.5, then b with 10/9; c, which nobody rated, is never elected |
| Examples.NegativeRatingStalls | src/main/kotlin/voteweb/data.kt:117-126 | with only a negative rating, a round elects the empty option with mean 0, and does so again once "" counts as elected, so the winner set stops growing |

## Left out

- `ui.kt` and `main.kt` are not part of this model. They hold the HTTP routes (Javalin), the storage (MapDB), the Mustache templates and form decoding, which are all I/O.
- `Ballot.id` and `Ballot.updatedAt` default to a random ULID and the clock. The model takes both as given fields.
- `RangeQuestion.getOptionsStr` and its `@JsonIgnore` annotation are presentation only and are left out.
- Floating point: `Double` arithmetic is modelled on exact reals. The test's `1.1111111111111112` is 10/9 in the model, and rounding is not modelled.
- `Integer.parseInt` also accepts non-ASCII Unicode decimal digits. `RangeKeys.ParseInt` accepts only `0`-`9`.
- The data.kt loops are written as the Kotlin code iterates. Those in `toBallotResult` are split into one method per loop. The model updates `seq` and `map` values where the source mutates lists and maps in place, so aliasing is not modelled.
- Weights.ToBallotWeights and Selection.NextRangeWinner: both require `WeightsDefined`, i.e. that no weight divides by zero. Kotlin's `Double` would yield an infinity or NaN weight there, which the model does not represent.
- Winners.ToRangeWinners: requires a positive `maxRating` and no negative ratings. Outside that domain the Kotlin loop need not terminate: a round where every candidate's mean is negative elects the empty option `""` again and again (see `Examples.NegativeRatingStalls`). It also requires `RatingsAreMaps`, i.e. no option rated twice in one RangeVote. That holds for every Kotlin input, because `RangeVote.ratings` is a `Map` (data.kt:21). The model needs it only because it represents the ratings as a list of pairs.
- BallotResults.ToBallotResult: requires every range question's `maxRating` to be positive and no range answer to be negative, for the same reason. The ballot form always builds range questions with the default `maxRating` of 5 (`ui.kt:89` with `data.kt:14`), so the first condition holds for every ballot it creates. The vote form stores any non-empty text under a `range_` key (`ui.kt:99-110`), so a negative rating can get through.
- BallotResults.ToRangeQuestionResults: requires `Tallyable` for the same reason, and `BallotResults.GroupedTallyable` proves that grouping establishes it.
- Ties: the code elects, among equal greatest means, the option that was first rated last, because the scan compares with `>=`. A rule in which the first-declared option wins could pick a different winner. The model follows the code and states the code's rule in `Selection.RoundWinnerTieBreak`.
