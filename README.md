# Major-guide scoring and lookup, modelled in Dafny

This project models the in-memory logic of a small web application that helps
a student choose a computer-science major. It covers two parts:

- The quiz. `POST /test` validates the submitted answers and sums each
  well-formed `[category, delta]` answer into one of seven categories:
  Analytical, Data, AI, SoftwareDev, Hardware, Security and Creative. It then
  turns each sum into a percentage of that category's fixed base score.
  `GET /test_ans` rebuilds the seven scores from the query string, ranks every
  major by a weighted dot product and keeps the first fifteen. It then looks up
  their descriptions.
- The lookups over the field data. `getFieldInfo` builds a major's page: its
  introduction, its parent step in the path (`topSubfield`) and its resolved
  subfields. `getDescriptions` is an order-preserving lookup that drops unknown
  titles. `recommendMajors` scores and stably sorts the majors.

Modules, one per file:

- `Wrappers` (wrappers.dfy): `Option`.
- `FieldLookup` (field_lookup.dfy): `getFieldInfo`, `getDescriptions`, and the
  first-match `find` they share.
- `MajorRanking` (major_ranking.dfy): `recommendMajors` and the stable
  descending sort. `Array.prototype.sort` is a library call, so it is given as
  a function: an insertion sort that keeps equal scores in input order.
- `QuizScoring` (quiz_scoring.dfy): the `POST /test` scoring.
- `TestResults` (test_results.dfy): the `GET /test_ans` handler minus rendering.

The loops of the source are methods with `while` loops. Each is proved against
a specification function, and lemmas state what the source promises about that
function. Numbers are `real`. `Number.isFinite` is the variant
`Num = Finite(value) | NonFinite`. `Math.round` is `floor(x + 1/2)`, which
rounds halves toward +infinity (section 21.3.2.28 of ECMA-262, 2023 edition).
Each parsed data file is a parameter:

- the subfield array is a `seq<SubfieldRecord>`;
- the weight object is a `seq<MajorWeights>` in key order.

`JSON.parse(answer.e)` followed by `Number(parsed[1])` is a decoder parameter
`decode: string -> Decoded`. It returns `Malformed`, `NotPair`,
`ConversionThrows` or `Pair(target, delta)`. `ConversionThrows` stands for a
2-element array whose second element makes `Number()` throw, for example an
object whose `toString` is not callable.

Two modelling choices:

- `getFieldInfo`'s not-found result carries the requested title inside its
  message text (files_work.js:28). The model keeps the title itself:
  `NotFound(title)`.
- `getDescriptions` passes the record's `introduction` through as it is (files_work.js:122). It may
  be absent, and it is not replaced by `""` as `getFieldInfo` does. So
  `Description.description` is an `Option<string>`.

## Model

| member | source | states |
|---|---|---|
| QuizScoring.ScoreSubmission | index.js:50-105 | A submission that is not an array or is empty is rejected as invalid, and only those are. A valid submission fails as a whole, through the outer `catch`, exactly when some answer's delta makes `Number()` throw. Otherwise the result has all seven categories, each equal to `Math.round(sum / base * 100)` of the sum of the deltas of the well-formed answers that target it. |
| QuizScoring.Accept | index.js:63-83 | An answer is used exactly when it is present with a string `e`, decodes to a pair, names one of the seven categories and has a finite delta. Its category's name and its delta come from the decoded pair. A delta that makes `Number()` throw is never used; ScoreSubmission turns it into a failure. |
| QuizScoring.Tally | index.js:63-85 | One pass of the loop body over the accumulators. It never adds or removes a key. |
| QuizScoring.Accumulate | index.js:57-86 | The accumulators after the loop has seen a prefix of the answers, starting from the zero literal. All seven keys are always present. |
| QuizScoring.TallyTouchesOneCategory | index.js:63-85 | A skipped answer leaves every accumulator unchanged. A used one adds its delta to its own category only; the other six are unchanged. |
| QuizScoring.AccumulateIsTotal | index.js:57-86 | After the loop, every accumulator is the sum of the deltas of the used answers that target it, starting from the zero literal. |
| QuizScoring.TotalPermutation | index.js:61-86 | Any reordering of the answers gives the same sums, so the order of answers does not matter. |
| QuizScoring.NothingAcceptedSumsToZero | index.js:57-91 | A list in which no answer is used gives sum 0 and percentage 0 in every category. |
| QuizScoring.TwoHalfDataAnswers | index.js:61-91 | Two answers `["Data", 500]` and one that does not parse give Data 100 and every other category 0. |
| QuizScoring.PercentagesAreNotClamped | index.js:88-91 | Nothing clamps the result: one answer can give SoftwareDev 200 and another Analytical -100. |
| QuizScoring.Round | index.js:90 | `Math.round` returns the integer `r` with `r - 1/2 <= x < r + 1/2`, so halves go toward +infinity. |
| QuizScoring.Percent | index.js:88-91 | The normalisation `Math.round(acc / base * 100)`. The result `r` is the integer with `(r - 1/2) * base <= 100 * acc < (r + 1/2) * base`, that is, the nearest percentage with halves rounded up, and nothing clamps it. |
| QuizScoring.CategoryNamed | index.js:59-81 | The allowed-target test recognises exactly the seven key names, and gives back the category so named. |
| QuizScoring.KeyIndex | index.js:57 | Every category has a position in the key order of the score object. |
| QuizScoring.CategoriesAreTheSevenKeys | index.js:57 | The score object has seven distinct keys, and every category is one of them. |
| QuizScoring.BaseScore | index.js:58 | Every base score in the table is positive, so the division is defined. |
| QuizScoring.Zeros | index.js:57 | The accumulators start at 0 for all seven categories. |
| TestResults.RebuildScores | index.js:110-117 | The rebuilt scores have all seven keys. Each is the query's number when finite, and 0 when it is missing or non-finite. |
| TestResults.RebuiltScore | index.js:115-116 | One key's rebuilt score. It is the query's number when that is finite, and otherwise 0. |
| TestResults.QueryOf | index.js:94-99 | The redirect's query string with each percentage as a number under its key name. Serialisation is not modelled. |
| TestResults.RebuildRoundTrip | index.js:94-117 | With the query string abstracted to numbers, rebuilding from the redirect's query gives back exactly the seven percentages that the scoring produced. This states that the abstraction is consistent; it says nothing about `URLSearchParams` serialisation or `Number()` parsing, which are not modelled. |
| TestResults.RebuiltScores | index.js:110-117 | The rebuilt score object has all seven keys, each with its rebuilt value. |
| TestResults.UserScores | index.js:110-119 | The object handed to `recommendMajors` has seven pairwise distinct metric names. Every category appears among them with its own score. |
| TestResults.TopMajors | index.js:123-125 | The first `min(15, n)` ranked majors, in ranked order. |
| TestResults.TopTitles | index.js:121-125 | The counted loop collects exactly the majors of the first `min(15, n)` ranked entries, in ranked order. |
| TestResults.ProgressItems | index.js:127-130 | There are seven progress items, one per key in key order, each with that key's score. |
| TestResults.ShowResults | index.js:108-134 | The page shows seven progress items with the rebuilt scores. The suggested majors are exactly `getDescriptions` of the first `min(15, n)` majors of the stable descending ranking of the rebuilt scores. So there are at most 15, and each is a major of the weight file that has a subfield record. |
| FieldLookup.FindByTitle | files_work.js:26 | `find` returns the first record whose title equals the one asked for, and finds nothing exactly when no record has that title. |
| FieldLookup.OrEmpty | files_work.js:47-60 | The default to `""` of an optional string (logical or): an absent member and `""` both give `""`. |
| FieldLookup.SubfieldTitles | files_work.js:40-41 | The subfield titles a record lists. A member that is not an array lists none. |
| FieldLookup.TopSubfield | files_work.js:31-36 | `topSubfield` is null exactly when `way2place` is absent or empty. It is the only step of a one-step path and the second-to-last step of a longer one, so it is always a step of the path. |
| FieldLookup.ResolveSubfield | files_work.js:42-54 | A subfield entry always carries the requested title. Its short introduction comes from the first record with that title, or `""` when that record has none, or is "(No information found)" when no record matches. |
| FieldLookup.GetFieldInfo | files_work.js:21-63 | Not-found, carrying the requested title, exactly when no record has that title. Otherwise the page is built from the first such record: its introduction, its `topSubfield`, and one resolved subfield per listed title, in the same order. |
| FieldLookup.Descriptions | files_work.js:118-126 | What `getDescriptions` returns: for each title in order, the first record with that title as `{title, introduction}`, and nothing for a title without a record. Its properties are the lemmas below. |
| FieldLookup.GetDescriptions | files_work.js:115-129 | The nested loops with `break` compute exactly `Descriptions(titles, data)`. |
| FieldLookup.DescriptionsMatchTitles | files_work.js:118-126 | The output titles are exactly the input titles that some record carries, in input order. The output is no longer than the input, and each entry holds the first matching record's introduction. |
| FieldLookup.FoundTitlesSubsequence | files_work.js:118-126 | The kept titles are a subsequence of the input. A title is kept if and only if it was asked for and some record has it. |
| FieldLookup.FoundTitlesAreFound | files_work.js:118-126 | Every kept title was asked for and has a record, and every requested title that has a record is kept. |
| MajorRanking.RecommendMajors | files_work.js:88-108 | The result is the stable descending sort of one `{major, score}` entry per weight-file row: sorted non-increasing, a permutation of those entries and of the majors, with equal scores in file order. |
| MajorRanking.WeightOf | files_work.js:97 | The default of a weight lookup to 0 (logical or): a missing weight counts as 0. |
| MajorRanking.WeightedScore | files_work.js:93-100 | The running `score` of the inner loop: the sum over the user's metrics of user value times weight. Its properties are the two lemmas below. |
| MajorRanking.Scored | files_work.js:92-103 | The unsorted `results` array: one `{major, score}` per weight-file row, in row order. |
| MajorRanking.UnweightedMajorScoresZero | files_work.js:95-100 | A missing weight counts as 0: a major whose weights name none of the user's metrics scores 0. |
| MajorRanking.WeightedScoreLinear | files_work.js:95-100 | The score is the dot product: raising one user value by `d` raises the score by `d` times that metric's weight (0 when missing). |
| MajorRanking.SortByScore | files_work.js:105 | `results.sort((a, b) => b.score - a.score)`, given as an insertion sort. That it is sorted, a permutation and stable is proved in the lemmas below. |
| MajorRanking.Insert | files_work.js:105 | One insertion step: an entry goes before the first entry that does not score more than it. |
| MajorRanking.SortByScoreSorted | files_work.js:105 | The sort's output is non-increasing by score. |
| MajorRanking.SortByScorePermutes | files_work.js:105 | The sort's output is a permutation of its input. |
| MajorRanking.SortByScoreKeepsMajors | files_work.js:92-105 | The sorted majors are a permutation of the unsorted ones. |
| MajorRanking.SortByScoreStable | files_work.js:105 | The sort is stable: for every score, the entries with that score appear in the same relative order as in the input. |
| MajorRanking.RankingHasEachMajorOnce | files_work.js:92-103 | When the weight file names each major once, as an object's keys do, the ranking lists every major exactly once and nothing else. |
| MajorRanking.InsertSorted | files_work.js:105 | Inserting into a non-increasing list keeps it non-increasing. |
| MajorRanking.InsertPermutes | files_work.js:105 | Insertion adds exactly the inserted entry, and its major. |
| MajorRanking.InsertStable | files_work.js:105 | An inserted entry goes before the entries with an equal score that were already in the list, which is what makes the sort stable. |

## Left out

- Express setup, routing, middleware, `res.render`, `res.redirect` and HTTP status codes (index.js:1-14, 143-149). The handlers' rendering and redirect calls are replaced by returned values (`Outcome`, the progress items and the descriptions).
- Reading and parsing the data files, and `getFieldInfo`'s catch-all error result (files_work.js:23-24, 64-71, 79-80, 89, 116). The parsed tables are parameters; read and parse failures are I/O.
- `readTestData` (files_work.js:78-81), because it only reads and parses a file. The `GET /test` page is left out for the same reason.
- `URLSearchParams` serialisation and `Number()` coercion of query strings (index.js:94-99, 115). Only the throw of `Number()` on an answer's delta (index.js:79) is modelled, as `ConversionThrows`. The query arrives as numbers (`map<string, Num>`), and a missing key is modelled as absent from that map.
- QuizScoring.Accept: a 2-element array whose first element is not a string, and whose second element converts without throwing, is folded into `NotPair`. It is skipped like an unknown category, which gives the same effect. If the conversion throws, the decoder gives `ConversionThrows` whatever the first element is, because `Number()` runs before the target test.
- MajorRanking.RecommendMajors: `userScores[metric] || 0` and `weights[metric] || 0` are modelled only for a missing weight. NaN user values or weights do not occur over `real`.
- QuizScoring.Round: IEEE-754 detail is not modelled, so there is no rounding error in `/` and `*`, and no NaN or overflow. Arithmetic is exact over `real`.
- The key order of `for ... in` over the weight object is taken as the row order of `table`. JavaScript lists integer-like keys first, in ascending order; that reordering is not modelled.
- A record's `title` is always a string here. A record without a title never matches a string in the source either.
- test.js, a one-off script that prints titles, and all `console` logging.
