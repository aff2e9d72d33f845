# mental-health-quiz-2 in Dafny

A model of the logic of *mental-health-quiz-2*. It is a Next.js wellbeing questionnaire for care-home staff. A respondent answers Likert questions (1 to 5), grouped into dimensions such as workload, recognition and management. The answers are validated and scored per dimension, stored in Supabase, and turned into an AI-written report.

The model covers the scoring, validation and decision logic around that flow:

- **Catalog and normalisation.** `Questions` (lib/questions.ts) holds `normalizeScore` and the question catalog as constant data. Dimensions are written as indices into the dimension list.
- **The aggregators.** Each makes its own choices, and each has its own module:
  - `SubmitScoring`: `computeScores` and `POST` of app/submit/route.ts.
  - `QuizUtils`: `computeDimensionScores` of lib/quizUtils.ts.
  - `QuizScreen`: the quiz page app/quiz/page.tsx.
  - `QuizComponent`: components/quiz/QuizPage.tsx.
  - `HomeQuiz`: the home page app/page.tsx.
  - `ResultsSummary`: components/Results.tsx.
- **Validators and request handling:**
  - `Schemas`: the zod schemas, as total functions over a JSON value model (`Js`).
  - `ApiSubmit`: app/api/submit/route.ts.
  - `ReportRoute`: app/api/report/route.ts.
  - `ApiClient`: the client dispatch of lib/api.ts.
  - `ReportPrompt`: the prompt builder lib/reportPrompt.ts.
- **State that changes step by step** is modelled as classes with `modifies` clauses:
  - `QuizFlow.Flow`: the hook hooks/useQuizFlow.ts.
  - `QuizScreen.QuizPage`, `HomeQuiz.Quiz`, `ReportGenerator.Panel`, `Header.Menu` and `CookieConsent.Banner`: the pages' and components' state.
  - Loops in the source are methods with loop invariants, proved against the functions that specify them. Examples: the id index and the bucketing loop of app/submit/route.ts, and the per-dimension loops of the pages.
- **Small rules:**
  - `Likert`: components/LikertScale.tsx.
  - `ResultsRadar` and `RadarChart`: the two radar charts.
  - `TextUtils`: `cleanText` of lib/utils.ts.
  - `Routing`: the request gate of proxy.ts and app/middleware.ts.
  - `Header`: the header's active-link rule and mobile menu.
  - `CookieConsent`: the cookie banner.

**JavaScript semantics, written out:**

- `Math.round` is `Floor(x + 0.5)` (`Common.Round`).
- `trim` and `\s` use JavaScript's white-space set (`Common.IsJsWhitespace`).
- `JSON.stringify` keeps the keys in insertion order; objects are association lists.
- Scores are exact rationals (`real`).

**External behaviour is passed in as parameters:**

- the outcomes of Supabase, OpenAI and `fetch` calls are outcome values;
- `JSON.parse` of a text is a `string -> Option<Json>` function;
- the Unicode letter class `\p{L}` is a `char -> bool` predicate;
- number-to-text formatting is a `real -> string` function.

A few rules are predicates with no contract of their own, because they are the rule:

- `QuizScreen.CanSubmit`, `QuizComponent.SubmitEnabled`, `ReportPrompt.HasHighLoad`, `Header.IsActive`, `Routing.Matched`.

The lemmas listed beside them in the table below state their consequences.

Behaviour of the code as written that the model states outright:

- Results.tsx keys its sums by slugs such as "charge", which never equal a catalog dimension, so every score it shows is 0 (`ResultsSummary.CatalogScoresZero`).
- The report route answers 500, not 502, when the model's content is the JSON text `null` (`ReportRoute.NullContentIsServerError`).
- Pressing an arrow forward on an unanswered Likert question selects 2, not 1 (`Likert.UnansweredMovesToSecond`).
- Under the matcher of proxy.ts, the `/_next/static` cache rule never runs (`Routing.NextStaticUnmatched`).
- The middleware redirects a request without `x-forwarded-proto`, which the proxy lets through (`Routing.HttpsTests`).
- The cookie banner also shows when the stored choice is an empty text (`CookieConsent.Banner.Mount`).
- A report entry with an empty label is not completed from its dimension, because `??` only replaces null and undefined (`ReportRoute.EmptyLabelIncomplete`).

Two pages duplicate one component's helpers:

- app/page.tsx defines `getColor`, `getAdvice` and the chart mapping exactly as components/quiz/QuizPage.tsx does. They are modelled once, as `QuizComponent.GetColor`, `QuizComponent.GetAdvice` and `QuizComponent.ChartData`.
- The "final" phase of the hook and the progress bar of app/page.tsx are presentation, and are not modelled separately.

## Model

| member | source | states |
|---|---|---|
| Questions.NormalizeScore | lib/questions.ts:365-374 | the unanswered sentinel 0 scores 0 whatever the scale and inversion |
| Questions.NormalizeEndpoints | lib/questions.ts:372-373 | not inverted, min scores 0 and max scores 100; inverted, min scores 100 and max scores 0 |
| Questions.NormalizeInversion | lib/questions.ts:372-373 | for an answered value, the inverted score is 100 minus the plain score |
| Questions.NormalizeInRange | lib/questions.ts:372-373 | an answered value within [min, max] of an upward scale scores within [0, 100], inverted or not |
| Questions.NormalizeMonotone | lib/questions.ts:372-373 | over answered values the plain score strictly increases and the inverted score strictly decreases |
| Questions.FilterByDimension | lib/questions.ts:377-379 | the filter returns at most as many questions as it is given |
| Questions.FilterByDimensionSpec | lib/questions.ts:377-379 | on a sequence numbered in increasing order, a question is in the result iff it is in the input with dimension d, and the result keeps input order |
| Questions.FilterHit | lib/questions.ts:377-379 | as above, and the result is non-empty whenever some input question has dimension d |
| Questions.FilterProperScales | lib/questions.ts:377-379 | filtering keeps every scale upward (min < max) |
| Questions.QuestionsByDimensionSpec | lib/questions.ts:377-379 | `getQuestionsByDimension(d)` holds exactly the catalog questions of dimension d, in catalog order, and at least one for every listed dimension |
| Questions.CatalogShape | lib/questions.ts:24-26 | 38 questions and 13 dimensions; question i is numbered i + 1; every question is on the 1 to 5 scale and has a listed dimension |
| Questions.CatalogNumbersIncrease | lib/questions.ts:54-362 | question numbers strictly increase along the catalog |
| Questions.IdKeysIncreasing | lib/questions.ts:54-362 | the ids, read as (group, item) numbers, strictly increase along the catalog |
| Questions.CatalogIdsDistinct | lib/questions.ts:54-362 | no two catalog questions share an id |
| Questions.DimensionsDistinct | lib/questions.ts:37-51 | the 13 dimension names are pairwise distinct |
| Questions.FirstOfDimensionSpec | lib/questions.ts:37-362 | each dimension, in list order, has a recorded catalog index whose question carries that dimension |
| Questions.DimensionsUsed | lib/questions.ts:37-362 | every listed dimension has at least one catalog question |
| Questions.OnlyThreeInverted | lib/questions.ts:101-295 | a catalog question is inverted iff its id is q2_2, q2_4 or q9_3 |
| Questions.NoStressDimension | lib/questions.ts:37-51 | no catalog question has the dimension "Stress" |
| Questions.CatalogProperScales | lib/questions.ts:24-26 | every catalog scale runs upward (min < max) |
| SubmitScoring.IdMapSpec | app/submit/route.ts:49-50 | with distinct ids, the dictionary maps every question's id to that question and holds no other key |
| SubmitScoring.IndexById | app/submit/route.ts:49-50 | the loop that fills the dictionary yields the map of every catalog id to its question |
| SubmitScoring.LookupSpec | app/submit/route.ts:53 | the dictionary finds an id iff it is a catalog id, and then returns that catalog question |
| SubmitScoring.LookupProper | app/submit/route.ts:53-58 | a found question is on the 1 to 5 scale, so min < max |
| SubmitScoring.UnknownIdNotFound | app/submit/route.ts:53-54 | an id outside the catalog is not found |
| SubmitScoring.UnknownIdRejected | app/submit/route.ts:53-54 | an answer whose id is not found makes the whole scoring fail, so no scores are produced |
| SubmitScoring.ScoreAnswer | app/submit/route.ts:52-76 | a failing answer fails with an error naming its own questionId |
| SubmitScoring.ScoreAnswerSpec | app/submit/route.ts:56-75 | a catalog answer scores iff its value is within 1..5; the entry keeps questionId and value and adds the catalog dimension, normalizeScore on the 1 to 5 scale with the question's inversion, and that flag; the score is within [0, 100] |
| SubmitScoring.ScoreErrorMessage | app/submit/route.ts:54-57 | the two texts thrown by the scoring, "Unknown questionId: " and "Out-of-range value for " followed by the id; a rule, used by ScoreAnswer |
| SubmitScoring.Lookup | app/submit/route.ts:53 | the dictionary lookup of an id; its meaning is stated by LookupSpec and LookupProper |
| SubmitScoring.PerQuestion | app/submit/route.ts:52-76 | the map over the answers, stopping at the first failing one; stated by PerQuestionOk and PerQuestionFirstError |
| SubmitScoring.PerQuestionOk | app/submit/route.ts:52 | the map succeeds iff every answer scores, and then has one entry per answer, in input order |
| SubmitScoring.PerQuestionFirstError | app/submit/route.ts:52-58 | a failure carries the error of the first failing answer, all earlier ones having scored |
| SubmitScoring.PerQuestionStops | app/submit/route.ts:52-58 | once the answer at position n - 1 fails after a successful prefix, the whole map fails with its error |
| SubmitScoring.PerQuestionPrefixErr | app/submit/route.ts:52-58 | the same error is the result on the prefix ending at that answer and on the whole input |
| SubmitScoring.ScoreAll | app/submit/route.ts:52-76 | the loop over the answers returns the map's result |
| SubmitScoring.ScoreOne | app/submit/route.ts:53-75 | the callback, run against the catalog dictionary, returns the callback's specified result |
| SubmitScoring.FindKey | app/submit/route.ts:80 | a found key index holds that dimension; not found means no entry has it |
| SubmitScoring.Push | app/submit/route.ts:80-81 | one push into the bucket: the dimension's list grows by the value, or a new key is added last; stated by PushKeys and PushValues |
| SubmitScoring.BucketSpec | app/submit/route.ts:78-82 | the bucket has one key per dimension with at least one entry, in order of first appearance, and under each key every normalised score of that dimension, in order, and at least one |
| SubmitScoring.BucketKeys | app/submit/route.ts:78-82 | the bucket's keys are the deduplicated dimensions of the entries |
| SubmitScoring.BucketValues | app/submit/route.ts:78-82 | each key holds every score of its dimension, in order, and at least one |
| SubmitScoring.PushKeys | app/submit/route.ts:80-81 | a push adds its dimension as a new last key only when it was absent |
| SubmitScoring.PushValues | app/submit/route.ts:80-81 | pushing one more entry keeps the bucket invariant |
| SubmitScoring.ValuesAbsent | app/submit/route.ts:78-82 | a dimension that no entry has gets no values |
| SubmitScoring.NoRowsNoValues | app/submit/route.ts:78-82 | with no entry of a dimension, its value list is empty |
| SubmitScoring.DuplicatesCountTwice | app/submit/route.ts:79-82 | an answer repeated twice is pushed twice into its dimension's bucket |
| SubmitScoring.Buckets | app/submit/route.ts:78-82 | the bucket loop yields the specified bucket |
| SubmitScoring.Means | app/submit/route.ts:84-88 | the scores loop yields, per key, the rounded mean of its bucket |
| SubmitScoring.ComputeScores | app/submit/route.ts:48-91 | the method returns the specified `perQuestion` and `scores`, or the first error thrown |
| SubmitScoring.ScoresInRange | app/submit/route.ts:84-88 | every computed score lies within [0, 100] |
| SubmitScoring.RowsInRange | app/submit/route.ts:63-68 | every scored entry lies within [0, 100] |
| SubmitScoring.RowInRange | app/submit/route.ts:63-68 | one scored entry lies within [0, 100] |
| SubmitScoring.ValuesInRange | app/submit/route.ts:78-82 | bucket values of entries within [0, 100] stay within [0, 100] |
| SubmitScoring.AnswerRows | app/submit/route.ts:137-144 | one `quiz_answers` row per scored entry, all carrying the submission id |
| SubmitScoring.SubmissionWrite | app/submit/route.ts:118-130 | the quiz_submissions row: the trimmed pseudo and the four profile fields and comment (the context columns are not modelled); used by Persist |
| SubmitScoring.Post | app/submit/route.ts:94-165 | the reply is 200 or 400, 400 exactly for an error; an invalid payload gives 400 with its message and writes nothing; a valid one follows the handler outcome in full, so a failed insert gives 400 with the database message after exactly the writes attempted up to it; a persisted reply needs configuration and three successful inserts |
| SubmitScoring.Handle | app/submit/route.ts:99-159 | consent false gives 400 "Consent required" before scoring; a scoring error gives 400 with its message; missing configuration gives the scores with persisted false and no writes; otherwise the three inserts run as Persist states, each failure ending with 400, its database message and the writes attempted so far |
| SubmitScoring.Persist | app/submit/route.ts:113-159 | the submission insert always comes first; a failed submission insert gives 400 with its message after that one write; a failed answers insert gives 400 with its message after the submission and answer writes; a failed scores insert gives 400 with its message after all three writes; 200 iff all three succeed, and then the reply carries the submission id, the scores and persisted true |
| Schemas.ParseAnswer | app/submit/route.ts:7-10 | an accepted answer meets the route's answer rules (integer value; on the API route also an id of at least 2 characters and a value within 1..5) and carries the item's questionId and value |
| Schemas.ParseAnswers | app/submit/route.ts:29 | the array parses iff every item parses; then one answer per item, in order; a refusal names an item that does not parse |
| Schemas.ParseProfile | app/submit/route.ts:12-18 | an accepted profile has non-empty facility, job, age and seniority, and on the API route a comment of at most 2000 characters |
| Schemas.ParsePayload | app/submit/route.ts:21-41 | an accepted payload meets every rule: pseudo of 2 to 32 (API route: 64) letters, digits, '_' or '-', at least one answer, each valid, a valid profile; its pseudo, consent and answers are those of the JSON, its profile is the parse of the JSON's profile, and the context passed its check |
| Schemas.ParseEncode | app/api/submit/route.ts:8-42 | every payload that meets the schema, sent as JSON, is read back unchanged, so the parser accepts exactly the valid payloads |
| Schemas.ParseEncodeAnswers | app/submit/route.ts:29 | valid answers, encoded, parse back unchanged |
| Schemas.ParseAnswersAll | app/submit/route.ts:29 | items that each parse to the given answers parse, as an array, to exactly those answers |
| Schemas.ParseEncodeProfile | app/api/submit/route.ts:13-19 | a valid profile, encoded, parses back unchanged |
| Schemas.ParsePayloadAccepts | app/api/submit/route.ts:27-42 | a body whose members each meet their schema parses to the payload they describe |
| Schemas.PayloadMembers | app/api/submit/route.ts:27-42 | an encoded payload exposes its pseudo, answers, consent, profile and an empty context as members |
| Schemas.EmptyAnswersRejected | app/submit/route.ts:29 | an empty answers array is refused |
| Schemas.NonIntegerRejected | app/submit/route.ts:9 | one answer whose value is not an integer makes the whole payload fail |
| QuizUtils.AnsweredInNonEmpty | lib/quizUtils.ts:20-21 | a dimension that has an answered question has at least one normalised score, so its count is at least 1 |
| QuizUtils.DimensionScoresSpec | lib/quizUtils.ts:10-29 | the output lists the answered dimensions once each, in order of their first answered catalog question; a dimension appears iff one of its catalog questions has a response (0 included); its count is the number of its answered questions, at least 1, and its average the rounded mean of their normalised scores |
| QuizUtils.AnsweredDimsMembers | lib/quizUtils.ts:15-21 | a dimension is among the answered dimensions iff some question of it has a response |
| QuizUtils.ForeignKeysIgnored | lib/quizUtils.ts:15-16 | two response records that agree on the catalog ids give the same output, so keys outside the catalog are ignored |
| QuizUtils.AnsweredAgree | lib/quizUtils.ts:15-17 | responses that agree on the questions walked give the same answered dimensions and scores |
| QuizUtils.AverageInRange | lib/quizUtils.ts:19-26 | with every response on the 1 to 5 scale, every average lies within [0, 100] |
| QuizUtils.CatalogOnScale | lib/quizUtils.ts:19 | responses within 1..5 are within each catalog question's scale and non-zero |
| QuizUtils.AnsweredInBounds | lib/quizUtils.ts:19 | on-scale answered values normalise within [0, 100] |
| QuizUtils.FullCounts | lib/quizUtils.ts:20-21 | with every catalog question answered, each count is the number of catalog questions of that dimension |
| QuizUtils.AllAnsweredCount | lib/quizUtils.ts:20-21 | with every question answered, a dimension's answered scores are as many as its questions |
| QuizUtils.FindGroup | lib/quizUtils.ts:20 | a found group holds that dimension; not found means no group has it |
| QuizUtils.ComputeDimensionScores | lib/quizUtils.ts:10-29 | the loop and the final map return the specified output |
| QuizUtils.GroupResponses | lib/quizUtils.ts:13-22 | after the loop, grouped holds one group per answered dimension, in first-answer order, with the total and count of its answered scores |
| QuizUtils.GroupsGiveScores | lib/quizUtils.ts:24-28 | mapping the filled groups to rounded averages gives the specified output |
| QuizUtils.StepAnswered | lib/quizUtils.ts:16-21 | adding one answered question keeps the grouped invariant |
| QuizUtils.StepAnsweredEntries | lib/quizUtils.ts:20-21 | after adding an answered question each group's total and count are those of its answered scores, and every count is at least 1 |
| QuizUtils.StepSkipped | lib/quizUtils.ts:17 | a question without a response leaves the groups as they are and keeps the invariant |
| QuizUtils.AnsweredEmptyWhenUnseen | lib/quizUtils.ts:17-21 | a dimension with no answered question has no scores |
| QuizScreen.CatalogLength | app/quiz/page.tsx:49-51 | the answers array has one slot per catalog question |
| QuizScreen.FindIndex | app/quiz/page.tsx:23 | findIndex returns -1 exactly when no question has the id, and otherwise the first position holding it |
| QuizScreen.FindOwnIndex | app/quiz/page.tsx:23 | with distinct ids, a question is found at its own position |
| QuizScreen.ScoresOver | app/quiz/page.tsx:20-28 | one score per dimension given |
| QuizScreen.CalculateScores | app/quiz/page.tsx:19-29 | one score per entry of `dimensions`, in that order |
| QuizScreen.PaddingIgnored | app/quiz/page.tsx:24 | extra zero answers change no dimension total |
| QuizScreen.ScoresOverPadding | app/quiz/page.tsx:24 | extra zero answers change no score |
| QuizScreen.MissingReadAsZero | app/quiz/page.tsx:24-27 | a missing answer reads as 0: padding the array with zeros leaves every score unchanged, while the divisor still counts the question |
| QuizScreen.PageTotalBounds | app/quiz/page.tsx:22-26 | with answers 0 or on the scale, a total lies between 0 and 100 times the number of questions |
| QuizScreen.PageTotal | app/quiz/page.tsx:22-26 | the reduce over a question list: the sum of each question's normalised answer, read at its catalog index; bounded by PageTotalBounds |
| QuizScreen.DimTotal | app/quiz/page.tsx:21-26 | the total of one dimension's questions; related to the shared utilities by the agreement lemmas |
| QuizScreen.FilterKeepsScale | app/quiz/page.tsx:21 | the filtered questions keep the common scale |
| QuizScreen.ScoresOverInRange | app/quiz/page.tsx:20-28 | on a common upward scale with answers 0 or on the scale, every score lies within [0, 100] |
| QuizScreen.MeanOfTotal | app/quiz/page.tsx:27 | a total of at most 100 per question divided by max(count, 1) lies within [0, 100] |
| QuizScreen.ScoresInRange | app/quiz/page.tsx:19-29 | with every answer 0 or within 1..5, every score lies within [0, 100] |
| QuizScreen.TotalsAgree | app/quiz/page.tsx:22-26 | with the same answers in the array and the record, a dimension's total is the sum computeDimensionScores builds for it |
| QuizScreen.ArrayMatchesRecord | app/quiz/page.tsx:23-24 | the array read through findIndex gives the record's values |
| QuizScreen.CatalogTotalsAgree | app/quiz/page.tsx:19-29 | every dimension total over the catalog equals the sum of that dimension's answered scores in computeDimensionScores |
| QuizScreen.AllDimensionsScored | lib/quizUtils.ts:15-28 | with every catalog question answered, every dimension is in computeDimensionScores' output |
| QuizScreen.AgreesWithQuizUtils | app/quiz/page.tsx:19-29 | with every question answered, computeDimensionScores' average for a dimension is the screen's score for it, rounded |
| QuizScreen.LabelForDim | app/quiz/page.tsx:31-32 | the label is unchanged iff the dimension is not "Stress et détente", which becomes "Détente (↗ mieux)" |
| QuizScreen.ChartData | app/quiz/page.tsx:333-340 | one point per dimension with its relabelled name; the score is min(score, 100) rounded to one decimal as Math.round does, so at most 100, within 0.05 of min(score, 100), and non-negative for a non-negative score |
| QuizScreen.CappedTenth | app/quiz/page.tsx:334-335 | exactly min(x, 100) rounded to one decimal: a whole number of tenths, at most 100, within 0.05 of min(x, 100), non-negative for non-negative x |
| QuizScreen.KeptSpec | app/quiz/page.tsx:97-100 | the kept positions increase and are exactly those whose answer reaches the scale minimum |
| QuizScreen.FormattedAnswersOrdered | app/quiz/page.tsx:91-100 | the submitted rows follow catalog order |
| QuizScreen.FormattedAnswersMembers | app/quiz/page.tsx:91-100 | a question's row is submitted iff its answer reaches the scale minimum |
| QuizScreen.FormattedAnswers | app/quiz/page.tsx:91-100 | one {questionId, score} row per catalog question whose answer reaches its scale minimum; stated by FormattedAnswersOrdered and FormattedAnswersMembers |
| QuizScreen.SubmitBodyOf | app/quiz/page.tsx:102-111 | the page's submission body: facility, trimmed pseudo, job, age range, seniority, the trimmed comment or null, consented true, the formatted answers |
| QuizScreen.CanSubmit | app/quiz/page.tsx:200-204 | the submit button is enabled iff the four profile fields are filled in |
| QuizScreen.EncodeSubmitBody | app/quiz/page.tsx:102-118 | the JSON text the page posts, its members in the order written, a blank comment as null |
| QuizScreen.PageBodyAlwaysRefused | app/quiz/page.tsx:102-118 | the body the page posts to /api/submit has no consent and no profile member, so that route's schema refuses it whatever the answers |
| QuizScreen.SchemaAnswers | app/api/submit/route.ts:8-11 | the page's rows in the schema's {questionId, value} shape, one per row, in order |
| QuizScreen.CorrectedPayload | app/api/submit/route.ts:27-32 | the payload the route's schema describes, built from the page's data |
| QuizScreen.CorrectedPageBodyAccepted | app/api/submit/route.ts:27-57 | when the page's data meet the schema's limits, the corrected body is read back by the route exactly as the page holds it |
| QuizScreen.UnansweredNotSubmitted | app/quiz/page.tsx:96-100 | a question answered below the scale minimum, such as the unanswered 0, has no submitted row |
| QuizScreen.CommentOf | app/quiz/page.tsx:108 | a blank comment is sent as null, any other comment trimmed |
| QuizScreen.QuizPage.constructor | app/quiz/page.tsx:48-69 | initial state: step 0, one 0 answer per question, empty pseudo and profile, nothing shown, no error |
| QuizScreen.QuizPage.StartIfReady | app/quiz/page.tsx:71-78 | a blank pseudo sets the error; otherwise the error is cleared and the quiz starts |
| QuizScreen.QuizPage.HandleNext | app/quiz/page.tsx:80-84 | nothing happens on a 0 answer; otherwise the step advances before the last question, and at the last one the profile form shows and the step stays |
| QuizScreen.QuizPage.Previous | app/quiz/page.tsx:452 | the step becomes max(0, step - 1) |
| QuizScreen.QuizPage.SelectValue | app/quiz/page.tsx:438-442 | only the answer at the current step is replaced |
| QuizScreen.QuizPage.SubmitResponses | app/quiz/page.tsx:86-148 | the body holds the trimmed pseudo, the profile and the filtered rows; results are shown and loading ends whether or not the request succeeded, with the fallback error on failure (`delivered` is a parameter; `QuizScreen.PageBodyAlwaysRefused` shows the route refuses this body) |
| QuizComponent.RecordScoresOver | components/quiz/QuizPage.tsx:24-32 | one score per dimension given |
| QuizComponent.Inverts | components/quiz/QuizPage.tsx:28 | a question is scored inverted iff it is flagged inverted or its dimension is "Stress"; AgreesWithScreen shows the second case never arises in the catalog |
| QuizComponent.CalculateScores | components/quiz/QuizPage.tsx:23-33 | one score per entry of `dimensions`, in order; every divisor is non-zero because every dimension has a question |
| QuizComponent.CatalogCovered | components/quiz/QuizPage.tsx:25-31 | every dimension has a catalog question, so the division by the question count never divides by 0 |
| QuizComponent.TotalMatchesArray | components/quiz/QuizPage.tsx:26-30 | without a "Stress" dimension, the record total of a question list equals the array total of app/quiz/page.tsx over the same values |
| QuizComponent.FilterSubset | components/quiz/QuizPage.tsx:25 | the filter keeps only questions of its input |
| QuizComponent.DimensionMatchesArray | components/quiz/QuizPage.tsx:25-30 | one dimension's record total equals the array total |
| QuizComponent.ScoresMatchArray | components/quiz/QuizPage.tsx:24-32 | over questions with no "Stress" dimension, the record scores equal the array scores |
| QuizComponent.AgreesWithScreen | components/quiz/QuizPage.tsx:23-33 | when the record holds each question's array value, the component's scores equal those of app/quiz/page.tsx: the "Stress" rule never applies to the catalog and the max(count, 1) guard never changes a divisor |
| QuizComponent.GetColor | components/quiz/QuizPage.tsx:36-40 | green iff score > 70, pink iff 50 < score <= 70, blue iff score <= 50, so exactly 70 and 50 fall into the lower band |
| QuizComponent.GetAdvice | components/quiz/QuizPage.tsx:42-46 | "au top" above 70, "à peaufiner" above 50 up to 70, "à surveiller" otherwise |
| QuizComponent.AdviceMatchesColor | components/quiz/QuizPage.tsx:36-46 | the advice and the colour always name the same band |
| QuizComponent.ChartData | components/quiz/QuizPage.tsx:281-285 | one point per dimension with the score capped at 100 and the colour of the uncapped score |
| QuizComponent.ChartColourOfShownScore | components/quiz/QuizPage.tsx:281-285 | the colour is also that of the shown score, which never exceeds 100 |
| QuizComponent.SubmitEnabled | components/quiz/QuizPage.tsx:257-264 | the submit button is enabled iff the four profile fields are filled in, consent is given and nothing is loading |
| HomeQuiz.ResponsePayload | app/page.tsx:110-114 | one row per catalog question, in catalog order, with the employee id and the raw answer unfiltered |
| HomeQuiz.PayloadOneRowPerQuestion | app/page.tsx:110-114 | with distinct ids each question has exactly one row, carrying its answer, and the page sends at least as many rows as app/quiz/page.tsx, which drops unanswered ones |
| HomeQuiz.KeptLength | app/quiz/page.tsx:97-100 | filtering keeps at most as many rows as positions |
| HomeQuiz.HomeScoresOver | app/page.tsx:145-152 | one score per dimension given |
| HomeQuiz.CalculateScores | app/page.tsx:144-153 | one score per entry of `dimensions`, well-defined because every dimension has a question |
| HomeQuiz.AgreesWithScreen | app/page.tsx:144-153 | the page's scores, divided by the plain question count, equal those of app/quiz/page.tsx, whose max(count, 1) guard never applies |
| HomeQuiz.Quiz.constructor | app/page.tsx:17-23 | initial state: step 0, one 0 answer per question, empty pseudo, not authenticated, nothing shown, no error |
| HomeQuiz.Quiz.HandleAuth | app/page.tsx:25-77 | a blank pseudo sets the error and makes no call; otherwise the trimmed pseudo is looked up; a completed employee gets the error and is not let in; a known one is let in without an insert; an unknown one is inserted and let in on success; a failing call gives the generic error; loading ends false |
| HomeQuiz.Quiz.SubmitResponses | app/page.tsx:88-142 | results are shown iff the employee is found and both the responses insert and the completion update succeed; the calls are exactly SubmitCalls (in that order, stopping at the first failure) and the error exactly SubmitError; loading ends false |
| HomeQuiz.Quiz.HandleNext | app/page.tsx:79-86 | nothing changes on a 0 answer; before the last question only the step advances, error and loading kept; at the last one the step stays and the submission runs, with its calls, its error and loading false as SubmitResponses states |
| HomeQuiz.Quiz.SelectValue | app/page.tsx:365-369 | only the answer at the current step is replaced |
| HomeQuiz.SubmitCalls | app/page.tsx:88-142 | the employee fetch always comes first; the responses insert follows iff the employee is found, and the completion update iff that insert also succeeds |
| HomeQuiz.SubmitError | app/page.tsx:88-142 | no error iff every call succeeds; the not-found text iff the pseudo is unknown; the generic failure otherwise |
| ResultsSummary.CountFoldSpec | components/Results.tsx:23-27 | a non-empty dimension is a key of the count iff it has questions, and then its count is the number of its questions |
| ResultsSummary.CountFoldKeys | components/Results.tsx:23-27 | only dimensions of the question list are keys of the count |
| ResultsSummary.CountFold | components/Results.tsx:23-27 | the reduce counting questions per non-empty dimension; stated by CountFoldSpec and CountFoldKeys |
| ResultsSummary.DimensionOf | components/Results.tsx:31 | no dimension iff no question has the id; otherwise the dimension of a question with that id |
| ResultsSummary.RawFoldSpec | components/Results.tsx:30-34 | a non-empty dimension is a key of the sums iff some answer belongs to it, and its sum is the sum of the raw values of its answers |
| ResultsSummary.RawFoldKeys | components/Results.tsx:30-34 | only dimensions of catalog questions are keys of the sums |
| ResultsSummary.RawFold | components/Results.tsx:30-34 | the reduce summing raw answers per dimension of their question; stated by RawFoldSpec and RawFoldKeys |
| ResultsSummary.ForeignIdsIgnored | components/Results.tsx:31-32 | an answer whose id is not a catalog question changes no sum |
| ResultsSummary.OrDefault | components/Results.tsx:38-40 | `acc[key] \|\| d` gives the stored value when present and non-zero, the default otherwise |
| ResultsSummary.Percent | components/Results.tsx:43 | Math.round(raw / (count * 5) * 100), the score of a row; NoKeyScoresZero uses that a count of 1 and a sum of 0 give 0 |
| ResultsSummary.GlobalScore | components/Results.tsx:47-49 | the rounded mean of the rows' scores; CatalogScoresZero and NoKeyScoresZero show it is 0 with the current catalog |
| ResultsSummary.Data | components/Results.tsx:37-45 | exactly the eight dimensionLabels rows, in declaration order, each with its display label and round(raw / (count * 5) * 100), count defaulting to 1 and raw to 0 |
| ResultsSummary.Message | components/Results.tsx:58 | the first message iff the global score is at least 80, the second iff within [60, 80), the third below 60 |
| ResultsSummary.SumIntZero | components/Results.tsx:47-49 | a sum of zeros is zero |
| ResultsSummary.CatalogScoresZero | components/Results.tsx:10-49 | with the current catalog every row scores 0, so the global score is 0 and the third message is shown, whatever the answers |
| ResultsSummary.KeysNotDimensions | components/Results.tsx:10-19 | none of the eight slug keys is a catalog dimension name |
| ResultsSummary.FoldKeysKnown | components/Results.tsx:23-34 | the keys of both folds are dimensions of the question list |
| ResultsSummary.NoKeyScoresZero | components/Results.tsx:37-49 | when no slug key is counted or summed, every row and the global score are 0 |
| ReportRoute.ParseItem | app/api/report/route.ts:18-23 | an item is accepted iff it is an object whose label and dimension are strings when present and whose value and score are numbers when present, and the parsed result holds exactly those four members |
| ReportRoute.ParseLocale | app/api/report/route.ts:14 | an absent locale is "fr"; a present one is accepted iff it is the string "fr" or "en", and is then kept |
| ReportRoute.ParseItems | app/api/report/route.ts:16-24 | the results parse iff every item parses, then one result per item, in order |
| ReportRoute.ParseBody | app/api/report/route.ts:14-26 | a body is accepted iff it is an object with an acceptable locale and a non-empty results array whose every item is accepted; the parsed locale is the given one ("fr" when absent) and the results are the parsed items, in order |
| ReportRoute.NormaliseItem | app/api/report/route.ts:52-61 | an entry is complete iff its label (or, with no label, its dimension) is non-empty and it has a value or a score; the name is the label when present, else the dimension |
| ReportRoute.Normalise | app/api/report/route.ts:52-61 | every result is normalised, in order, or the error is the index of the first incomplete entry |
| ReportRoute.Prepare | app/api/report/route.ts:31-141 | a missing key gives 500 before the body is read; an unreadable body gives 500; a schema failure gives 400 "Payload invalide"; a request has at least one result and locale "fr" or "en" |
| ReportRoute.PrepareParsed | app/api/report/route.ts:52-141 | once the body parses, an incomplete entry gives 500 with the message naming its index, and otherwise the model is sent the normalised results and the locale |
| ReportRoute.Answer | app/api/report/route.ts:72-121 | a thrown call gives 500 with its message; missing or non-string content gives 502; content that does not parse gives 502; parsed null gives 500; a parsed object with an object or array dimensionAnalyses and a non-empty string globalSynthesis gives exactly the report of those two; every other parsed value gives 502 "incomplete" |
| ReportRoute.Post | app/api/report/route.ts:28-143 | the model is called, once, exactly when the request is prepared; otherwise the reply is the preparation's; after the call the reply is the answer's |
| ReportRoute.StatusCodes | app/api/report/route.ts:28-143 | every reply is 200, 400, 500 or 502, and 200 exactly with a report |
| ReportRoute.Status | app/api/report/route.ts:28-143 | the HTTP status of each reply; stated by StatusCodes, PrepareStatus and AnswerStatus |
| ReportRoute.BodyRefusals | app/api/report/route.ts:14-26 | locale "de", an empty results array, a label that is not a string and any refused item each make the body refused |
| ReportRoute.PrepareStatus | app/api/report/route.ts:31-141 | the replies before the model call are 400 or 500 |
| ReportRoute.AnswerStatus | app/api/report/route.ts:72-121 | the replies after the call are 200 (exactly with a report), 500 or 502 |
| ReportRoute.NullContentIsServerError | app/api/report/route.ts:84-103 | content "null" parses but reading its member throws, so the reply is 500, not 502 |
| ReportRoute.EmptyLabelIncomplete | app/api/report/route.ts:53-55 | a present but empty label is not replaced by the dimension: the entry is incomplete |
| ReportRoute.AnalysesPassedThrough | app/api/report/route.ts:114-121 | on success dimensionAnalyses is passed through unchanged, its keys unchecked |
| ReportPrompt.StrengthsSpec | lib/reportPrompt.ts:6 | strengths are exactly the results with value >= 60, and the filter distributes over concatenation, so input order is kept |
| ReportPrompt.StrengthsMembers | lib/reportPrompt.ts:6 | a result is a strength iff it is in the input with value >= 60 |
| ReportPrompt.Strengths | lib/reportPrompt.ts:6 | the filter of values >= 60; stated by StrengthsSpec and StrengthsMembers |
| ReportPrompt.WatchSpec | lib/reportPrompt.ts:7 | points to watch are exactly the results with value < 40, in input order |
| ReportPrompt.WatchMembers | lib/reportPrompt.ts:7 | a result is watched iff it is in the input with value < 40 |
| ReportPrompt.Watch | lib/reportPrompt.ts:7 | the filter of values < 40; stated by WatchSpec and WatchMembers |
| ReportPrompt.BandsDisjoint | lib/reportPrompt.ts:6-7 | no result is in both lists, and a value within [40, 60) is in neither |
| ReportPrompt.LowerAscii | lib/reportPrompt.ts:10-12 | the case-insensitive test lowers exactly the ASCII capitals, keeping the length |
| ReportPrompt.BuildFlags | lib/reportPrompt.ts:14-17 | the three conditional pushes build the flag list of the three conditions |
| ReportPrompt.FlagsSpec | lib/reportPrompt.ts:14-17 | each flag is present iff both its conditions hold, in fixed order and at most once, so at most three; none unless two conditions hold |
| ReportPrompt.Flags | lib/reportPrompt.ts:14-17 | the three combination flags in fixed order; stated by FlagsSpec and BuildFlags |
| ReportPrompt.LanguageWord | lib/reportPrompt.ts:4-19 | "français" iff the locale is "fr", "anglais" otherwise |
| ReportPrompt.Entries | lib/reportPrompt.ts:6-7 | one "label: value" text per result, in order |
| ReportPrompt.DataLines | lib/reportPrompt.ts:30-31 | one line "- label: value" per result, in input order |
| ReportPrompt.ListText | lib/reportPrompt.ts:33-40 | an empty list is rendered as its placeholder, any other list joined by its separator |
| ReportPrompt.Sections | lib/reportPrompt.ts:33-40 | the three titled lists, strengths, points to watch and flags, each with its placeholder when empty |
| ReportPrompt.BuildWellbeingPrompt | lib/reportPrompt.ts:4-51 | the prompt opens with the instructions in the chosen language and closes with the expected structure |
| ReportPrompt.PromptParts | lib/reportPrompt.ts:4-51 | the prompt is exactly the instructions, the data lines joined by newlines, the three lists and the expected structure, in that order |
| ReportPrompt.NothingLow | lib/reportPrompt.ts:7-40 | with no value below 40 there is nothing to watch and no flag, so both sections show their placeholders |
| ReportPrompt.NoLowNoFlag | lib/reportPrompt.ts:10-12 | without a low result none of the three conditions holds |
| ReportPrompt.NoneWatched | lib/reportPrompt.ts:7 | with no value below 40 the watch list is empty |
| ApiClient.LegacyItem | lib/api.ts:131-135 | only an object or an array item can be read (`in` throws on anything else); an object with both questionId and value is read as String(questionId) and Number(value) |
| ApiClient.LegacyArray | lib/api.ts:130-135 | an array is normalised iff every item is an object or an array, then one pair per item in order; otherwise the error names an offending item |
| ApiClient.LegacyEntries | lib/api.ts:136-139 | a record gives one pair per member, in member order, with Number applied to the value; a string gives its characters under their indices; null, undefined, numbers and booleans give none |
| ApiClient.LegacyConsent | lib/api.ts:126 | consent is d when d is a boolean and true otherwise |
| ApiClient.DirectCall | lib/api.ts:99-119 | with an object first argument the endpoint is b when it is a string, else "/api/submit"; a submit endpoint sends the object unchanged; another endpoint sends it unchanged only when it has truthy results, else {results: [], locale: 'fr'} |
| ApiClient.LegacyDefaults | lib/api.ts:126-127 | in the legacy form the endpoint is d if a string, else e if a string, else "/api/submit", and a submit body carries consent d when boolean and true otherwise |
| ApiClient.StringOr | lib/api.ts:100 | `typeof v === "string" ? v : fallback`; used for every endpoint choice stated by DirectCall and LegacyDefaults |
| ApiClient.SubmitQuiz | lib/api.ts:99-156 | the request submitQuiz sends, or its rejection; stated by DirectCall, LegacyDefaults, LegacySubmitMembers, LegacyReportRequest and LegacyPrimitiveItemRejects |
| ApiClient.LegacySubmitBody | lib/api.ts:143-149 | the zod-shaped body: trimmed pseudo, the answers, the consent, the profile or {} and the fixed context; stated by LegacySubmitMembers |
| ApiClient.LegacyReportBody | lib/api.ts:153-155 | the results body: one {label, value} per answer, locale "fr" and meta; stated by LegacyReportMembers |
| ApiClient.LegacySubmitMembers | lib/api.ts:143-149 | the legacy submit body carries the given consent and one {questionId, value} item per normalised answer |
| ApiClient.LegacyRecordAnswers | lib/api.ts:136-150 | a legacy record is accepted and sent as one {questionId, value} per member, in member order, with Number applied to the value |
| ApiClient.LegacyReportRequest | lib/api.ts:153-156 | a legacy call to another endpoint sends, in order, one result {label, value} per normalised answer carrying that answer's id and value, locale "fr" and meta.wantReport = true |
| ApiClient.LegacyReportMembers | lib/api.ts:153-155 | result i of the legacy report body has label answers[i].0 and value answers[i].1, there is one per answer; locale is "fr" and meta has wantReport true |
| ApiClient.LegacyPrimitiveItemRejects | lib/api.ts:130-135 | an array item that is neither object nor array makes the call reject before any request |
| ApiClient.ParsedBody | lib/api.ts:36-46 | the body is read as JSON only when the content type contains "application/json" |
| ApiClient.ErrorMessage | lib/api.ts:52 | the message of a failed response is data.error, else data.message, else the raw text, else "HTTP status statusText" |
| ApiClient.ApiFetch | lib/api.ts:14-58 | an abort gives an ApiError with status 408; a thrown Error is rethrown, anything else gives the unknown-network error; an OK response gives the parsed non-null JSON, else the raw text; a failed response gives an ApiError with the selected message and its status |
| ApiClient.NullBodyReturnedAsText | lib/api.ts:48-50 | an OK response whose JSON body is null is returned as its raw text |
| ApiClient.ErrorMessageNonEmptyFallback | lib/api.ts:52 | when no field supplies a message, the message is never empty |
| QuizFlow.Lookup | hooks/useQuizFlow.ts:19 | reading a key of the answers object finds nothing iff no entry has that key, otherwise a value stored under it |
| QuizFlow.Put | hooks/useQuizFlow.ts:63 | an existing key keeps its place and the length is unchanged; a new key is appended at the end; every position keeps its key |
| QuizFlow.PutSpec | hooks/useQuizFlow.ts:62-64 | the update keeps keys distinct, the key reads the new value and every other key reads what it read before |
| QuizFlow.PutDistinct | hooks/useQuizFlow.ts:63 | the update keeps keys distinct |
| QuizFlow.PutLookup | hooks/useQuizFlow.ts:63 | the key reads the new value and every other key is unchanged |
| QuizFlow.AsAnswers | hooks/useQuizFlow.ts:79-82 | one {questionId, value} per recorded answer, in insertion order |
| QuizFlow.BodyMembers | hooks/useQuizFlow.ts:77-95 | the body sent carries the pseudo, the recorded answers, the consent, the profile and the given context |
| QuizFlow.FlowBodyAlwaysRefused | hooks/useQuizFlow.ts:91-94 | whatever the answers and profile, the legacy route's schema refuses the body the hook sends, because durationSeconds is null |
| QuizFlow.CorrectedBodyAccepted | hooks/useQuizFlow.ts:91-94 | with durationSeconds left out, every schema-valid submission is accepted as exactly that payload |
| QuizFlow.CorrectedContextOk | hooks/useQuizFlow.ts:91-94 | the context without the null member meets the context schema |
| QuizFlow.Flow.constructor | hooks/useQuizFlow.ts:17-30 | initial state: phase intro, empty pseudo and answers, step 0, not loading, no error, empty profile with consent false |
| QuizFlow.Flow.Progress | hooks/useQuizFlow.ts:35 | progress lies within [1, 100] and is 100 at the last question |
| QuizFlow.Flow.StartQuiz | hooks/useQuizFlow.ts:41-48 | a blank pseudo sets the error and leaves the phase; otherwise the error is cleared and the phase is quiz; nothing else changes |
| QuizFlow.Flow.NextQuestion | hooks/useQuizFlow.ts:50-56 | before the last question the step advances by one; at the last one the phase becomes profile and the step stays; 0 <= step <= n - 1 is kept |
| QuizFlow.Flow.PrevQuestion | hooks/useQuizFlow.ts:58-60 | the step goes back by one only when above 0, so it never goes below the first question |
| QuizFlow.Flow.HandleAnswer | hooks/useQuizFlow.ts:62-64 | the question id reads the new value, every other key is unchanged, keys stay distinct |
| QuizFlow.Flow.SubmitQuiz | hooks/useQuizFlow.ts:69-108 | the body is built from the pseudo, answers and profile; an OK reply sets phase results; a failure sets the error (data.error, else the default text, or the thrown message) and keeps the phase; loading ends false |
| QuizFlow.Flow.Reset | hooks/useQuizFlow.ts:113-127 | every field the reset touches goes back to its initial value; loading is not touched |
| Likert.RawSteps | components/LikertScale.tsx:21-25 | five candidate values, evenly spaced from min to max and rounded as Math.round does |
| Likert.RoundOfInt | components/LikertScale.tsx:24 | Math.round leaves an integer unchanged |
| Likert.RoundMonotone | components/LikertScale.tsx:24 | Math.round never reverses the order of two values |
| Likert.RawStepsShape | components/LikertScale.tsx:21-25 | with min <= max the raw values never decrease, start at min and end at max |
| Likert.Steps | components/LikertScale.tsx:21-27 | the deduplicated raw steps; stated by StepsSpec |
| Likert.StepsSpec | components/LikertScale.tsx:21-27 | after removing repeats the steps strictly increase, number one to five, start at min, end at max and hold exactly the raw values |
| Likert.CatalogSteps | components/LikertScale.tsx:21-27 | the 1..5 scale gives the five steps 1, 2, 3, 4, 5 |
| Likert.IndexOf | components/LikertScale.tsx:46 | -1 iff the value is absent, otherwise the position of its first occurrence |
| Likert.Move | components/LikertScale.tsx:42-51 | the value a move selects is always one of the steps |
| Likert.MoveSpec | components/LikertScale.tsx:42-51 | from a step a move goes to its neighbour or stays at the end; from a value that is not a step it goes to the second step forward, the first backward |
| Likert.UnansweredMovesToSecond | components/LikertScale.tsx:42-51 | on the 1..5 scale an unanswered question (0) moves to 2 forward and to 1 backward |
| Likert.Direction | components/LikertScale.tsx:58-66 | ArrowUp and ArrowLeft go back, ArrowDown and ArrowRight go forward, every other key is ignored |
| Likert.OnKeyDown | components/LikertScale.tsx:58-66 | a value is selected iff the key is an arrow key, and it is the step the move gives |
| Likert.OptionLabels | components/LikertScale.tsx:29-38 | the first five given labels when at least five are given, the five default labels otherwise |
| Likert.ButtonLabels | components/LikertScale.tsx:68-70 | one label per step |
| Likert.ButtonsUseOptionLabels | components/LikertScale.tsx:21-70 | there are never more steps than labels, so every button shows its option label and never the number |
| ReportGenerator.ScoreColor | components/ReportGenerator.tsx:27-31 | emerald iff score >= 70, amber iff 40 <= score < 70, rose iff score < 40 |
| ReportGenerator.ScoreLabel | components/ReportGenerator.tsx:33-37 | the favourable, intermediate and sensitive labels on the same three bands |
| ReportGenerator.ColourMatchesLabel | components/ReportGenerator.tsx:27-37 | the bar colour and the label always name the same band |
| ReportGenerator.AsReportResults | components/ReportGenerator.tsx:67-73 | each result becomes the (label, value) pair the report route works on, in order |
| ReportGenerator.ItemParses | components/ReportGenerator.tsx:69-72 | the route reads each posted item as a label and a value, with no dimension and no score |
| ReportGenerator.Raws | components/ReportGenerator.tsx:67-73 | what the route reads of each posted result, in order |
| ReportGenerator.PayloadParses | components/ReportGenerator.tsx:67-73 | the posted payload parses back to the locale and the results it was built from |
| ReportGenerator.PayloadAccepted | components/ReportGenerator.tsx:67-79 | a non-empty list of results with non-empty dimensions is accepted by the report route |
| ReportGenerator.CompleteResults | components/ReportGenerator.tsx:67-73 | results with non-empty dimensions normalise to themselves |
| ReportGenerator.EmptyDimensionRefused | components/ReportGenerator.tsx:67-79 | a result with an empty dimension makes the route refuse the payload, naming the first such entry |
| ReportGenerator.FirstIncomplete | components/ReportGenerator.tsx:67-79 | the route's normalisation reports the first incomplete entry |
| ReportGenerator.SummaryText | components/ReportGenerator.tsx:86 | a missing or null summary gives "", a string gives itself |
| ReportGenerator.AnalysesOf | components/ReportGenerator.tsx:87 | the reply's analyses, or an empty object when they are missing or null |
| ReportGenerator.FailureMessage | components/ReportGenerator.tsx:82-84 | the reply's error text when truthy, else "Erreur (status)" |
| ReportGenerator.TextOr | components/ReportGenerator.tsx:208-211 | "" when the dimension has no analysis block or the field is missing or null; the field itself otherwise |
| ReportGenerator.CardFor | components/ReportGenerator.tsx:203-244 | the shown score is the result rounded to one decimal, so within 0.05 of it; colour and label follow the shown score, the bar width is the shown score clamped to [0, 100]; the definition and interpretation are those of the dimension's block when present and not null, empty texts otherwise |
| ReportGenerator.Cards | components/ReportGenerator.tsx:203 | one card per result, in order |
| ReportGenerator.Panel.constructor | components/ReportGenerator.tsx:45-55 | not loading, empty summary, no analyses, no error, no automatic key |
| ReportGenerator.Panel.Generate | components/ReportGenerator.tsx:60-99 | nothing is sent without results; otherwise the payload is posted, a success replaces summary and analyses, a failure sets the error message and keeps them, and loading ends false |
| ReportGenerator.Panel.AutoGenerate | components/ReportGenerator.tsx:102-108 | generation fires iff there are results different from the last ones it fired for, which it then remembers |
| ResultsRadar.ToShort | components/ResultsRadar.tsx:21-40 | the table's entry when there is one, else the text before the first space |
| ResultsRadar.BaseColor | components/ResultsRadar.tsx:43-47 | red iff avg < 40, orange iff 40 <= avg < 70, green iff avg >= 70 |
| ResultsRadar.ChartData | components/ResultsRadar.tsx:53-62 | no data gives no point; otherwise one point per result in order, its short label, the score (0 when missing) rounded to one decimal as Math.round does, so within 0.05 of it, and the ring at 50 |
| ResultsRadar.Render | components/ResultsRadar.tsx:64-76 | the placeholder iff there is no point; otherwise the points, stroked in the colour of their mean |
| ResultsRadar.AverageBounds | components/ResultsRadar.tsx:72-74 | the mean lies between the lowest and the highest shown score |
| ResultsRadar.ShownScoresInRange | components/ResultsRadar.tsx:53-62 | scores within [0, 100] are shown within [0, 100] |
| ResultsRadar.RoundTenthBounded | components/ResultsRadar.tsx:58 | rounding to one decimal keeps a value of [0, 100] in [0, 100] |
| Common.RoundTenth | components/ResultsRadar.tsx:58 | `Math.round(x * 10) / 10` is the unique whole number of tenths within half a tenth of x, halves rounded up |
| RadarChart.ToOneWord | components/RadarChart.tsx:27-43 | the table's entry when there is one, else the first word or the text itself |
| RadarChart.WordStart | components/RadarChart.tsx:43 | the first word starts within the text |
| RadarChart.SpacedBreaks | components/RadarChart.tsx:43 | after replacing the dashes and parentheses, a character is white space iff the original one breaks a word |
| RadarChart.FirstWordEmpty | components/RadarChart.tsx:43 | there is no first word iff every character breaks one |
| RadarChart.TrimmedWord | components/RadarChart.tsx:43 | the first piece of the trimmed text split on white space is a maximal run of non-white-space characters of the text |
| RadarChart.FirstWord | components/RadarChart.tsx:43 | the first piece of the trimmed text once dashes and parentheses become spaces; stated by FirstWordEmpty and FirstWordSlice |
| RadarChart.FirstWordSlice | components/RadarChart.tsx:43 | the first word is the first maximal run of characters that are neither white space nor a separator |
| RadarChart.ToOneWordSpec | components/RadarChart.tsx:42-43 | outside the table a text with a word gives a non-empty word free of breaks taken from the text, a text without one gives itself, and "" only for "" |
| RadarChart.HueFrom | components/RadarChart.tsx:45 | the value clamped to [0, 100] times 1.4, so within [0, 140] |
| RadarChart.HueMonotone | components/RadarChart.tsx:45 | a higher mean never gives a lower hue |
| RadarChart.ScoreAt | components/RadarChart.tsx:58 | the value at the index when it is there and finite, 0 otherwise |
| RadarChart.ChartData | components/RadarChart.tsx:53-62 | one point per dimension, in order, with its one-word label, its score and the ring at 50 |
| RadarChart.Scores | components/RadarChart.tsx:64-67 | the points' scores, in order |
| RadarChart.Average | components/RadarChart.tsx:64-66 | the sum of the scores over max(1, count); bounded by AverageInRange and by ResultsRadar.AverageBounds |
| RadarChart.ChartDataReadsPrefix | components/RadarChart.tsx:53-62 | values past the last dimension are ignored, and a dimension without a value scores 0 |
| RadarChart.AverageInRange | components/RadarChart.tsx:64-73 | with values in [0, 100] the mean is in [0, 100] and its hue is the mean times 1.4; no dimension gives a mean of 0 |
| RadarChart.StrokeFor | components/RadarChart.tsx:73-105 | the fixed orange iff highlighting is on and the mean is below 50, else the hue of the mean; the gradient opacities follow the same choice |
| RadarChart.Render | components/RadarChart.tsx:47-105 | the stroke is the one StrokeFor gives for the mean of the points: with highlighting (on by default) and a mean below 50 the fixed orange, in every other case the hue of the mean |
| RadarChart.StressDimensionShortened | components/RadarChart.tsx:27-43 | "Stress et détente", absent from the table, is labelled "Stress" |
| RadarChart.StressNotInTable | components/RadarChart.tsx:27-41 | "Stress et détente" has no table entry |
| RadarChart.LeadingWord | components/RadarChart.tsx:43 | a text opening with word characters followed by a break has those characters as its first word |
| RadarChart.StressFirstWord | components/RadarChart.tsx:43 | the first word of "Stress et détente" is "Stress" |
| TextUtils.Spaces | lib/utils.ts:32 | every white-space character becomes a space and every other is kept |
| TextUtils.NonSpaceAppend | lib/utils.ts:31-33 | the non-white-space characters of a concatenation are those of each part |
| TextUtils.NonSpaceBlank | lib/utils.ts:31-33 | a blank text has no non-white-space character |
| TextUtils.NonSpaceTrim | lib/utils.ts:32 | trimming removes white space only |
| TextUtils.NonSpaceCollapse | lib/utils.ts:32 | collapsing runs of white space keeps every other character, in order |
| TextUtils.CollapseShape | lib/utils.ts:32 | after collapsing, the only white space is single spaces |
| TextUtils.CollapseFixed | lib/utils.ts:32 | a text whose white space is already single spaces is unchanged |
| TextUtils.CollapseIsSquash | lib/utils.ts:32 | the greedy run replacement equals turning white space into spaces and then merging adjacent spaces |
| TextUtils.Collapse | lib/utils.ts:32 | `replace(/\s+/g, " ")`: each run of white space becomes one space; stated by NonSpaceCollapse, CollapseShape, CollapseFixed and CollapseIsSquash |
| TextUtils.CleanTextSpec | lib/utils.ts:31-33 | the result has no white space at the ends and only single spaces inside, keeps every non-white-space character, and is empty iff the input is blank |
| TextUtils.CleanText | lib/utils.ts:31-33 | trim, then collapse; stated by CleanTextSpec, CleanFixed and CleanTextIdempotent |
| TextUtils.CleanFixed | lib/utils.ts:31-33 | an already clean text is unchanged |
| TextUtils.CleanTextIdempotent | lib/utils.ts:31-33 | cleaning twice gives the same as cleaning once |
| Routing.Gate | proxy.ts:18-52 | HTTPS redirect iff the test fails; a secure request goes to the intro iff it is "/" or a quiz path without consent "true", and passes on otherwise; static paths get the immutable Cache-Control header; the banner cookie is set iff the path is not static, not /privacy and the cookie is missing |
| Routing.IsStatic | proxy.ts:34 | a path is static iff it starts with /_next/static or /images; Gate gives exactly those the immutable header |
| Routing.Proxy | proxy.ts:10-16 | HTTPS redirect iff production and the forwarded protocol is exactly "http" |
| Routing.Middleware | app/middleware.ts:9-15 | HTTPS redirect iff production and the forwarded protocol is anything but "https", a missing header included |
| Routing.HttpsTests | app/middleware.ts:9-15 | the middleware redirects whenever the proxy does, and also without the header; otherwise the two agree |
| Routing.QuizNeedsConsent | proxy.ts:25-31 | a quiz path without consent "true" ends in a redirect; with it and over HTTPS it passes |
| Routing.Handle | proxy.ts:56-58 | the gate runs iff the path is matched |
| Routing.Matched | proxy.ts:57 | the matcher: every path except those under api, _next/static, _next/image, and those starting "favicon", any character, "ico" |
| Routing.FaviconWildcard | proxy.ts:57 | the unescaped dot of the matcher lets "/faviconXico" through unhandled, like "/favicon.ico", while "/favicon" is handled |
| Routing.NextStaticUnmatched | proxy.ts:34-58 | the "/_next/static" branch never runs under the matcher, so only "/images" paths get the immutable header |
| Header.ActiveRule | components/site/header.tsx:21-24 | a link other than "/" is active on a longer path iff the path continues with "/" after it |
| Header.IsActive | components/site/header.tsx:21-24 | "/" is active only on "/", any other link on its own path or below it; stated by ActiveRule, QuizzesIsNotQuiz and AtMostOneActive |
| Header.QuizzesIsNotQuiz | components/site/header.tsx:21-24 | "/quizzes" does not activate "/quiz", "/quiz/1" does, and "/" is active only on "/" |
| Header.SecondCharacter | components/site/header.tsx:21-24 | an active link other than "/" shares the path's second character |
| Header.AtMostOneActive | components/site/header.tsx:21-24 | at most one of the three links is active for any path |
| Header.Menu.constructor | components/site/header.tsx:43-46 | the menu starts closed on the current path |
| Header.Menu.Toggle | components/site/header.tsx:79 | the toggler flips the menu and keeps the path |
| Header.Menu.Navigate | components/site/header.tsx:46-47 | a change of path closes the menu; the same path keeps it as it was |
| Header.Menu.ClickMobileLink | components/site/header.tsx:89-99 | a mobile link click closes the menu and moves to the link |
| CookieConsent.Flip | components/CookieConsent.tsx:48-51 | "essential" is left alone; any other key is flipped and the other keys kept |
| CookieConsent.FlipTwice | components/CookieConsent.tsx:48-51 | toggling the same key twice restores the preferences |
| CookieConsent.Stringify | components/CookieConsent.tsx:31-35 | the stored text is a JSON object text |
| CookieConsent.Parse | components/CookieConsent.tsx:32 | a text reads back only as the preferences it serialises |
| CookieConsent.FirstMatch | components/CookieConsent.tsx:32 | the first candidate with that serialisation, or none when no candidate has it |
| CookieConsent.StringifyInjective | components/CookieConsent.tsx:31-35 | two preference sets with the same stored text are equal |
| CookieConsent.ParseStringify | components/CookieConsent.tsx:31-35 | what is stored reads back as what was saved |
| CookieConsent.SavedChoicesKeepEssential | components/CookieConsent.tsx:31-46 | every saved choice reads back with essential cookies on and is never empty |
| CookieConsent.Banner.constructor | components/CookieConsent.tsx:15-21 | hidden, settings closed, default preferences, no toast |
| CookieConsent.Banner.Mount | components/CookieConsent.tsx:23-29 | the banner shows when nothing, or an empty text, is stored |
| CookieConsent.Banner.OpenSettings | components/CookieConsent.tsx:74 | opens the settings and changes nothing else |
| CookieConsent.Banner.CloseSettings | components/CookieConsent.tsx:127 | closes the settings and changes nothing else |
| CookieConsent.Banner.Toggle | components/CookieConsent.tsx:48-51 | the edited preferences are flipped on that key, essential stays on |
| CookieConsent.Banner.Save | components/CookieConsent.tsx:31-35 | stores the JSON text, hides the banner and adds the saved toast |
| CookieConsent.Banner.AcceptAll | components/CookieConsent.tsx:37-40 | stores all categories on |
| CookieConsent.Banner.RefuseAll | components/CookieConsent.tsx:42-46 | stores only the essential category and adds the second toast |
| CookieConsent.Banner.SaveCurrent | components/CookieConsent.tsx:134 | stores the edited preferences, which read back unchanged with essential on |
| ApiSubmit.FirstField | app/api/submit/route.ts:68 | the text before the first comma, all of it when there is none |
| ApiSubmit.ResponseRows | app/api/submit/route.ts:110-115 | one row per answer, in order, with the submission, the facility, the question and the raw value |
| ApiSubmit.FacilityId | app/api/submit/route.ts:70-86 | the facility id the route goes on with exists iff the lookup succeeded and either found one or the insert succeeded |
| ApiSubmit.FacilityWrites | app/api/submit/route.ts:78-86 | the facility insert is attempted only when the lookup found none |
| ApiSubmit.Post | app/api/submit/route.ts:45-129 | 500 without configuration; 400 with the validation message on an invalid body; 400 without consent; otherwise the database steps as Persist states them, each failure with its message and the writes made before it; nothing is written before consent |
| ApiSubmit.Persist | app/api/submit/route.ts:70-127 | the facility is reused or created once; 201 with the submission id iff every database call succeeds, after exactly the facility, submission and response inserts; a failing lookup, facility insert, submission insert or responses insert gives 400 with its message after the writes attempted up to and including it |

## Left out

- Supabase, OpenAI, `fetch` and `AbortController` are not modelled; their results are parameters of the operations.
- The OpenAI call is a single outcome, so "exactly one call per request" is true by construction rather than proved.
- Texts produced by libraries are opaque values: the messages of zod errors, of `SyntaxError` and of database errors.
- The number-to-text conversion of JavaScript is a parameter, so prompt lines and error texts that print numbers are exact only up to that conversion.
- Strings are sequences of Unicode scalar values, so a JavaScript string holding an unpaired UTF-16 surrogate cannot be represented; string lengths checked by zod are counted in UTF-16 units (`Js.Utf16Length`).
- Floating point: scores are exact reals, so IEEE-754 rounding of the means is not modelled, and neither are `NaN` and infinities except where the source tests `Number.isFinite`.
- Rendering is left out: JSX, Tailwind classes, recharts, framer-motion, Markdown, the toast library and the animation timers (the banner's one-second delay is taken as elapsed).
- `cssColor`, which reads CSS variables from the document, is not modelled.
- `buildReportMessages` is not part of this model; the prompt text from `buildWellbeingPrompt` is.
- `uid` (random), `formatDate` (locale formatting) and `cn` (class merging) of lib/utils.ts are not modelled.
- `localStorage`, cookies and `navigator.clipboard` are fields or parameters; the copy button of the report panel is not modelled.
- The `context` object of the submission payloads is validated but its fields are not kept in the model's payload.
- The question texts and the dimension labels are not part of the catalog data; questions carry their id, their dimension's name, their scale and their inversion flag (the catalog itself is written with dimension indices, through a helper).
- ReportGenerator.Panel.AutoGenerate: compares the results themselves instead of their `JSON.stringify` text; the two agree because the serialisation of these records is injective.
- ApiClient.LegacyEntries: a record's members are listed in the order they are written, duplicates included, whereas `JSON.parse` keeps only the last of duplicate keys and `Object.entries` lists integer-like keys first in ascending order; no catalog id is integer-like.
- ApiClient.ApiFetch: the `details` that `toApiError` attaches to an error (the parsed body, the raw text or the thrown value) are not modelled; only the message and the status are.
- QuizFlow.Put: answers are recorded in insertion order, whereas a JavaScript object lists integer-like keys first in ascending order; this differs only for question ids that are integer-like, and no catalog id is.
- SubmitScoring.UnknownIdRejected: stated through the dictionary lookup; `SubmitScoring.UnknownIdNotFound` links that lookup to the catalog.

## Findings

| source | as written | input that shows it | evidently intended | confidence | as-written member | corrected member |
|---|---|---|---|---|---|---|
| app/quiz/page.tsx:102-118 | the page posts `{facilityId, pseudo, job, ageRange, seniority, comment, consented, answers: [{questionId, score}]}` to /api/submit, whose schema at app/api/submit/route.ts:27-42 requires `consent`, `profile` and `answers[].value`, so every submission is refused with 400 and only the local results are shown | any submission from the page, for example all answers 3 and a complete profile | post the payload the schema describes: the pseudo, `{questionId, value}` answers, `consent` and a `profile` object | not executed | QuizScreen.PageBodyAlwaysRefused | QuizScreen.CorrectedPageBodyAccepted |
| hooks/useQuizFlow.ts:91-94 | the hook sends `context.durationSeconds: null`, which `z.number().int().optional()` at app/submit/route.ts:35 refuses, so the route answers 400 to every submission from the hook | any submission from the hook, for example one answer and a complete profile with consent | leave `durationSeconds` out (or send a number) so that a valid submission is accepted | not executed | QuizFlow.FlowBodyAlwaysRefused | QuizFlow.CorrectedBodyAccepted |
