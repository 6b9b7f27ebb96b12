# Mental-health screener: scoring engine and question walk

This project models two parts of a screener application in Dafny and proves
properties of them.

**The scoring service** (`AssessmentService`) receives a submitted list of
answers. Each answer names a question and the value of the chosen option. The
service turns these into recommended follow-up assessments using two reference
tables:

- the domain mapping table, where each row sends a question to a symptom domain;
- the assessment criteria table, where each row gives a domain, a threshold and
  the name of an assessment.

The service works in three steps:

1. It builds an insertion-ordered map from domain to score. Every domain named
   in the mapping table is seeded with 0, once, at its first appearance.
2. It adds each answer's value to the domain of the first mapping row for the
   answer's question. Answers to unmapped questions are skipped.
3. It walks the map in insertion order. For each domain it looks up the first
   criteria row for that domain, and pushes that row's assessment when the score
   reaches the threshold (inclusive).

The pushed list goes to the response recorder unchanged. The caller gets the
list with repeats removed, in first-occurrence order.

**The screener page** (`ScreenerFlow`) keeps four of the page's six state hooks: the loaded
screener, the index of the current question, the answers so far, and the
results. A click on an answer option appends an answer for the current question
of the first section. The page then either moves to the next question or, after
the last question, hands the whole list to the submit step. Reset returns to
question 0 with no answers and no results.

Layout:

- `wrappers.dfy` holds `Option`.
- `interfaces.dfy` holds the record shapes.
- `ordered_collections.dfy` holds:
  - the JavaScript `Map` with insertion order, as a key sequence plus a map;
  - `[...new Set(xs)]` as `Dedup`.
- `assessment_service.dfy` holds the scoring engine.
  - The methods follow the service's loops.
  - The functions `DomainScore`, `ScoreTable`, `RecommendedFor`, `Assessments`
    and `Score` say what those loops compute.
  - Each method's contract ties its result to these functions, and the lemmas
    are stated about them.
- `screener_flow.dfy` holds the page.
  - The pure functions `AnswerStep`, `Reset` and `Walk` describe the transitions.
  - The class `ScreenerPage` performs them on its fields, one method per
    handler.

The code behaves as follows:

- **Reset.** It returns to question 0 of the walk, not to a preview screen.
  `handleReset` sets only the index, the answers and the results.
- **Sections.** Only the first section is ever walked, whatever the number of
  sections.
- **Question identifiers** are not assumed unique in the mapping table. The
  first matching row decides the domain, as `find` does.
- **Result order** is specified: first occurrence in the pushed list. The pushed
  list itself follows the order in which domains first appear in the mapping
  table.
- **Submitting more than once.** After the last answer, the index stays on the
  last question. The question screen stays up while the submission is in
  flight, because the loading screen shows only before a screener exists. So a
  further click submits again, with one answer more than there are questions
  (`ResubmitAfterLast`).
- **Missing sections or questions.** If the first section is missing or the
  index is past its questions, the handler throws a `TypeError` before setting
  any state. This is the `Crashed` outcome, and the state does not change.

## Model

| member | source | states |
|---|---|---|
| `AssessmentService.FindMapping` | server/src/services/assessment.service.ts:76-78 | `None` iff no mapping row has the question; otherwise the result is a row for the question with no earlier row for it (first match) |
| `AssessmentService.FindCriteria` | server/src/services/assessment.service.ts:94 | `None` iff no criteria row has the domain; otherwise it is the first row for the domain |
| `AssessmentService.SeedDomainScores` | server/src/services/assessment.service.ts:67-72 | the map's keys are the mapped domains without repeats, in first-appearance order, and every score is 0 |
| `AssessmentService.AccumulateAnswers` | server/src/services/assessment.service.ts:74-84 | when every mapped domain is already a key: the key order and key set do not change, and each score grows by exactly that domain's share of the answers; the read-with-default `get(...)` followed by the zero fallback is `Get(..).GetOr(0)` |
| `AssessmentService.CalculateDomainScores` | server/src/services/assessment.service.ts:64-87 | the keys are exactly the mapped domains, once each, in first-appearance order; each domain's score is the algebraic sum of the answers whose first mapping names it |
| `AssessmentService.DetermineAssessments` | server/src/services/assessment.service.ts:89-102 | the pushed list is the walk over the map's keys in insertion order, with one assessment per domain whose first criteria row's threshold is met |
| `AssessmentService.ScoreAnswers` | server/src/services/assessment.service.ts:50-62 | the list handed to the recorder is the undeduplicated walk over the score table; the returned list is that walk with repeats removed |
| `AssessmentService.QualifyingDomains` | server/src/services/assessment.service.ts:93-98 | a domain is selected iff it is walked and its first criteria row exists and the score reaches that row's threshold |
| `AssessmentService.Score` | server/src/services/assessment.service.ts:61 | the returned list has no repeats and holds exactly the names of the pushed list |
| `AssessmentService.NoAnswersScoreZero` | server/src/services/assessment.service.ts:68-72 | with no answers, the scored domains are exactly those of some mapping row, each at 0 |
| `AssessmentService.DomainScoreAppend` | server/src/services/assessment.service.ts:75-84 | scoring two batches of answers in turn gives the sum of the batches' scores |
| `AssessmentService.DomainScoreOrderIndependent` | server/src/services/assessment.service.ts:75-84 | corollary of `DomainScorePermutation`: swapping two blocks of answers does not change any domain's score |
| `AssessmentService.DomainScorePermutation` | server/src/services/assessment.service.ts:75-84 | any reordering of the answers (same multiset) leaves every domain's score unchanged |
| `AssessmentService.UnmappedAnswerIgnored` | server/dist/src/services/assessment.service.js:55-61 | an answer whose question has no mapping row leaves the whole score table unchanged |
| `AssessmentService.MappedAnswerAddsToItsDomain` | server/dist/src/services/assessment.service.js:55-61 | an answer whose first mapping row names domain `d` adds its value to `d`'s score, and every other score stays the same |
| `AssessmentService.AssessmentFor` | server/src/services/assessment.service.ts:94-96 | stated over the criteria table's rows: a domain yields an assessment iff the first row (by index) naming the domain exists and the score reaches its threshold, and then the result is that row's assessment |
| `AssessmentService.AssessmentForFirstRow` | server/dist/src/services/assessment.service.js:67-69 | `AssessmentFor`'s contract specialised to a known first row `i`: that row's assessment iff `score >= threshold` |
| `AssessmentService.RecommendedPerQualifyingDomain` | server/dist/src/services/assessment.service.js:65-72 | the pushed list has one entry per qualifying domain, and entry `i` is the assessment of the `i`-th qualifying domain in walk order |
| `AssessmentService.QualifyingDomainsInOrder` | server/src/services/assessment.service.ts:93-99 | over a repeat-free walk, the qualifying domains have no repeats and keep the walk's order |
| `AssessmentService.AssessmentsInMappingOrder` | server/src/services/assessment.service.ts:67-98 | the pushed list has one entry per qualifying domain, each domain once, in the order domains first appear in the mapping table; entry `i` is the assessment of the `i`-th qualifying domain, and a domain qualifies iff it is mapped and its score reaches its first criteria row's threshold |
| `AssessmentService.RecommendedForMembership` | server/src/services/assessment.service.ts:93-98 | a name is pushed iff some walked domain's first criteria row names it and the domain's score reaches that row's threshold |
| `AssessmentService.ScoreMembership` | server/src/services/assessment.service.ts:50-62 | the result has no repeats, and a name is in it iff some mapped domain's score reaches the threshold of that domain's first criteria row naming it |
| `AssessmentService.EmptySubmission` | server/src/services/assessment.service.ts:68-72 | with no answers, a name is returned iff some mapped domain's first criteria row names it with a threshold of at most 0 |
| `AssessmentService.NoCriteriaNoRecommendation` | server/src/services/assessment.service.ts:94-96 | when no criteria row has a domain, every returned name comes from some other mapped domain, whatever that domain's score |
| `AssessmentService.ExampleAnxietyOnly` | server/src/services/assessment.service.ts:50-102 | mood 3 against threshold 5 and anxiety 4 against threshold 3 return exactly `["GAD-7"]` |
| `AssessmentService.ExampleMoodAtThreshold` | server/src/services/assessment.service.ts:96 | a mood score of exactly the threshold 5 returns `["PHQ-9"]` |
| `AssessmentService.ExampleNoAnswers` | server/src/services/assessment.service.ts:68-72 | no answers and thresholds above 0 return `[]` |
| `AssessmentService.ExampleTwoMoodQuestions` | server/src/services/assessment.service.ts:75-84 | two mood questions answered 2 and 3 add up to 5 and return `["PHQ-9"]` |
| `AssessmentService.ExampleUnmappedQuestion` | server/src/services/assessment.service.ts:76-83 | an answer to an unmapped question changes nothing and raises no error |
| `OrderedCollections.Dedup` | server/src/services/assessment.service.ts:61 | the result has no repeats and the same members as the input |
| `OrderedCollections.DedupFirstOccurrenceOrder` | server/dist/src/services/assessment.service.js:46 | deduplication keeps first occurrences in input order: an earlier result entry first occurs earlier in the input |
| `OrderedCollections.DedupOfDistinct` | server/src/services/assessment.service.ts:61 | a list without repeats comes back unchanged |
| `OrderedCollections.DedupIdempotent` | server/src/services/assessment.service.ts:61 | deduplicating twice is deduplicating once |
| `OrderedCollections.OrderedMap.Has` | server/src/services/assessment.service.ts:69 | on a well-formed map, `Map.has` holds exactly for the recorded keys |
| `OrderedCollections.OrderedMap.Get` | server/src/services/assessment.service.ts:81 | on a well-formed map, `Map.get` gives a value exactly for the recorded insertion-ordered keys, and for such a key it is the stored value |
| `OrderedCollections.OrderedMap.Set` | server/src/services/assessment.service.ts:70 | `Map.set` stays well-formed: the value is stored under the key, an existing key keeps its place, a new key goes last |
| `OrderedCollections.EmptyMap` | server/src/services/assessment.service.ts:65 | `new Map()` is well-formed, with no keys and no entries |
| `ScreenerFlow.AnswerStep` | client/src/pages/Screener.tsx:46-67 | without a screener, nothing happens. A missing section or question throws before any state is set. Otherwise exactly one answer for the current question is appended, and then the list is submitted iff this was the last question, or the index moves on by one. The screener and the results never change |
| `ScreenerFlow.AnswerStepKeepsWalk` | client/src/pages/Screener.tsx:57-66 | from inside the walk, a click before the last question advances and keeps the invariant (answers match the questions before the index); on the last question it submits one answer per question, in order |
| `ScreenerFlow.StepAt` | client/src/pages/Screener.tsx:49-66 | while the current question of section 0 exists, a click records that question's identifier with the chosen value, then advances or submits |
| `ScreenerFlow.AnswersForAt` | client/src/pages/Screener.tsx:52-57 | the `i`-th recorded answer answers question `i` with the `i`-th value |
| `ScreenerFlow.WalkShortState` | client/src/pages/Screener.tsx:63-66 | clicks that stop before the last question submit nothing, and move the index on by the number of clicks |
| `ScreenerFlow.WalkShort` | client/src/pages/Screener.tsx:57-66 | such clicks keep the walk invariant, leave earlier answers untouched, and append one answer per clicked question |
| `ScreenerFlow.WalkToEnd` | client/src/pages/Screener.tsx:57-66 | answering all remaining questions submits exactly once: the earlier answers plus one per remaining question. The index stays on the last question |
| `ScreenerFlow.FullWalkSubmitsAllAnswers` | client/src/pages/Screener.tsx:24-25 | from question 0 with no answers, one click per question submits once, with exactly one answer per question in order |
| `ScreenerFlow.ResubmitAfterLast` | client/src/pages/Screener.tsx:61-62 | after a full walk, one more click submits again, with an extra answer for the last question |
| `ScreenerFlow.ResetStartsWalk` | client/src/pages/Screener.tsx:83-87 | reset gives question 0, no answers and no results, keeps the screener, and starts a walk iff section 0 has questions |
| `ScreenerFlow.OnlyFirstSectionMatters` | client/src/pages/Screener.tsx:49-50 | two screeners whose first sections have the same questions react to every click the same way |
| `ScreenerFlow.ScreenerPage.constructor` | client/src/pages/Screener.tsx:21-26 | the hooks start with no screener, question 0, no answers and no results |
| `ScreenerFlow.ScreenerPage.ScreenerLoaded` | client/src/pages/Screener.tsx:33-34 | the loaded screener is stored and nothing else changes |
| `ScreenerFlow.ScreenerPage.HandleAnswer` | client/src/pages/Screener.tsx:46-67 | the new fields and the outcome are exactly `AnswerStep` of the old fields |
| `ScreenerFlow.ScreenerPage.SubmitSucceeded` | client/src/pages/Screener.tsx:73-74 | the returned result is stored and nothing else changes |
| `ScreenerFlow.ScreenerPage.HandleReset` | client/src/pages/Screener.tsx:83-87 | the new fields are `ScreenerFlow.Reset` of the old ones: question 0, no answers, no results, same screener (what `Reset` promises is stated by `ResetStartsWalk`) |

## Left out

- **Loading the reference tables** (`loadData`, server/src/services/assessment.service.ts:12-48) is database I/O. The constructor starts it without awaiting, which creates a race with early requests. The tables are inputs to every operation here.
- **`storeResponse`** (server/src/services/assessment.service.ts:104-122) is database I/O that ignores its own errors. It appears only as the `recorded` out-parameter of `ScoreAnswers`, which is the list the service hands to it.
- **`getScreener`** (server/src/services/assessment.service.ts:124-142) is a database read. It is not part of this model.
- **Number semantics.** Answer values and thresholds are unbounded integers. JavaScript's floating-point numbers, non-integer values and `NaN` (which `get(...) || 0` would turn into 0) are not modelled.
- **`handleSubmit`** (client/src/pages/Screener.tsx:69-81) is modelled as the `Submitted` outcome followed, on success, by `SubmitSucceeded`. Not modelled:
  - the network call itself;
  - the `loading` and `error` flags;
  - the failure path.
- **Screen loading** (client/src/pages/Screener.tsx:28-44) is modelled only as `ScreenerLoaded`. Its loading and error flags are not modelled.
- **Rendering** (client/src/pages/Screener.tsx:89-163) is not modelled. That includes the choice of which screen receives clicks. `AnswerStep` applies in any state, as the handler itself does.
- **React closure semantics.** Each click is modelled as seeing the state left by the previous one. Two clicks handled before a re-render would both see the older state; that case is not modelled.
- **The other components** are display only and are not modelled. That covers `Progress` (a floating-point percentage), `Question`, `Results` and the screen components.
- **The controllers, database scripts and client API service** are routing and I/O.
- **Client record types.** The page imports `Screener`, `Answer` and `ScoreResult` from `client/src/types/screener.types`, which is not part of this model. The client is given the server's record shapes from `interfaces.dfy`.
- **Record field names.** Section's `type` field is called `sectionType`, because `type` is a Dafny keyword.
