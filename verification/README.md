# Topic completion and difficulty statistics of a DSA practice frontend

This project models the two pieces of logic in a React frontend for practising
data-structure and algorithm problems. Both compare a flat list of completed
problem ids (`progress`) with a nested curriculum. The curriculum is a list of
topics. Each topic holds subtopics, and each subtopic holds problems with an
`_id`, a `name` and a `level`.

- `curriculum.dfy` (module `Curriculum`): the curriculum datatypes, defined
  once, and the two flattenings both pages use. Both flattenings keep traversal
  order.
- `topics.dfy` (module `Topics`) covers the Topics page:
  - `isCompleted` is list membership.
  - `getTopicStatus` returns "Completed" exactly when every problem of the
    topic is in `progress`.
  - `toggleProblem` is a method of the class `TopicsPage`, whose `progress`
    field is a `seq`. The method takes the outcome of the awaited remote
    request as an input. It issues one request, `markUncomplete` or
    `markComplete`, chosen by the current membership. Only after an
    acknowledgement does it filter every copy of the id out, or append the id.
    After a rejection the list is unchanged, because the `catch` comes before
    `setProgress`.
- `progress.dfy` (module `Progress`) covers the Progress page:
  - It flattens the curriculum in topic, then subtopic, then problem order,
    and tags each problem with `completed`.
  - For Easy, Medium and Hard, in that order, it computes `total`, `solved`,
    `percentage` and the names of the solved problems in traversal order.
- `scenarios.dfy` (module `Scenarios`): a worked example. One topic holds
  "Two Sum" (Easy, solved) and "3Sum" (Medium). The example gives the topic
  status and the per-tier records, then the status after "3Sum" is checked.

Two modelling choices follow the code closely:

- `progress` is a list, not a set. The pages store the fetched list as it
  arrives and never remove duplicates (`src/pages/Topics.jsx:23`,
  `src/pages/Progress.jsx:18`). So `progress` is a `seq<Id>` that may hold
  duplicates. Removal drops every copy, and adding appends.
- A toggle produces no result value. The page catches a failed request, logs
  it and returns nothing. The model therefore states what a rejection does to
  `progress`: it leaves it unchanged.

## Model

| member | source | states |
|---|---|---|
| `Curriculum.FlattenSubtopics` | src/pages/Topics.jsx:48 | a problem is in the flattened list iff it is in some subtopic of the topic |
| `Curriculum.FlattenSubtopicsAppend` | src/pages/Topics.jsx:48 | flattening visits subtopics in order: the problems of earlier subtopics come first |
| `Curriculum.FlattenTopics` | src/pages/Progress.jsx:30-37 | a problem is in the flattened curriculum iff some topic's subtopics contain it |
| `Curriculum.FlattenTopicsAppend` | src/pages/Progress.jsx:30-37 | flattening visits topics in order: the problems of earlier topics come first |
| `Topics.IsCompleted` | src/pages/Topics.jsx:45 | a problem is completed iff some entry of `progress` is its id |
| `Topics.CountCompleted` | src/pages/Topics.jsx:49 | the completed count is at most the number of problems, and equals it iff every problem's id is in `progress` |
| `Topics.GetTopicStatus` | src/pages/Topics.jsx:47-51 | "Completed" iff every problem of every subtopic of the topic is completed, otherwise "In Progress" |
| `Topics.CompletedCountBounded` | src/pages/Topics.jsx:48-49 | the completed count compared by the status never exceeds the topic's problem count |
| `Topics.EmptyTopicIsCompleted` | src/pages/Topics.jsx:47-51 | a topic whose subtopics hold no problems is "Completed" (0 === 0) |
| `Topics.Without` | src/pages/Topics.jsx:35 | filtering removes every occurrence of the id and keeps every other id with its multiplicity |
| `Topics.WithoutAppend` | src/pages/Topics.jsx:35 | the filter keeps relative order: filtering a concatenation filters each part in place |
| `Topics.WithoutAbsent` | src/pages/Topics.jsx:35 | filtering out an absent id returns the list unchanged |
| `Topics.Toggled` | src/pages/Topics.jsx:32-42 | the list after a toggle: unchanged on rejection; on acknowledgement the id's membership flips, and the multiset loses every copy of a present id or gains one copy of an absent id |
| `Topics.ToggleRemovesEveryCopy` | src/pages/Topics.jsx:33-35 | an acknowledged toggle of a present id gives the filtered list: no copy of the id is left and every other id keeps its multiplicity (the order is kept, by `Topics.WithoutAppend`) |
| `Topics.ToggleAppends` | src/pages/Topics.jsx:36-38 | an acknowledged toggle of an absent id yields `progress ++ [id]`, and the id is then completed |
| `Topics.ToggleKeepsOthers` | src/pages/Topics.jsx:33-38 | whatever the outcome, a toggle never changes whether any other id is completed |
| `Topics.ToggleTwiceRestores` | src/pages/Topics.jsx:33-38 | two acknowledged toggles of an initially absent id restore `progress` exactly |
| `Topics.TopicsPage.constructor` | src/pages/Topics.jsx:22-23 | the page state holds the fetched topics and progress list as received |
| `Topics.TopicsPage.ToggleProblem` | src/pages/Topics.jsx:31-43 | issues `markUncomplete` iff the id is present, else `markComplete`; a rejection leaves `progress` exactly as it was; an acknowledgement filters out or appends the id and flips its membership; `topics` is untouched |
| `Progress.Tag` | src/pages/Progress.jsx:32-35 | each problem, in order, is tagged `completed` iff its id is in `progress` |
| `Progress.AllProblems` | src/pages/Progress.jsx:30-37 | one entry per problem of the flattened curriculum, in traversal order, tagged `completed` iff its id is in `progress` |
| `Progress.Total` | src/pages/Progress.jsx:40 | a tier's total never exceeds the number of problems (its exact value is given by `Progress.CountsArePositions`) |
| `Progress.LevelPositions` | src/pages/Progress.jsx:40 | the positions of a tier's problems are strictly increasing, each holds a problem of that tier, and none is missing |
| `Progress.CountsArePositions` | src/pages/Progress.jsx:40-43 | a tier's total is the number of its problems and its solved count the number of its completed problems, both counted by position |
| `Progress.Solved` | src/pages/Progress.jsx:41-43 | a tier's solved count never exceeds its total |
| `Progress.SolvedNames` | src/pages/Progress.jsx:49-51 | the solved-names list of a tier has exactly `solved` entries |
| `Progress.SolvedPositions` | src/pages/Progress.jsx:49-51 | the positions of a tier's solved problems are strictly increasing, each is solved and of that tier, and none is missing |
| `Progress.SolvedNamesInOrder` | src/pages/Progress.jsx:30-51 | the k-th listed name is the name of the k-th solved problem of the tier in traversal order |
| `Progress.Percentage` | src/pages/Progress.jsx:48 | 0 when the total is 0 or nothing is solved; otherwise the nearest whole percent of solved/total, with halves rounded up, and at most 100 when solved <= total |
| `Progress.Stats` | src/pages/Progress.jsx:40-52 | a tier record has its level, solved <= total, percentage in 0..100 and 0 for an empty tier, and `solved` names |
| `Progress.DifficultyCounts` | src/pages/Progress.jsx:39-53 | exactly three records, for Easy, Medium and Hard in that order, each with solved <= total, percentage <= 100 and `solved` names |
| `Progress.TiersAtMostAll` | src/pages/Progress.jsx:39-40 | the three totals add up to at most the number of problems, and to exactly that when every level is a tier |
| `Progress.UnknownLevelCountsNowhere` | src/pages/Progress.jsx:39-52 | inserting a problem whose level is none of the tiers, anywhere in the list, leaves every tier's record (total, solved, percentage, names) unchanged |
| `Progress.NothingCompletedNothingSolved` | src/pages/Progress.jsx:41-43 | if no problem is completed, a tier's solved count is 0 |
| `Progress.EmptyProgressSolvesNothing` | src/pages/Progress.jsx:34-51 | with an empty `progress`, every tier has solved 0, percentage 0 and no names |
| `Progress.StaleIdsIgnored` | src/pages/Progress.jsx:34-43 | two `progress` lists that agree on every curriculum id give the same records, so ids matching no problem change no statistic wherever they stand |
| `Progress.TagAppend` | src/pages/Progress.jsx:32-35 | tagging commutes with concatenation |
| `Progress.FiltersAppend` | src/pages/Progress.jsx:40-51 | total, solved and the names list all split over a concatenation, in order |
| `Progress.CurriculumOrder` | src/pages/Progress.jsx:30-53 | for the curriculum `first ++ second`, each tier's totals and solved counts add up, and the names from `first` come before those from `second` |
| `Scenarios.ArraysStatistics` | src/pages/Progress.jsx:39-53 | with only "Two Sum" solved: Easy 1/1 at 100% listing "Two Sum", Medium 0/1 at 0%, Hard 0/0 at 0%, and the topic "In Progress" |
| `Scenarios.ArraysCompletedAfterToggle` | src/pages/Topics.jsx:36-50 | after an acknowledged check of "3Sum", `progress` is `["p1", "p2"]` and the topic is "Completed" |

## Left out

- Progress.Percentage: uses integer round-half-up, `(200*solved + total) / (2*total)`. The page uses floating-point `Math.round((solved / total) * 100)`. The two can differ when the floating-point quotient lands just below a half.
- Rendering, animation variants, the expand/collapse state (`openTopic`) and the problem links are left out. They are presentation only.
- The `useEffect` loaders (`Promise.all`, `console.error`, the `loading` flag) are left out as asynchronous I/O. The curriculum and `progress` are inputs, and the `TopicsPage` constructor stands for a successful load.
- The remote `markComplete`/`markUncomplete` requests become an input outcome, `Acknowledged` or `Rejected`. Logging the failure is not modelled.
- Overlapping toggles are not modelled. The page's closure can capture a stale `progress` while a request is pending, so two such toggles can race. Each call is modelled as atomic.
- The HTTP client and bearer-token interceptor (`src/services/api.jsx`) are left out, being network and storage.
- Login, profile, dashboard, routing and the route guard are left out. They are authentication and UI with no reconciliation logic.
