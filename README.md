# civic-pulse: the issue store, its queries and the session, in Dafny

civic-pulse is a citizen issue-reporting web application. Behind its pages
sit a small data layer and a session context, and this project models them:

- **The issue store.** One module-level array of issues, seeded with ten
  records when the module loads. `getMockIssues` returns that very array,
  and `createIssue` pushes new issues into it.
- **The queries over the store.** `getIssues` pages through the store in
  store order. `getMyIssues`/`getUserIssues` filter by reporter, sort newest
  first with a stable sort, and page the result. `getIssueStatistics`
  counts issues per status and per category, picks the five most voted
  issues, and reports the total.
- **Issue creation.** `createIssue` builds a record from form data and a
  user, and appends it to the store.
- **The session context.** `AuthProvider` keeps the signed-in user, a
  loading flag, and the `"user"` entry of `localStorage`. Its operations
  are the restore-on-mount effect, `login`, `register` and `logout`, plus
  `isAuthenticated`.
- **The password-strength meter.** A score from 0 to 4, and the label and
  colour shown for each score.

Each source file is one module:

- `Types`: the records and closed unions of `src/types/index.ts`. The
  optional fields (`address`, `imageUrl`, `hasUserVoted`) are `Option`s and
  every other field is required.
- `MockIssues`: the seed and the store class `IssueStore`.
- `IssueOperations`, `UserIssues`, `StatisticsService`: the three service
  files.
- `AuthContext`: the `AuthProvider` class.
- `PasswordStrengthIndicator`: the meter.

Two modules model the JavaScript built-ins the services rely on:

- `JsArray` models `Array.prototype.slice`, including negative and
  out-of-range arguments, and models `filter` and `map`.
- `StableSort` models `Array.prototype.sort` with a descending numeric
  comparator. It is an insertion sort proved sorted, a permutation, and
  stable.

`SharedStore` ties the modules together:

- It states what the seed looks like through each query.
- It proves that an issue created through `createIssue` is seen by the
  reporter's listing and by the statistics. Both read the same store.

Two boundary cases follow the code as written:

- **`createIssue` without a user.** `createIssue` has no error path for a
  missing user. Its `user` parameter is required, and the null check is
  in the page that calls it (src/pages/NewIssuePage.tsx:77-84). So the
  model takes a `User`.
- **Page or limit below 1.** These values go straight to `slice`, and the
  model applies JavaScript's `slice` rules to them.

## Model

| member | source | states |
|---|---|---|
| Types.CategoriesAreExactlySix | src/types/index.ts:9-15 | The category union has exactly six members and every category is listed; the six labels are pairwise different. |
| Types.StatusesAreExactlyFour | src/types/index.ts:17 | The status union has exactly four members and every status is listed; the four labels are pairwise different. |
| Types.CategoryFromLabel | src/types/index.ts:9-15 | A string that parses as a category is that category's label. |
| Types.StatusFromLabel | src/types/index.ts:17 | A string that parses as a status is that status's label. |
| Types.CategoryLabelRoundTrip | src/types/index.ts:9-15 | Parsing gives category `c` back exactly when the string is `c`'s label (both directions). |
| Types.StatusLabelRoundTrip | src/types/index.ts:17 | Parsing gives status `st` back exactly when the string is `st`'s label (both directions). |
| JsArray.Slice | src/services/issueOperations.ts:15 | Both arguments are clamped to positions `from` and `to`: a negative one counts from the end, and either is cut to `[0, length]`. The result then has `to - from` elements when `from < to` and none otherwise. Element `k` of the result is element `from + k` of the array. |
| JsArray.SliceIsPage | src/services/issueOperations.ts:13-15 | For page and limit of at least 1, `slice((page-1)*limit, page*limit)` is the reference page: positions `(page-1)*limit` to `page*limit`, cut off at the end. |
| JsArray.SliceElements | src/services/statisticsService.ts:28 | A slice holds only elements of the sliced array, each at most as often (multiset inclusion). |
| JsArray.Filter | src/services/userIssues.ts:13 | `filter` returns no more elements than it was given, and only elements of the input that pass the test. |
| JsArray.FilterCounts | src/services/userIssues.ts:13 | `filter` keeps every passing element exactly as often as the input has it, and drops every failing element. |
| JsArray.FilterAppend | src/services/userIssues.ts:13 | Filtering a concatenation is the concatenation of the filtered parts. |
| JsArray.FilterCountIsKeyCount | src/services/statisticsService.ts:14-17 | The number of elements kept by "key equals k" is the number of occurrences of `k` among the mapped keys. |
| JsArray.MapPermutation | src/services/statisticsService.ts:26-27 | Mapping two permutations of one another gives permutations of one another. |
| StableSort.Sort | src/services/userIssues.ts:14 | The sorted result has the input's length, is a permutation of the input, and has keys that never increase. |
| StableSort.SortIsStable | src/services/userIssues.ts:14 | For every key value, the elements with that key appear in the sorted result in input order. |
| StableSort.SortAllTied | src/services/userIssues.ts:14 | When all keys are equal, sorting leaves the sequence unchanged. |
| StableSort.FilterKeepsTieOrder | src/services/userIssues.ts:13-14 | Filtering and then taking a tie group equals taking the tie group and then filtering. |
| StableSort.TieGroupOfPrefix | src/services/statisticsService.ts:28 | A prefix keeps a prefix of each tie group. |
| StableSort.PrefixOfSortedBound | src/services/statisticsService.ts:27-28 | Whatever a sorted sequence holds beyond its first `n` elements has a key no larger than the `n`-th. |
| StableSort.LatestHeadsSorted | src/services/userIssues.ts:14 | An element whose key beats every other element's key comes first in the sorted order. |
| MockIssues.Seed | src/data/mockIssues.ts:6-197 | The seed has ten records. |
| MockIssues.SeedClock | src/data/mockIssues.ts:6-197 | Record `i` of the seed carries the `i`-th generated id. Its `createdAt` and `updatedAt` are the module-load clock readings `2i` and `2i+1`, which need not be equal. |
| MockIssues.SeedShape | src/data/mockIssues.ts:6-197 | No seed record has been voted on by the viewer; the vote counts are non-negative and read 5, 10, 3, 7, 12, 6, 9, 4, 8, 11 in store order. |
| MockIssues.IssueStore.constructor | src/data/mockIssues.ts:6-197 | On module load the store holds exactly the seed; with distinct generated ids, ids are unique and votes non-negative. |
| MockIssues.IssueStore.Push | src/services/issueOperations.ts:42 | `push` grows the store by exactly the given issue at the end and changes nothing before it; a fresh id and non-negative votes keep ids unique and votes non-negative. |
| IssueOperations.GetIssues | src/services/issueOperations.ts:9-18 | The page never exceeds the store or a non-negative limit; for page and limit of at least 1 it is the reference page of the store, in store order. |
| IssueOperations.GetIssuesLength | src/services/issueOperations.ts:13-15 | A page holds at most `limit` issues, and exactly `limit` whenever `page*limit` does not exceed the store's length. |
| IssueOperations.GetIssuesPastEnd | src/services/issueOperations.ts:15 | A page that starts at or beyond the end of the store is empty. |
| IssueOperations.GetIssuesPageZero | src/services/issueOperations.ts:13-15 | Page 0 is empty for any non-negative limit, because the slice ends at position 0. |
| IssueOperations.PagesTileTheStore | src/services/issueOperations.ts:13-15 | Pages 1 to `k` laid end to end are exactly the first `min(k*limit, length)` issues of the store: no gap, no overlap. |
| IssueOperations.AppendShowsOnLastPage | src/services/issueOperations.ts:13-15 | After an append, full pages before the old end are unchanged, and the page covering the old end gains the new issue as its last element. |
| IssueOperations.CreateIssue | src/services/issueOperations.ts:23-44 | The store grows by exactly the returned record. The record carries the fresh id and the form's fields, status Pending, 0 votes, not voted on, the user's id and name, and the two clock readings as `createdAt` and `updatedAt`. Ids stay unique. |
| UserIssues.NewestFirstOf | src/services/userIssues.ts:12-14 | The reporter's sorted list is a permutation of the reporter's store issues, ordered newest first. |
| UserIssues.NewestFirstIsStable | src/services/userIssues.ts:14 | The reporter's issues created at one instant come out in store order. |
| UserIssues.GetMyIssues | src/services/userIssues.ts:8-22 | Every returned issue belongs to the reporter and is in the store; the result is newest first and has at most `limit` issues. |
| UserIssues.GetMyIssuesPage | src/services/userIssues.ts:16 | For page and limit of at least 1 the result is the reference page of the sorted list; a page past the reporter's issues is empty. |
| UserIssues.FirstPageHoldsAllOfThem | src/services/userIssues.ts:12-16 | When the limit covers all of the reporter's issues, page 1 is a permutation of exactly the reporter's store issues. |
| UserIssues.UnknownUserGetsNothing | src/services/userIssues.ts:13-16 | A user with no issues in the store gets an empty list for every page and limit. |
| UserIssues.NewestIssueFirst | src/services/userIssues.ts:14 | An appended issue newer than all of its reporter's earlier issues heads that reporter's sorted list. |
| UserIssues.NewIssueHeadsFirstPage | src/services/userIssues.ts:12-16 | Such an appended issue heads the reporter's first page, for any limit of at least 1. |
| UserIssues.GetUserIssues | src/services/userIssues.ts:27-29 | `getUserIssues` is `getMyIssues` with page 1 and limit 10, so returns at most ten issues. |
| StatisticsService.CountBy | src/services/statisticsService.ts:14-17 | The `reduce` loop builds exactly the tally: every key that occurs, mapped to its number of occurrences, and no other key. |
| StatisticsService.TopVoted | src/services/statisticsService.ts:26-28 | The top list has `min(5, length)` issues, sorted by votes from most to least, all drawn from the store. |
| StatisticsService.GetIssueStatistics | src/services/statisticsService.ts:7-36 | Two things hold for statuses and for categories alike. A key is present exactly when some issue has it. Its count is the number of issues with it. Both maps' counts add up to `totalIssues`, which is the store's length. |
| StatisticsService.StatusCounts | src/services/statisticsService.ts:14-17 | A status is a key exactly when some issue has it, and its count is the number of issues with that status. |
| StatisticsService.CategoryCounts | src/services/statisticsService.ts:20-23 | A category is a key exactly when some issue has it, and its count is the number of issues in that category. |
| StatisticsService.CountsAddUp | src/services/statisticsService.ts:14-23 | The status counts and the category counts each add up to the number of issues. |
| StatisticsService.SumCountsCoverAll | src/services/statisticsService.ts:14-23 | When every key is listed once, the occurrence counts over the list add up to the number of keys. |
| StatisticsService.TopVotedBound | src/services/statisticsService.ts:26-28 | Every issue left out of the top list has at most as many votes as the top list's last issue. |
| StatisticsService.TopVotedStable | src/services/statisticsService.ts:27 | Issues with equal votes appear in the top list in store order, as a prefix of their store tie group. |
| StatisticsService.StatisticsSeeAppend | src/services/statisticsService.ts:11-34 | One more issue adds one to the total and one to the counts of its own status and category; no other count changes. |
| StatisticsService.TallyAppend | src/services/statisticsService.ts:15 | One more key adds one to its own count and changes no other. |
| SharedStore.SeedColumns | src/data/mockIssues.ts:6-197 | The seed's statuses, categories, votes and reporters, read in store order, are the listed columns. |
| SharedStore.SeedStatusCounts | src/data/mockIssues.ts:12-183 | The seed statistics count 4 Pending, 4 In Progress, 2 Completed and no Rejected, out of 10 issues. |
| SharedStore.SeedCategoryCounts | src/data/mockIssues.ts:11-182 | The seed statistics count 2 issues in each category but Other, which is absent. |
| SharedStore.SeedTopVoted | src/data/mockIssues.ts:19-190 | The seed's top-voted issues have 12, 11, 10, 9 and 8 votes, in that order. |
| SharedStore.TopVotedOfVotes | src/services/statisticsService.ts:26-28 | Any store whose vote column is the seed's has 12, 11, 10, 9, 8 as its top votes. |
| SharedStore.DistinctVotesSortStrictly | src/services/statisticsService.ts:27 | With pairwise different vote counts, the sorted vote counts strictly decrease and are exactly the store's vote counts. |
| SharedStore.LeadingVotes | src/data/mockIssues.ts:19-190 | A strictly decreasing list of exactly the seed's vote counts starts 12, 11, 10, 9, 8. |
| SharedStore.SeedListingKeepsStoreOrder | src/data/mockIssues.ts:23-194 | If the clock does not tick between the seed's ten creation readings, a reporter's listing of the seed is their issues in store order. |
| SharedStore.SeedListingFollowsTheClock | src/data/mockIssues.ts:23-194 | If the clock ticks before the last seed record is created, that record heads user-1's listing ahead of the three earlier records: the listing is then newest first, not store order. |
| SharedStore.ListingOfSameInstant | src/services/userIssues.ts:12-16 | At most ten issues all created at one instant are listed for a reporter as the reporter's issues in store order. |
| SharedStore.SeedReporterCounts | src/data/mockIssues.ts:21-192 | In the seed, user-1 lists 4 issues and user-2 and user-3 list 3 each, however the clock ran during module load. |
| SharedStore.ListingLength | src/services/userIssues.ts:12-16 | A store of at most ten issues lists all of a reporter's issues. |
| SharedStore.ReportThenQuery | src/data/mockIssues.ts:199-203 | After `createIssue`, the listing and the statistics read the same store. The new issue heads its reporter's listing. The statistics count one more issue and one more Pending issue. |
| AuthContext.EmailName | src/contexts/AuthContext.tsx:45 | The derived name is a prefix of the address without "@", and it stops either at the first "@" or at the end. |
| AuthContext.EmailNameUnique | src/contexts/AuthContext.tsx:45 | Those three properties determine the derived name: any string that has them is it. |
| AuthContext.EmailNameOfAddress | src/contexts/AuthContext.tsx:45 | `name@domain` yields `name`, and an address with no "@" yields itself. |
| AuthContext.SessionId | src/contexts/AuthContext.tsx:43 | The id starts with "user-" and adds at most nine characters, namely characters 2 to 10 of the random rendering when it is long enough. |
| AuthContext.AuthProvider.IsAuthenticated | src/contexts/AuthContext.tsx:82 | The session is authenticated exactly when a user is set. In a valid state, an authenticated user is the one persisted in the slot. |
| AuthContext.AuthProvider.constructor | src/contexts/AuthContext.tsx:26-27 | On mount nobody is signed in, the provider is loading, and the slot is as the previous page left it. |
| AuthContext.AuthProvider.RestoreSession | src/contexts/AuthContext.tsx:29-36 | After the mount effect loading is over, the user is the stored record if there is one (else unchanged), and the session is authenticated exactly when a record is stored. |
| AuthContext.AuthProvider.Login | src/contexts/AuthContext.tsx:38-54 | With non-empty email and password, login resolves. The user becomes a `user-` id, the address, the name before "@" and the time, and is persisted. Otherwise it rejects with "Invalid credentials" and leaves user and slot unchanged. |
| AuthContext.AuthProvider.Register | src/contexts/AuthContext.tsx:56-71 | With non-empty name, email and password, register resolves. The user becomes a `user-` id, the address, the name and the time, and is persisted. Otherwise it rejects with "Registration failed" and leaves user and slot unchanged. |
| AuthContext.AuthProvider.Logout | src/contexts/AuthContext.tsx:73-76 | From any state, nobody is signed in afterwards and the slot is empty. |
| AuthContext.AuthProvider.Reload | src/contexts/AuthContext.tsx:25-27 | Reloading the page mounts a new provider over the same slot, not signed in and loading. |
| AuthContext.LoginSurvivesReload | src/contexts/AuthContext.tsx:29-54 | A successful login followed by a reload and the mount effect restores the same user. |
| AuthContext.LogoutSurvivesReload | src/contexts/AuthContext.tsx:29-76 | A logout followed by a reload and the mount effect leaves nobody signed in. |
| PasswordStrengthIndicator.CalculatePasswordStrength | src/components/auth/PasswordStrengthIndicator.tsx:30-50 | The counter ends at the reference score: one point each for a length of at least 8 UTF-16 code units, both letter cases, a digit, and a character outside a-zA-Z0-9. The result is at most 4. |
| PasswordStrengthIndicator.Utf16LengthBounds | src/components/auth/PasswordStrengthIndicator.tsx:31 | `password.length` counts one or two UTF-16 units per character. It is 0 only for the empty string, and it equals the number of characters when none lies beyond the Basic Multilingual Plane. |
| PasswordStrengthIndicator.AstralCharCountsTwice | src/components/auth/PasswordStrengthIndicator.tsx:38 | Six letters and one emoji make eight UTF-16 units. The password earns the length point and the special-character point, for a score of 2. |
| PasswordStrengthIndicator.ScoreRange | src/components/auth/PasswordStrengthIndicator.tsx:31-49 | The score lies between 0 and 4, and the empty password scores 0. |
| PasswordStrengthIndicator.ShortScoresAtMostThree | src/components/auth/PasswordStrengthIndicator.tsx:38 | A password shorter than 8 UTF-16 units scores at most 3. |
| PasswordStrengthIndicator.OneCaseEarnsNoCasePoint | src/components/auth/PasswordStrengthIndicator.tsx:41 | A password lacking one of the letter cases scores only its length, digit and special points. |
| PasswordStrengthIndicator.ScoreZeroExactly | src/components/auth/PasswordStrengthIndicator.tsx:38-47 | A password scores 0 exactly when it is shorter than 8 UTF-16 units and all lower-case letters or all upper-case letters. |
| PasswordStrengthIndicator.ScoreFourExactly | src/components/auth/PasswordStrengthIndicator.tsx:38-47 | A password scores 4 exactly when it passes all four tests. |
| PasswordStrengthIndicator.GetPasswordStrengthColor | src/components/auth/PasswordStrengthIndicator.tsx:9-17 | The colour is the grey "#E2E8F0" exactly when the strength is not one of 1 to 4. |
| PasswordStrengthIndicator.ColoursDistinct | src/components/auth/PasswordStrengthIndicator.tsx:11-14 | The strengths 1 to 4 have four different colours. |
| PasswordStrengthIndicator.GetPasswordStrengthText | src/components/auth/PasswordStrengthIndicator.tsx:19-28 | The label is empty exactly when the strength is not one of 1 to 4. |
| PasswordStrengthIndicator.TextsDistinct | src/components/auth/PasswordStrengthIndicator.tsx:22-25 | The strengths 1 to 4 have four different labels. |
| PasswordStrengthIndicator.MeterShowsScore | src/components/auth/PasswordStrengthIndicator.tsx:9-50 | A password's score shows a label and a non-grey colour exactly when it is above 0. |

## Left out

- Rendering: every React component, the strength meter's bar width, and the `null` it renders for an empty password. These are presentation.
- The simulated `setTimeout` latency. Every service is modelled as a synchronous call.
- Concurrency between overlapping service calls is left out.
- `uuidv4()`: an `id` parameter that must not be in the store yet. The seed's ten ids are a parameter of ten distinct strings.
- `Math.random().toString(36)`: a `digits` string parameter. Only its `substr(2, 9)` is modelled.
- `new Date().toISOString()`: each reading is an integer parameter counting milliseconds, which orders timestamps the way `getTime()` does. There are twenty separate readings for the seed and two for `createIssue`, and the model leaves them unconstrained.
- The order of the seed listing depends on the clock:
  - Store order is proved only when the ten creation readings are equal (`SharedStore.SeedListingKeepsStoreOrder`).
  - For any other clock the listing is newest first, as `SharedStore.SeedListingFollowsTheClock` shows.
- `localStorage` and `JSON.stringify`/`JSON.parse`: one `Option<User>` slot for the `"user"` key. They round-trip the record unchanged, and the restore path does no validation, as in the source.
- Coordinates are `real` values that no operation computes with. Floating-point map arithmetic is left out.
- The count maps are keyed by the enumerations, not the label strings. The labels are distinct (`Types.CategoriesAreExactlySix`, `Types.StatusesAreExactlyFour`), so keys and counts agree with the source's objects.
- `StatisticsService.GetIssueStatistics`: key order is dropped. The source's objects list their keys in first-occurrence order, and the pages render them in that order through `Object.entries`. A Dafny `map` has no order, so the model does not say in which order the chart entries appear.
- `getPasswordStrengthColor`/`getPasswordStrengthText` take an `int`. A non-integer JavaScript number falls into the default branch, which is not modelled.
- Default parameter values (`page = 1`, `limit = 10`) are constants, and callers pass them.
- `getMockIssues` returning the live array is modelled by passing `store.issues` at the time of each query. No copy is modelled. `slice`, `filter` and the spread copy leave the store as it is, because the queries are functions of a value.
- Field-length limits on titles and descriptions belong to the form schema, not to `createIssue`, and are left out.
- Voting and status changes: no code changes votes, `hasUserVoted` or status after creation, so nothing is modelled.
- `@/services/issueService`, which the pages import, is not part of this model.
