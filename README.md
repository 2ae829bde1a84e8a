# crowdvalme voting, modelled in Dafny

crowdvalme is an idea-voting web application. Users submit ideas, and
other users vote for them with a small allowance of tokens. This project
models the parts of the repository that hold the voting rules, and proves
properties of them:

- **Weekly token bucket** (`backend/src/utils/tokenManager.ts`, module
  `Tokens`). A user holds at most 10 tokens, refilled once 604,800,000 ms
  have passed since the last refill. One token is spent per vote.
- **Vote and idea routes of the backend** (`backend/src/app.ts`, modules
  `VoteApi` and `IsoWeek`). `POST /api/ideas/:ideaId/vote` spends a token,
  rejects a second vote of the same user for the same idea under the same
  `(year, weekNumber)` pair, records the vote, bumps the idea's counters,
  and reports the balance. As written, `weekNumber` is the ISO week of the
  vote and `year` is the calendar year of the vote (see "## Findings"). `POST /api/ideas` stores a new idea. `getISOWeek` and the
  `(year, weekNumber)` key are modelled over day numbers.
- **Client-side transactions** (`frontend/src/services/ideaService.ts`,
  module `IdeaService`). `voteOnIdea` allows one vote per user and idea for
  all time, under the document id `userId_ideaId`. `createIdea` allows at
  most 3 unexpired ideas per user, and parses the comma-separated tags.
- **In-memory browse page** (`src/pages/BrowsePage.tsx`, module
  `BrowsePage`). It starts with 30 tokens, and each project can get one
  vote.
- **Admin token reset** (`functions/index.js`, module `ResetTokens`). Only
  the admin uid may call it. It sets `tokensAvailable` to 5 for every user
  in one batch.
- **Profile editor** (`frontend/src/pages/Profile.tsx`, module
  `ProfilePage`). It sends only the changed fields and derives the
  `@handle` from the display name.

Modules `Types` (the database records) and `Text` (JavaScript `split`,
`trim`, `toLowerCase`, `\s` removal and integer formatting) support the
others.

How the model is shaped:

- Objects and components whose state changes in place are classes:
  - `Types.AdminDb`, the backend's view of the `users`, `ideas` and `votes`
    collections;
  - `IdeaService.ClientDb`, the same collections as the client sees them;
  - `BrowsePage.BrowsePage` and `ProfilePage.ProfilePage`, the React
    components.
- Their operations are methods with `modifies` clauses. The pure parts are
  functions with lemmas.
- Time is an integer number of milliseconds. Each request's clock reads are
  one parameter `now`.
- Generated document ids are parameters.
- Each Firestore transaction or batch is one atomic step.

Behaviour of the code that the model keeps, although a reader might expect
otherwise:

- The vote route is not one transaction. The token is spent first and stays
  spent when the route then answers "Already voted this week" or fails on a
  missing idea. `VoteApi.CastVote` states exactly what each of these paths
  leaves behind.
- The route checks the balance before it checks for a duplicate vote. A
  repeated vote with no tokens left is therefore answered "No tokens
  available".
- The balance is refilled after the vote, not before it. The balance
  reported is the one after that refill.
- A missing user gives status 500, not 404. There are no retries.
- The vote's `year` is the calendar year of `now`, not the year of its ISO
  week. `VoteApi.CastVote` files votes this way. The corrected key is
  modelled beside it as `VoteApi.CastVoteIsoYear`.

## Model

| member | source | states |
|---|---|---|
| Tokens.RefreshUserTokens | backend/src/utils/tokenManager.ts:9-32 | A missing user fails with "User not found" and changes nothing. Once a full week (604,800,000 ms) has passed since the last refill, the balance becomes 10 and the refill time `now`. Otherwise nothing changes. The result is the balance stored afterwards. Balances in 0..10 stay in 0..10. |
| Tokens.UseToken | backend/src/utils/tokenManager.ts:34-56 | A missing user fails and changes nothing. A balance below 1 gives `false` and changes nothing. Otherwise the result is `true`, the balance falls by 1, `totalVotesCast` rises by 1, `updatedAt` becomes `now`, and the balance stays non-negative. Ideas and votes are untouched. |
| Tokens.Refreshed | backend/src/utils/tokenManager.ts:22-29 | A due refill sets the balance to 10 and the refill time to `now`. Otherwise the record is unchanged. No other field changes, and a balance in 0..10 stays in 0..10. |
| Tokens.Spent | backend/src/utils/tokenManager.ts:48-52 | Spending lowers the balance by 1, raises `totalVotesCast` by 1 and sets `updatedAt` to `now`. The refill time and every other field stay. |
| Tokens.RefreshIdempotent | backend/src/utils/tokenManager.ts:22-29 | A second refresh at the same instant changes nothing. A due refill gives exactly 10 tokens and is then no longer due. |
| Tokens.SpendingKeepsRefillSchedule | backend/src/utils/tokenManager.ts:22-52 | Spending a token keeps the refill time, so a later refill is due exactly when it would have been without the vote. The balance then is 10, or one less than before the vote. |
| IsoWeek.DayInYear | backend/src/app.ts:152-153 | The date `n` days after 1 January of a year, with `n` negative or past the year's end as `Date.setDate` allows, is a valid day of the Gregorian year it lands in. |
| IsoWeek.Weekday | backend/src/app.ts:152 | `getDay()` of a day number lies in 0..6. |
| IsoWeek.CeilDiv | backend/src/app.ts:154 | `Math.ceil(a / b)` is the least `q` with `a <= q * b`. |
| IsoWeek.WeekOfDay | backend/src/app.ts:149-155 | The week number of a day, counted from its week's Thursday, lies in 1..53. |
| IsoWeek.GetISOWeek | backend/src/app.ts:149-155 | `getISOWeek(now)` lies in 1..53. |
| IsoWeek.DayOf | backend/src/app.ts:151 | `setHours(0, 0, 0, 0)` gives the day that contains the instant. |
| IsoWeek.ThursdayOf | backend/src/app.ts:152 | Moving a date to the Thursday of its week, with Sunday counted as day 7, lands on a Thursday at most 3 days away. |
| IsoWeek.WeekKeyAsWritten | backend/src/app.ts:104-106 | The vote's `year` is the calendar year of the day of `now`. Its `weekNumber` is the ISO week, the same as in the corrected key, in 1..53. |
| IsoWeek.WeekKey | backend/src/app.ts:104-106 | The corrected key pairs `getISOWeek(now)` with the year of the Thursday of the week of `now`, the day the week number is counted from. |
| IsoWeek.DateOfYearStart | backend/src/app.ts:153 | The closed-form day number of 1 January of a year (`new Date(year, 0, 1)`), plus `o`, is day `o` of that year in the calendar. |
| IsoWeek.DateOfNext | backend/src/app.ts:152 | Consecutive day numbers are consecutive calendar dates. |
| IsoWeek.DateAdvance | backend/src/app.ts:152-154 | Moving `k` days forward moves to a later year, or stays in the same year with the day of the year `k` higher. |
| IsoWeek.TimeOfDayIgnored | backend/src/app.ts:151 | The time within a day changes neither the week number nor the key. |
| IsoWeek.KeyOfDayIffSameWeek | backend/src/app.ts:104-106 | Two days get the same corrected `(year, weekNumber)` exactly when they share the Monday of their Monday-to-Sunday week. |
| IsoWeek.KeysOfLaterWeekDiffer | backend/src/app.ts:152-154 | Thursdays at least 7 days apart get different `(year, week)` pairs. |
| IsoWeek.WeekKeyChangesOnlyOnMonday | backend/src/app.ts:104-106 | The corrected key of the next day differs exactly when the day is a Sunday. |
| IsoWeek.AsWrittenKeyCollides | backend/src/app.ts:104-106 | As written, Sunday 2023-01-01 and Sunday 2023-12-31 both get the key (2023, 52) although they are 52 weeks apart. The corrected keys are (2022, 52) and (2023, 52). |
| IsoWeek.AsWrittenKeySplitsWeek | backend/src/app.ts:104-106 | As written, Tuesday 2024-12-31 and Wednesday 2025-01-01 share a week but get (2024, 1) and (2025, 1). Corrected, both get (2025, 1). |
| VoteApi.AddingNewKeyKeepsOneVotePerKey | backend/src/app.ts:108-133 | Adding a vote whose `(userId, ideaId, weekNumber, year)` the ledger does not hold keeps at most one vote per key, and the vote is then found. |
| VoteApi.VoteFiledUnder | backend/src/app.ts:87-146 | The route's steps in source order, for a given `(year, weekNumber)` pair: every answer and every write of each path as listed for `CastVote`, the ledger kept at one vote per key, balances kept in 0..10. |
| VoteApi.CastVote | backend/src/app.ts:87-146 | The route files votes under `(now.getFullYear(), getISOWeek(now))`. A call without a user gives 401 and changes nothing, as does a missing user (500) or a balance below 1 (400 "No tokens available"). Otherwise a token is spent. If a vote with this key exists, the answer is 400 "Already voted this week" and nothing else changes. If not, the vote is written with that year and week number. A missing idea then gives 500. Otherwise both idea counters rise by 1, the balance is refreshed, and the answer is 200 with the refreshed balance. The ledger keeps one vote per key, balances stay in 0..10, and a 200 leaves a vote under this key. |
| VoteApi.CastVoteIsoYear | backend/src/app.ts:87-146 | The same route with the corrected key `WeekKey(now)`: every path, answer and write as for `CastVote`, with the vote filed under the year of the week's Thursday. |
| VoteApi.IsoKeyBlocksExactlySameWeek | backend/src/app.ts:108-119 | With the corrected key, the duplicate query for one user and idea matches an earlier vote exactly when both lie in the same Monday-to-Sunday week. |
| VoteApi.AsWrittenBlocksVoteAYearLater | backend/src/app.ts:104-119 | As written, a vote on Sunday 2023-01-01 makes the duplicate query match a vote for the same idea on Sunday 2023-12-31, so that vote is answered "Already voted this week". The corrected keys of the two days differ. |
| VoteApi.SubmitIdea | backend/src/app.ts:49-84 | Without a user the answer is 401 and nothing changes. Otherwise the idea is written as active with 0 total and 0 weekly votes. The creator's `ideasSubmitted` rises by 1 and the answer is 201 with the idea. If the creator's record is missing, the answer is 500 and the idea stays written. Votes are untouched. |
| Text.Split | frontend/src/services/ideaService.ts:36 | `split(",")` gives at least one piece, and no piece holds the separator. |
| Text.JoinSplit | frontend/src/services/ideaService.ts:36 | Joining the pieces with the separator restores the string. |
| Text.SplitJoin | frontend/src/services/ideaService.ts:36 | Splitting the join of separator-free pieces gives those pieces back. |
| Text.Trim | frontend/src/services/ideaService.ts:36 | `trim()` is the part of the input that starts after its leading white space, character for character, and only white space lies outside it. It has no white space at either end, and it is empty exactly when the input is all white space. |
| Text.TrimIdempotent | frontend/src/services/ideaService.ts:36 | Trimming twice equals trimming once. |
| Text.Lowercase | frontend/src/pages/Profile.tsx:187 | `toLowerCase()` keeps the length and lowers each letter A-Z. |
| Text.StripWhitespace | frontend/src/pages/Profile.tsx:187 | `replace(/\s+/g, "")` leaves no white space and is no longer than its input. |
| Text.StripWhitespaceKeeps | frontend/src/pages/Profile.tsx:187 | Removing white space keeps every other character of the input and adds none. |
| Text.StripWhitespaceAppend | frontend/src/pages/Profile.tsx:187 | Removing white space from a concatenation removes it from each part. |
| Text.DecimalDigits | frontend/src/services/ideaService.ts:13 | The decimal rendering of a natural number is non-empty and made of digits. It starts with `0` only for 0, and it has one digit exactly below 10. |
| Text.DecimalRoundTrip | frontend/src/services/ideaService.ts:13 | Reading the decimal digits back gives the number. |
| Text.IntToStringInjective | frontend/src/services/ideaService.ts:13 | Different integers render as different strings. |
| IdeaService.VoteDocId | frontend/src/services/ideaService.ts:49 | The vote document id is the user id, `_`, then the idea id. |
| IdeaService.IdeaIdFor | frontend/src/services/ideaService.ts:13 | The idea id is the user id, `-`, then the decimal rendering of `now`. |
| IdeaService.ActiveIdeas | frontend/src/services/ideaService.ts:22-28 | The query returns exactly the stored ideas of the user that expire after `now`. |
| IdeaService.ParseTags | frontend/src/services/ideaService.ts:36 | Absent or empty tags give no tags. Otherwise there is one tag per comma-separated piece, each piece trimmed. No tag holds a comma or has white space at either end. |
| IdeaService.VoteDocIdInjective | frontend/src/services/ideaService.ts:49 | For user ids without `_`, the vote document id determines the user and the idea. |
| IdeaService.IdeaIdsDifferByTime | frontend/src/services/ideaService.ts:13 | Two idea ids of one user are equal only when created at the same millisecond. |
| IdeaService.ActiveLimitKept | frontend/src/services/ideaService.ts:22-41 | Writing one idea for a user with fewer than 3 active ideas leaves at most 3. |
| IdeaService.VoteOnIdea | frontend/src/services/ideaService.ts:45-66 | The four checks apply in source order, with their messages: "User does not exist", "Idea does not exist", "User has already voted", "No tokens available". A failed check changes nothing. Success lowers the balance by 1, raises `voteCount` by 1 and adds exactly one vote document, under `userId_ideaId`. Non-negative balances stay non-negative. Every vote document stays under the id of its own pair. |
| IdeaService.CreateIdea | frontend/src/services/ideaService.ts:6-43 | The call fails with "User does not exist", or with "Maximum of 3 active ideas reached" when the user has 3 or more ideas expiring after `now`, and a failure changes nothing. Otherwise it writes, under `userId-now`, an idea with 0 votes, the parsed tags and an expiry 7 days after `now`. The user then has at most 3 active ideas. Users and votes are untouched. |
| BrowsePage.WithVote | src/pages/BrowsePage.tsx:16-22 | The project with the voted id gains one vote. Every other project is unchanged, and the list keeps its length and order. |
| BrowsePage.SumVotesWithVote | src/pages/BrowsePage.tsx:16-22 | One vote adds to the total shown exactly the number of cards that carry the id. |
| BrowsePage.AfterVotesKeepsIds | src/pages/BrowsePage.tsx:16-22 | Votes never change which projects are listed or their order. |
| BrowsePage.BrowsePage.constructor | src/pages/BrowsePage.tsx:8-10 | The page starts with the loaded projects, 30 tokens and no votes. |
| BrowsePage.BrowsePage.HandleVote | src/pages/BrowsePage.tsx:13-25 | A vote takes effect only with tokens left and a project not voted before. Then the tokens fall by 1, the project's votes rise by 1, and the id is appended. Otherwise nothing changes. The tokens stay non-negative, tokens plus votes cast stay 30, no project is voted twice, and the cards show exactly the votes cast. |
| ResetTokens.Apply | functions/index.js:22 | An update of an existing document sets the one field and leaves every other document as it was. An update of a missing document fails. |
| ResetTokens.Commit | functions/index.js:24 | A batch commits exactly when every queued update names an existing document, and a committed batch never adds or removes a document. |
| ResetTokens.ResetAll | functions/index.js:19-24 | After the reset every user has `tokensAvailable` 5. No user is added or removed, and every other field keeps its value. |
| ResetTokens.ResetAllIdempotent | functions/index.js:22 | Resetting twice gives the same users as resetting once. |
| ResetTokens.QueueResets | functions/index.js:19-24 | The loop queues exactly one update per user, and committing the batch gives every user the reset. |
| ResetTokens.ResetTokensCall | functions/index.js:15-26 | A caller who is not signed in or is not `YOUR_ADMIN_UID` gets `permission-denied` "Only admin can reset tokens", and no user changes. For the admin, the batch queued for all users commits to the reset collection, and the call returns "Tokens reset successfully". |
| ProfilePage.ChangedFields | frontend/src/pages/Profile.tsx:68-77 | `displayName` and `email` are each sent exactly when edited and different from the profile's value (no profile counts as different). The value sent is the edited one, and no other field is ever sent. |
| ProfilePage.ChangedFieldsSuffice | frontend/src/pages/Profile.tsx:67-77 | If the server overwrites the fields it is sent (the reference `ApplyEdits`), sending only the changed fields gives the same profile as sending every edited field. |
| ProfilePage.NothingChangedAfterApply | frontend/src/pages/Profile.tsx:68-83 | Once the edits are in the profile under the same overwrite meaning, saving them again sends no request. |
| ProfilePage.Handle | frontend/src/pages/Profile.tsx:187 | The handle has no white space and no capital letter A-Z. |
| ProfilePage.HandleIdempotent | frontend/src/pages/Profile.tsx:187 | The handle of a handle is the handle itself. |
| ProfilePage.HandleIgnoresWhitespace | frontend/src/pages/Profile.tsx:187 | White space inserted anywhere in the display name does not change the handle. |
| ProfilePage.ProfilePage.HandleSave | frontend/src/pages/Profile.tsx:64-99 | The error is cleared first. With no changed field, no request is sent and only edit mode is left. Otherwise only the changed fields are sent. On success the profile becomes the response, edit mode is left, the edits are cleared, and "Profile updated successfully" is set. On failure "Failed to update profile. Please try again." is set, and the profile, edit mode and edits stay as they were. |
| ProfilePage.ProfilePage.HandleCancel | frontend/src/pages/Profile.tsx:101-104 | The edits are cleared and edit mode is left. Nothing else changes. |

## Left out

- Concurrency. Firestore transactions, batches and their retries are single atomic steps, and there are no interleavings of requests.
- Local time and daylight saving. A day is `ms / 86,400,000` in UTC, and the proleptic Gregorian calendar stands in for `Date`. The floating-point division in `getISOWeek` is exact integer arithmetic here.
- One instant per request. The several clock reads in one request (`new Date()`, `Timestamp.now()`, `Date.now()`) are a single `now`.
- Generated document ids (`collection(...).doc().id`) are parameters. Writing to an id already present overwrites, as `set` does.
- `toLowerCase` lowers only A-Z. Other Unicode case mappings are not modelled.
- `createIdea` uses seven times 86,400,000 ms for its expiry, not the local-calendar `setDate(+7)`.
- The active-idea query runs outside the transaction in the source. Here it reads the same state as the rest of the transaction.
- Ideas are not validated against their declared types (`category`, `title` and the rest are taken as given). The `tokens` field is assumed present in every user record.
- `weeklyVotes` is never reset, as in the source. No weekly reset job exists to model.
- `GET /api/user`, authentication middleware, Firebase configuration, Redis, seed and test scripts, and the page rendering are not part of this model.
- The browse page's projects come from a bundled JSON file, which is not part of this model. The constructor takes them as a parameter.
- The server side of `PUT /api/user` is not part of this model, since no such route exists in `backend/src/app.ts`. `ProfilePage.ApplyEdits` is the assumed meaning of the request body: each field sent overwrites the stored one. `ChangedFieldsSuffice` and `NothingChangedAfterApply` hold relative to that assumption.
- `handleSave` models only one awaited request. Its `fetchWithAuth` call, the logging, and the snackbar handler are left out.

## Findings

| source | as written | input that shows it | evidently intended | confidence | as-written member | corrected member |
|---|---|---|---|---|---|---|
| backend/src/app.ts:104-106 | The vote's `year` is `now.getFullYear()`, but `weekNumber` counts from the Thursday of the week, which may fall in the previous or next year. | Sunday 2023-01-01 and Sunday 2023-12-31 both get (2023, 52), so a vote on 2023-01-01 blocks a vote 52 weeks later. Tuesday 2024-12-31 and Wednesday 2025-01-01 get (2024, 1) and (2025, 1), so two votes in one ISO week both pass. | The year of the week's Thursday (the ISO week-numbering year): two instants share a key exactly when they share a Monday-to-Sunday week. | not executed | VoteApi.AsWrittenBlocksVoteAYearLater | VoteApi.IsoKeyBlocksExactlySameWeek |
