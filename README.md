# ABCD platform: ideas, investments and teams

This project models the core of the ABCD platform. On this web app students:

- submit ideas;
- invest platform tokens in them;
- form teams around an idea and join them;
- keep a team's updates, tasks and results;
- sign in, sign up and reset a password;
- watch their token balance and history;
- study a short AI course with a quiz.

The Supabase tables (ideas, idea investments, token transactions, teams, team members) are one class, `Database.Db`. Its fields are sequences, and the operations append to them or rewrite them. Each page or dialog whose handlers change React state becomes a class. The page's state variables are its fields, and its handlers are methods with `modifies` clauses. Decisions, filters, formatters and the list algebra behind them are functions, with lemmas about them.

How the outside world enters the model:

- Each answer from the backend is a parameter. The failure of a read or a write is an `Option<string>` (or, for a read whose data is passed in, a `Result`), and a modelled reader returns a `Result` that carries that failure as the store's error. The answer can only be a failure the code handles, or the data the code then uses.
- The signed-in user is an `Option<UserId>`.
- The clock is a `Timestamp` parameter, in milliseconds.
- The token balance, which comes from a token service that is not part of this model, is a parameter.

Modules:

- `Wrappers`, `JsText`: `Option`/`Result`, and the JavaScript string helpers the code relies on: `trim`, `includes`, `parseInt`.
- `Sorting`: the stable descending sort behind `Array.prototype.sort` and `.order(..., {ascending:false})`, `slice(0, n)`, and the "first n badges and `+k`" pattern.
- `Types`: the records of the database as the code reads them.
- `Database`: the tables, fresh ids, the ledger append, and the `ilike` search over four idea columns.
- `Api`: `src/lib/api.ts`.
- `IdeaService`: `src/services/ideaService.ts`. This covers the aggregates, the investment upsert and debit, and the investment reads.
- `ListEdits`: the duplicate-free, trimmed, capped tag and skill lists of the two forms.
- `TeamRules`: the join rules shared by the team list, the team dialog and the team page.
- One module per page or component: `IdeasPage`, `NewIdeaPage`, `NewTeamPage`, `TeamsPage`, `TeamDetailModal`, `TeamDetailPage`, `InvestmentModal`, `MyPage`, `AuthCallback`, `ResetPage`, `AuthModal`, `LearnPage`.

Where the code and the documented design disagree, the model follows the code:

- The dashboard reads its list through `listIdeas` of `src/lib/api.ts`, not through the idea service. `IdeasPage.Page.LoadIdeas` loads that listing: it has no visibility filter and carries no investment totals (see Findings). `IdeasPage.Listing` is the listing with the idea service's aggregates.
- `investInIdea` does not check that the amount is positive or at least 100; only the investment dialog does. `IdeaService.InvestInIdea` accepts any amount, as the code does.
- `investInIdea` writes its debit with `addTokenTransaction(-amount, 'investment', ...)` directly. The only balance check is its own one before the upsert.
- The team detail page and the team dialog call `joinTeam` without skills, so the member row's skills are absent.

## Model

| member | source | states |
|---|---|---|
| Api.IdeaRow | src/lib/api.ts:16-24 | a new idea row carries the submitted texts, tags defaulting to `[]`, the owner, the stage "아이디어", and no likes or aggregates |
| Api.AddIdea | src/lib/api.ts:4-30 | no user is a login error; an insert error is reported and leaves the table; otherwise exactly one idea row with a fresh id is appended and returned; no other table changes |
| Api.ListIdeas | src/lib/api.ts:32-45 | the result is sorted newest first and is a permutation of the search result; with no query or an empty one it is a permutation of the whole table |
| Api.ListIdeasMatches | src/lib/api.ts:38-40 | for a non-empty query, an idea is listed exactly when it is stored and one of title, domain, problem, AI solution contains the query |
| Api.ToggleLikeFlips | src/lib/api.ts:59-64 | after the toggle the user is in the like list exactly when they were not before |
| Api.ToggleLikeKeepsOthers | src/lib/api.ts:59-64 | the toggle keeps every other user's likes, with their multiplicity |
| Api.ToggleTwiceFromAbsent | src/lib/api.ts:59-64 | toggling twice from "not liked" restores the list exactly |
| Api.ToggleTwiceFromPresent | src/lib/api.ts:59-64 | toggling twice from "liked" removes every copy of the user and appends one at the end |
| Api.SetLikes | src/lib/api.ts:66-69 | the update by id keeps the number and ids of the ideas |
| Api.SetLikesEffect | src/lib/api.ts:66-69 | the ideas with that id take the new like list; every field other than the like list is unchanged |
| Api.LikeIdea | src/lib/api.ts:47-72 | login error without a user; "not found" when the read fails (its error is never looked at) or unless exactly one idea has the id; an update error is reported; success exactly otherwise, and then that idea's likes are toggled, with nothing else changed |
| Api.TeamRow | src/lib/api.ts:87-96 | a new team row carries the form's fields, the leader, one current member and the status "모집중" |
| Api.LeaderRow | src/lib/api.ts:103-110 | the leader's membership row is approved and has the leader role |
| Api.CreateTeam | src/lib/api.ts:75-113 | login error without a user; a team insert error leaves both tables unchanged; otherwise one team row and then one leader row is appended; the member insert error is ignored |
| Api.ListTeams | src/lib/api.ts:115-130 | the list of teams is a permutation of the table, sorted newest first |
| Api.JoinRow | src/lib/api.ts:138-144 | a join request is a pending member row for that team and user, with the skills given |
| Api.JoinTeam | src/lib/api.ts:132-150 | login error without a user; an insert error leaves the members table; otherwise exactly one pending row is appended and returned |
| Database.AppendTransaction | src/services/ideaService.ts:157-159 | the ledger grows by exactly the described row with a fresh id; every other table is unchanged |
| Database.Search | src/lib/api.ts:38-40 | the search never returns more ideas than it is given |
| Database.SearchMembers | src/lib/api.ts:38-40 | an idea is found exactly when it is given and one of its four text columns contains the query |
| Database.SearchIfGiven | src/lib/api.ts:38 | no query or the empty query returns the table as it is; the result never grows |
| Database.SearchIfGivenMembers | src/lib/api.ts:38-40 | everything found is stored; for a non-empty query, found exactly when a column contains it |
| Database.IdeasWithId | src/lib/api.ts:51-57 | the ideas with a given id, and only those |
| Database.NoIdeaWithId | src/lib/api.ts:57 | if no idea has the id the lookup finds nothing, which is the "not found" case |
| Database.IdeasWithIdOfDistinct | src/lib/api.ts:51-55 | with distinct ids, the lookup finds at most one row |
| Database.IdeasWithIdFound | src/lib/api.ts:51-57 | with distinct ids, `.single()` succeeds exactly when some stored idea has the id |
| IdeaService.TotalAppend | src/services/ideaService.ts:49 | the total of two runs of rows is the sum of their totals |
| IdeaService.TotalCons | src/services/ideaService.ts:49 | the total of a row followed by a run is the row's amount plus the run's total |
| IdeaService.InvestmentsOf | src/services/ideaService.ts:29-35 | the embedded investment rows all belong to the idea and are drawn from the table |
| IdeaService.InvestmentsOfMembers | src/services/ideaService.ts:29-35 | a row is embedded under an idea exactly when it is stored with that idea's id |
| IdeaService.InvestmentsOfAppend | src/services/ideaService.ts:146-154 | appending a row adds it to its own idea's rows and to no other idea's |
| IdeaService.AggregatesOfNoInvestments | src/services/ideaService.ts:47-58 | an idea without investments shows a total of 0 from 0 investors |
| IdeaService.Visible | src/services/ideaService.ts:36 | the visibility filter never grows the list |
| IdeaService.VisibleMembers | src/services/ideaService.ts:36 | the filter keeps exactly the stored ideas with `is_visible` set |
| IdeaService.FoundAreVisible | src/services/ideaService.ts:36-41 | whatever the query, only stored, visible ideas are listed |
| IdeaService.AttachAggregates | src/services/ideaService.ts:47-58 | attaching aggregates keeps the list's length |
| IdeaService.AttachAggregatesAt | src/services/ideaService.ts:47-58 | each listed idea carries the total and count of exactly its own investment rows |
| IdeaService.AttachAggregatesIsMap | src/services/ideaService.ts:47-58 | attaching the aggregates maps every idea on its own, independent of its neighbours |
| IdeaService.ListIdeas | src/services/ideaService.ts:26-61 | the listing is, as a multiset, exactly the visible ideas matching the query, each carrying its own aggregates (no idea missing, none repeated), newest first |
| IdeaService.ListIdeasFromTable | src/services/ideaService.ts:26-61 | each listed entry is a stored visible matching idea, with its total equal to the sum of its rows and its count equal to their number |
| IdeaService.GetIdeaById | src/services/ideaService.ts:63-88 | a failed read is the store's error; success returns a stored idea with that id, its total being the sum of its rows and its investor count their number; with distinct ids and no read failure, success exactly when the idea exists, otherwise the single-row error |
| IdeaService.Matches | src/services/ideaService.ts:129-134 | the lookup returns only rows of that investor in that idea |
| IdeaService.MatchesMembers | src/services/ideaService.ts:129-134 | a row is found exactly when it is stored for that idea and that investor |
| IdeaService.NoMatches | src/services/ideaService.ts:136-155 | without such a row the lookup is empty, so the insert branch is taken |
| IdeaService.MatchesOfUnique | src/services/ideaService.ts:129-134 | with one row per pair, the lookup finds at most one row |
| IdeaService.BumpAt | src/services/ideaService.ts:138-141 | the update keeps the rows in place and changes only the investor's row in that idea |
| IdeaService.UpsertExisting | src/services/ideaService.ts:136-143 | a repeat investment adds to the investor's row and creates none |
| IdeaService.UpsertNew | src/services/ideaService.ts:144-155 | a first investment appends exactly one row holding the amount |
| IdeaService.BumpOther | src/services/ideaService.ts:138-141 | an update in one idea leaves every other idea's rows unchanged |
| IdeaService.InvestmentsOfBump | src/services/ideaService.ts:138-141 | the idea's rows after the update are its rows with the investor's raised |
| IdeaService.MatchesOfInvestmentsOf | src/services/ideaService.ts:129-134 | looking up the pair among the idea's rows equals looking it up in the table |
| IdeaService.TotalBump | src/services/ideaService.ts:140 | over rows with at most one match, the update adds the amount to the total once or not at all |
| IdeaService.BumpTotal | src/services/ideaService.ts:140 | the idea's total grows by the amount if the investor had a row; its investor count is unchanged |
| IdeaService.UpsertTotals | src/services/ideaService.ts:129-155 | an investment raises the idea's total by exactly the amount and leaves other ideas' rows alone |
| IdeaService.UpsertCount | src/services/ideaService.ts:129-155 | the investor count grows by one exactly when it is the investor's first investment in the idea |
| IdeaService.UpsertKeepsInvariant | src/services/ideaService.ts:129-155 | the upsert keeps one row per (idea, investor) pair and distinct row ids |
| IdeaService.RepeatInvestmentAccumulates | src/services/ideaService.ts:129-155 | two investments by one investor leave one row holding the sum of both amounts |
| IdeaService.MatchesAppend | src/services/ideaService.ts:146-154 | an appended row is found by the lookup exactly when it belongs to the pair |
| IdeaService.BumpMatches | src/services/ideaService.ts:138-141 | after the update the pair's rows are the old ones raised by the amount |
| IdeaService.UpsertIdsBelow | src/services/ideaService.ts:136-155 | after an upsert every row id is below the fresh id, except the inserted row's, which is the fresh id |
| IdeaService.UpdateInvestmentRow | src/services/ideaService.ts:136-143 | with an existing row, the write is the upsert and keeps the store's invariant |
| IdeaService.InsertInvestmentRow | src/services/ideaService.ts:144-155 | without an existing row, the write is the upsert under a fresh id, and the store's invariant is kept |
| IdeaService.WriteInvestment | src/services/ideaService.ts:128-155 | the attempted write is the update exactly when the investor has a row; its error leaves the investments unchanged, and otherwise they become the upsert |
| IdeaService.InvestInIdea | src/services/ideaService.ts:117-162 | login and balance errors change nothing; a failed update or insert is reported with the investments unchanged; otherwise the investments are upserted and the ledger gets exactly one debit of `-amount` of type "investment" referencing the idea |
| IdeaService.GetIdeaInvestments | src/services/ideaService.ts:164-178 | an error exactly when the read fails, carrying its message; otherwise the idea's rows in any order of the table, sorted by amount, largest first |
| IdeaService.InvestmentsBy | src/services/ideaService.ts:184-193 | a row is selected exactly when it is stored for that user |
| IdeaService.GetUserInvestments | src/services/ideaService.ts:180-198 | login error exactly without a user; a signed-in user's failed read is the store's error; otherwise a permutation of the user's rows, newest first |
| ListEdits.RemoveAllCounts | src/app/ideas/new/page.tsx:38-40 | `filter(t => t !== x)` removes every copy of the item and keeps everything else with its multiplicity |
| ListEdits.RemoveAllMembers | src/app/ideas/new/page.tsx:38-40 | a value is left after the filter exactly when it was in the list and is not the item |
| ListEdits.RemoveAllAppend | src/app/ideas/new/page.tsx:38-40 | the filter distributes over concatenation |
| ListEdits.RemoveAllAbsent | src/app/ideas/new/page.tsx:38-40 | removing an absent item changes nothing |
| ListEdits.AddUniqueGrows | src/app/ideas/new/page.tsx:31-36 | adding grows the list by one exactly when the trimmed entry is accepted, and then it is appended after the old list |
| ListEdits.AddKeepsWellFormed | src/app/ideas/new/page.tsx:31-36 | adding keeps the list duplicate-free, trimmed, non-blank and within the cap |
| ListEdits.RemoveAllNoDuplicates | src/app/ideas/new/page.tsx:38-40 | removing keeps a duplicate-free list duplicate-free |
| ListEdits.RemoveKeepsWellFormed | src/app/ideas/new/page.tsx:38-40 | removing keeps the list well formed |
| ListEdits.AddThenRemove | src/app/ideas/new/page.tsx:31-40 | removing an entry just added restores the list |
| ListEdits.AddUniqueIdempotent | src/app/ideas/new/page.tsx:31-36 | adding the same text twice is the same as adding it once |
| TeamRules.MemberCannotJoin | src/components/TeamDetailModal.tsx:51-54 | a member of the team is never offered to join |
| TeamRules.CanJoinNeedsLinkAndUser | src/app/teams/page.tsx:124 | a joinable team is recruiting with room, so its card shows the join link; nobody joins signed out |
| TeamRules.MembersOf | src/app/teams/detail/page.tsx:36-39 | a team's member rows are all for that team |
| TeamRules.MembersOfAppend | src/lib/api.ts:103-110 | appending a member row adds it to its own team's members only |
| TeamRules.LeaderIsMember | src/lib/api.ts:103-110 | after the leader row is written the leader is a member and cannot join again |
| TeamRules.PendingRequestBlocksRejoin | src/lib/api.ts:136-146 | after a join request, even a pending one, the user counts as a member and cannot join again |
| Sorting.InsertDesc | src/app/ideas/page.tsx:30-32 | insertion into a descending list keeps it descending and adds exactly the element |
| Sorting.SortDesc | src/app/ideas/page.tsx:30-32 | `sort((a, b) => key(b) - key(a))` gives a descending permutation of the input |
| Sorting.SortStable | src/app/ideas/page.tsx:30-32 | the sort is stable: the elements with any one key keep their relative order |
| Sorting.SortOfSorted | src/app/ideas/page.tsx:30-32 | sorting an already descending list leaves it unchanged |
| Sorting.Take | src/app/ideas/page.tsx:79 | `slice(0, n)` is the first `min(n, len)` elements |
| Sorting.TakeSubMultiset | src/app/ideas/page.tsx:77 | `slice(0, n)` takes each element at most as often as the list holds it |
| Sorting.Map | src/services/ideaService.ts:47-58 | `map(f)` keeps the length and puts `f` of each element in its place |
| Sorting.MapRemove | src/services/ideaService.ts:47-58 | taking one element out of a list takes exactly its image out of the mapped list |
| Sorting.MapPermutation | src/services/ideaService.ts:47-58 | mapping two permutations of one list gives permutations of one mapped list |
| Sorting.Overflow | src/app/ideas/page.tsx:222-226 | the `+k` badge appears exactly when the list is longer than n, and k is the number not shown |
| Sorting.BadgesOf | src/app/teams/page.tsx:99-112 | no badge row without items; otherwise the first `min(n, len)` items, and a `+k` exactly when more exist, with shown plus k equal to the length |
| Sorting.BadgesCoverList | src/app/teams/page.tsx:99-112 | every item is either shown in its place or counted by the `+k` badge |
| JsText.TrimStart | src/app/teams/new/page.tsx:56 | the result is a suffix of the input with no leading whitespace |
| JsText.TrimEnd | src/app/teams/new/page.tsx:56 | the result is a prefix of the input with no trailing whitespace |
| JsText.LeadingWhitespace | src/app/teams/new/page.tsx:56 | the count is the length of the longest all-whitespace prefix |
| JsText.TrailingWhitespace | src/app/teams/new/page.tsx:56 | the count is the length of the longest all-whitespace suffix |
| JsText.Trim | src/app/teams/new/page.tsx:56 | `trim()` returns the infix after the leading whitespace that neither starts nor ends with whitespace, and everything it cuts is whitespace |
| JsText.TrimIsTrimEndOfTrimStart | src/app/teams/new/page.tsx:56 | `trim` is `trimEnd` after `trimStart` |
| JsText.BlankIffAllWhitespace | src/app/teams/new/page.tsx:56 | `!s.trim()` holds exactly when every character is whitespace |
| JsText.TrimIdempotent | src/app/teams/new/page.tsx:56 | trimming twice equals trimming once |
| JsText.TrimOfTrimmed | src/app/teams/new/page.tsx:56 | a string with non-whitespace ends is its own trim |
| JsText.IncludesIffOccurs | src/components/TeamDetailModal.tsx:39-41 | `includes` holds exactly when the needle occurs at some position |
| JsText.IncludesMiddle | src/components/TeamDetailModal.tsx:39-41 | a string that has the needle in its middle includes it |
| JsText.DigitValue | src/components/InvestmentModal.tsx:42 | a decimal digit's value is 0 to 9 |
| JsText.DigitPrefix | src/components/InvestmentModal.tsx:42 | the leading digits `parseInt` reads are digits and a prefix of the text |
| JsText.DecimalDigit | src/components/InvestmentModal.tsx:42 | the digit written for 0 to 9 reads back as that value |
| JsText.ToDecimal | src/components/InvestmentModal.tsx:42 | a number's decimal text is a non-empty run of digits |
| JsText.ParseUnsignedOfDecimal | src/components/InvestmentModal.tsx:42 | reading a number's decimal text back gives the number |
| JsText.ParseIntOfDecimal | src/components/InvestmentModal.tsx:42 | `parseInt` of a decimal, even with trailing text that is not a digit, is that number |
| JsText.ParseIntOfNegative | src/components/InvestmentModal.tsx:42 | `parseInt` of "-" followed by a decimal is the negative number |
| JsText.ParseIntOfBlank | src/components/InvestmentModal.tsx:42 | `parseInt` of a blank string is NaN |
| IdeasPage.Arrange | src/app/ideas/page.tsx:30-32 | "latest" keeps the order; "top" is a permutation sorted by total investment, a missing total counting as 0 |
| IdeasPage.TopKeepsTies | src/app/ideas/page.tsx:30-32 | ideas with equal totals keep their newest-first order under "top" |
| IdeasPage.TotalInvestmentAppend | src/app/ideas/page.tsx:74 | the dashboard total of two lists is the sum of their totals |
| IdeasPage.TotalInvestmentPermutation | src/app/ideas/page.tsx:74 | the dashboard total does not depend on the order of the list |
| IdeasPage.AverageInvestment | src/app/ideas/page.tsx:76 | 0 for no ideas, otherwise the total divided by the count rounded to the nearest whole number, ties upward |
| IdeasPage.AverageOfExactMean | src/app/ideas/page.tsx:76 | when the total is an exact multiple, the average is that mean |
| IdeasPage.StatsIndependentOfSort | src/app/ideas/page.tsx:73-76 | the total, count and average are the same under both sort modes |
| IdeasPage.TopIdeas | src/app/ideas/page.tsx:77 | the ranking is the first `min(3, len)` entries of the list sorted by total, largest first, each taken from the list at most as often as it occurs there |
| IdeasPage.TopIdeasDominate | src/app/ideas/page.tsx:77 | every ranked idea has at least the total of every idea left out |
| IdeasPage.TopIdeaIsMaximum | src/app/ideas/page.tsx:77 | with any idea listed, the first ranked idea has the largest total |
| IdeasPage.HasMoreIffHidden | src/app/ideas/page.tsx:79-80 | "load more" is offered exactly when some listed idea is not shown; the shown ideas are a prefix |
| IdeasPage.MoreEventuallyShowsAll | src/app/ideas/page.tsx:79-80 | after enough presses of "load more" every idea is shown and the button disappears |
| IdeasPage.TotalOfUnaggregated | src/app/ideas/page.tsx:74 | ideas without stored aggregates give a dashboard total of 0 and are already in "top" order |
| IdeasPage.ListingHasNoAggregates | src/lib/api.ts:32-45 | the dashboard's listing carries no aggregates when the table stores none |
| IdeasPage.AsWrittenIgnoresInvestments | src/app/ideas/page.tsx:26-33 | as written, the dashboard total and average are 0 and "top" equals "latest", whatever was invested |
| IdeasPage.AsWrittenExample | src/app/ideas/page.tsx:29 | an idea with 300 tokens invested shows 0 as written and 300 with the idea service's aggregates |
| IdeasPage.ListedTotalsAreInvestments | src/services/ideaService.ts:47-58 | in the corrected listing every idea's total is the sum of its investment rows |
| IdeasPage.Page.constructor | src/app/ideas/page.tsx:16-24 | empty query and list, 12 visible, "latest" order, no dialog, zero balance |
| IdeasPage.Page.LoadIdeas | src/app/ideas/page.tsx:26-41 | on success the list is the data API's listing for the query (every stored match, no visibility filter, no aggregates), in the chosen order, and 12 are visible; on failure the list is kept and an error shown; loading ends either way |
| IdeasPage.Page.LoadMore | src/app/ideas/page.tsx:284 | twelve more ideas become visible |
| IdeasPage.Page.LoadTokenBalance | src/app/ideas/page.tsx:43-52 | a signed-in user's balance is shown on success; otherwise it is kept |
| IdeasPage.Page.HandleInvestClick | src/app/ideas/page.tsx:59-66 | signed out, an error and no dialog; signed in, the dialog opens on that idea |
| InvestmentModal.CheckAmount | src/components/InvestmentModal.tsx:42-51 | the amount is accepted, as its parsed value, exactly when it parses to at least 100; NaN, zero or negative is "invalid"; 1 to 99 is "below minimum" |
| InvestmentModal.QuickAmountsAccepted | src/components/InvestmentModal.tsx:135 | every quick-pick amount passes the checks as itself |
| InvestmentModal.DecimalAmounts | src/components/InvestmentModal.tsx:42-51 | a typed whole number is accepted from 100, below the minimum from 1 to 99; a blank field is invalid |
| InvestmentModal.ErrorText | src/components/InvestmentModal.tsx:71 | a failure is reported by its message or, when empty, by the fixed text |
| InvestmentModal.Modal.constructor | src/components/InvestmentModal.tsx:31-32 | the dialog starts with an empty field and not loading |
| InvestmentModal.Modal.PickQuickAmount | src/components/InvestmentModal.tsx:77 | a quick-pick writes its amount, which then passes the checks |
| InvestmentModal.Modal.Invest | src/components/InvestmentModal.tsx:53-73 | a failed balance read or a short balance reports and changes nothing; otherwise a failed row write changes nothing and reports its error, a failed debit keeps the upserted row and reports its error, and success upserts the row, appends the debit, runs the two callbacks and clears the field |
| InvestmentModal.Modal.HandleInvest | src/components/InvestmentModal.tsx:36-75 | signed out or a refused amount changes nothing and shows its message; an accepted amount has every outcome of the balance check and the investment: the balance errors, the failed row write, the failed debit, and success |
| InvestmentModal.EmptyAmountRefused | src/components/InvestmentModal.tsx:167 | an empty field, which disables the button, is refused by the checks as well |
| NewIdeaPage.DomainsNonEmpty | src/app/ideas/new/page.tsx:16-19 | every domain option is a non-empty text |
| NewIdeaPage.DefaultTitle | src/app/ideas/new/page.tsx:51 | a non-blank title is sent trimmed; a blank one becomes "<domain> 분야 아이디어" |
| NewIdeaPage.DefaultTitleNotBlank | src/app/ideas/new/page.tsx:51 | the title sent is never blank |
| NewIdeaPage.Submission | src/app/ideas/new/page.tsx:50-56 | the request carries the domain and the tags; with the required fields filled, the problem and the AI solution are non-empty |
| NewIdeaPage.StoredIdeaComplete | src/app/ideas/new/page.tsx:42-65 | a form that passes the check stores an idea with a non-blank title, non-empty problem and solution, and the form's domain and tags |
| NewIdeaPage.Page.constructor | src/app/ideas/new/page.tsx:23-29 | the form starts empty on the first domain |
| NewIdeaPage.Page.AddTag | src/app/ideas/new/page.tsx:31-36 | the typed tag is added trimmed, if new and under the cap of 5, and the field clears exactly then |
| NewIdeaPage.Page.RemoveTag | src/app/ideas/new/page.tsx:38-40 | the tag's removal keeps the tag list well formed |
| NewIdeaPage.Page.Submit | src/app/ideas/new/page.tsx:42-65 | missing fields store nothing; otherwise `addIdea` stores exactly that idea row, and success, exactly, moves to the ideas list; a failure stores nothing |
| NewTeamPage.NameNotBlank | src/app/teams/new/page.tsx:39-45 | the pre-filled team name is never blank |
| NewTeamPage.DescriptionNotBlank | src/app/teams/new/page.tsx:39-45 | the pre-filled description is never blank |
| NewTeamPage.FindIdea | src/app/teams/new/page.tsx:39-45 | `find` returns the first idea with the id, and nothing exactly when no idea has it |
| NewTeamPage.MaxMembersFromInput | src/app/teams/new/page.tsx:209 | `parseInt(v) \|\| 4` is never 0 |
| NewTeamPage.MaxMembersFromInputCases | src/app/teams/new/page.tsx:209 | a positive decimal keeps its value; "0" and a blank field give 4 |
| NewTeamPage.CheckForm | src/app/teams/new/page.tsx:66-75 | missing exactly without an idea or with a blank name or description; passed exactly when filled with 2 to 20 members |
| NewTeamPage.ChosenIdeaPassesRequired | src/app/teams/new/page.tsx:39-45 | a chosen idea with its pre-filled texts passes the first check, and with the default count passes all of them |
| NewTeamPage.EnabledSubmitHasRequired | src/app/teams/new/page.tsx:295 | whenever the button is enabled, the required-field check passes |
| NewTeamPage.Page.constructor | src/app/teams/new/page.tsx:24-31 | the form starts empty with 4 members |
| NewTeamPage.Page.SelectIdea | src/app/teams/new/page.tsx:150-154 | choosing an idea selects it and pre-fills name and description |
| NewTeamPage.Page.ClearIdea | src/app/teams/new/page.tsx:150-154 | clearing drops the selection |
| NewTeamPage.Page.LoadIdeas | src/app/teams/new/page.tsx:33-53 | a read error keeps the list and shows a toast; otherwise the list is every idea newest first; an `ideaId` that is found selects and pre-fills it |
| NewTeamPage.Page.SetMaxMembers | src/app/teams/new/page.tsx:209 | the field stores `parseInt(v) \|\| 4` |
| NewTeamPage.Page.AddSkill | src/app/teams/new/page.tsx:55-60 | the skill is added trimmed if new, under the cap of 10; the list stays well formed |
| NewTeamPage.Page.RemoveSkill | src/app/teams/new/page.tsx:62-64 | the skill is removed and the list stays well formed |
| NewTeamPage.Page.Submit | src/app/teams/new/page.tsx:66-94 | a failing check writes nothing; otherwise `createTeam` stores exactly one team row with the trimmed texts and, unless the leader row's insert fails, the leader row; success, exactly, leads to the new team's page; a failure stores no team and no member |
| NewTeamPage.Page.Create | src/app/teams/new/page.tsx:77-93 | with a chosen idea, the call succeeds exactly for a signed-in user whose team insert works; success adds the team row and the leader row (unless its insert fails) and leads to the team's page; failure adds neither; loading ends either way |
| NewTeamPage.CreatedTeamCarriesForm | src/app/teams/new/page.tsx:79-85 | the stored team carries the trimmed, non-blank name and description, the count and the skills |
| TeamsPage.Page.constructor | src/app/teams/page.tsx:13-14 | the list starts empty and loading |
| TeamsPage.Page.LoadTeams | src/app/teams/page.tsx:16-26 | success shows every team newest first; failure keeps the list and shows an error; loading ends either way |
| TeamsPage.LoadedListIsTable | src/app/teams/page.tsx:138 | the loaded list holds each team as often as the table; it is empty exactly when the table is |
| TeamDetailModal.JoinButtonExclusive | src/components/TeamDetailModal.tsx:170-194 | the join button never appears together with a disabled button; the "full" button rules out joining |
| TeamDetailModal.RecruitingShowsSomeAction | src/components/TeamDetailModal.tsx:170-194 | a recruiting team always shows the join button or the reason why not |
| TeamDetailModal.ClassifyJoinError | src/components/TeamDetailModal.tsx:39-45 | "already" is looked for before "full"; a missing message is the generic failure |
| TeamDetailModal.AlreadyBeforeFull | src/components/TeamDetailModal.tsx:39-42 | a message containing both words is reported as "already joined" |
| TeamDetailModal.Modal.constructor | src/components/TeamDetailModal.tsx:19-21 | the dialog starts not joining |
| TeamDetailModal.Modal.HandleJoinTeam | src/components/TeamDetailModal.tsx:25-49 | signed out, an error and no write; on an insert error the classified message; on success one pending row and the two callbacks |
| TeamDetailPage.CanJoinTeamIff | src/app/teams/detail/page.tsx:183-191 | joining is offered exactly for a loaded, recruiting team with room and a signed-in non-member |
| TeamDetailPage.DeleteRights | src/app/teams/detail/page.tsx:528-541 | the leader may delete any result, another user only their own; signed out, neither deleting nor the settings tab |
| TeamDetailPage.ReplaceById | src/app/teams/detail/page.tsx:122 | the tasks with the id are replaced by the updated task, others kept, in place |
| TeamDetailPage.RemoveById | src/app/teams/detail/page.tsx:131 | after removal no task has the id, and all remaining tasks were there before |
| TeamDetailPage.RemoveByIdKeepsOthers | src/app/teams/detail/page.tsx:131 | every task with another id survives the removal |
| TeamDetailPage.RemoveByIdAbsent | src/app/teams/detail/page.tsx:131 | removing an absent id changes nothing |
| TeamDetailPage.RemoveAfterReplace | src/app/teams/detail/page.tsx:119-135 | removing a toggled task is the same as removing it directly |
| TeamDetailPage.PrependThenRemove | src/app/teams/detail/page.tsx:107-135 | removing a task just added (with a fresh id) restores the list |
| TeamDetailPage.TrimmedOrNone | src/app/teams/detail/page.tsx:152-153 | `v.trim() \|\| undefined` is absent exactly for a blank text, and otherwise the non-empty trimmed text |
| TeamDetailPage.ArtifactAcceptedIff | src/app/teams/detail/page.tsx:139-142 | a result is refused exactly when it has no image, a blank link and a blank description |
| TeamDetailPage.AcceptedRequestNotEmpty | src/app/teams/detail/page.tsx:149-154 | an accepted result's request carries an image, a link or a description |
| TeamDetailPage.ErrorText | src/app/teams/detail/page.tsx:103 | `error?.message \|\| fallback` is the message when non-empty, else the fallback |
| TeamDetailPage.Page.constructor | src/app/teams/detail/page.tsx:18-33 | the page starts with no team, empty lists and empty fields |
| TeamDetailPage.Page.AddUpdate | src/app/teams/detail/page.tsx:95-105 | a blank text sends nothing; otherwise the trimmed text is sent and, on success, the update is prepended and the field clears |
| TeamDetailPage.Page.AddTask | src/app/teams/detail/page.tsx:107-117 | the same for tasks |
| TeamDetailPage.Page.ToggleTask | src/app/teams/detail/page.tsx:119-126 | on success the task with that id is replaced by the updated one; on failure the list is kept and the error shown |
| TeamDetailPage.Page.RemoveTask | src/app/teams/detail/page.tsx:128-135 | on success every task with that id is removed; on failure the list is kept |
| TeamDetailPage.Page.SubmitArtifact | src/app/teams/detail/page.tsx:137-167 | a refused result sends nothing and shows the one refusal; otherwise the image is uploaded first, then the trimmed request is sent; a failed upload or add shows exactly its failure and keeps the fields; success shows the success toast, then the reload's failure if it fails, clears the fields and reloads the list |
| TeamDetailPage.Page.HandleJoin | src/app/teams/detail/page.tsx:193-210 | signed out, an error and no write; otherwise the insert error alone is reported, or a pending row is appended and the toasts are the success, then the re-read's failure if it fails; success reloads the team |
| MyPage.TransactionTypeLabel | src/app/mypage/page.tsx:72-81 | a known type shows its label; any other type shows itself |
| MyPage.LabelsDistinguishKnownTypes | src/app/mypage/page.tsx:73-79 | distinct known types have distinct, non-empty labels |
| MyPage.LabelEmptyIffTypeEmpty | src/app/mypage/page.tsx:80 | a label is empty exactly for the empty type |
| MyPage.TransactionBadge | src/app/mypage/page.tsx:83-89 | the badge is "충전" exactly for a positive amount, whatever the type |
| MyPage.AmountStyleOf | src/app/mypage/page.tsx:270-276 | a positive amount gets "+" and green; zero and negative amounts get no sign and red |
| MyPage.BadgeAgreesWithStyle | src/app/mypage/page.tsx:83-89 | badge, sign and colour of a row always agree; a zero amount counts as spending |
| MyPage.TotalInvestedAppend | src/app/mypage/page.tsx:159 | the invested total of two lists is the sum of their totals |
| MyPage.TotalInvestedBounds | src/app/mypage/page.tsx:159 | with positive amounts the total is at least every amount and positive |
| MyPage.TotalInvestedNonNegative | src/app/mypage/page.tsx:159 | positive amounts give a non-negative total |
| MyPage.InvestmentListOf | src/app/mypage/page.tsx:187-227 | the empty message exactly without investments; else the first `min(5, N)` and the "N of which 5 shown" note exactly when N is over 5 |
| MyPage.InvestmentHiddenOnlyWithNote | src/app/mypage/page.tsx:193-223 | every investment is shown in its place or counted by the note |
| MyPage.SummaryOf | src/app/mypage/page.tsx:155-170 | the summary appears exactly with some investment and holds their sum and count |
| MyPage.Page.constructor | src/app/mypage/page.tsx:31-35 | zero balance, empty lists, loading |
| MyPage.Page.LoadTokenData | src/app/mypage/page.tsx:43-60 | the three results are stored only when all three reads succeed; loading ends either way |
| MyPage.Page.OnUser | src/app/mypage/page.tsx:37-41 | only a signed-in user's data is read, with a history limit of 20; without a user nothing changes |
| AuthCallback.IsNewUserWindow | src/app/auth/callback/page.tsx:40-45 | a user is new exactly when the last sign-in lies strictly within 5 seconds on either side of creation, or is missing |
| AuthCallback.StepOf | src/app/auth/callback/page.tsx:16-45 | a failed exchange or session read fails the login; no user means no session; a signed-in user is new or returning by the time test |
| AuthCallback.OnlyNewUsersGetTheBonusStep | src/app/auth/callback/page.tsx:45 | after a good exchange, a user reaches the bonus step exactly when new |
| AuthCallback.BonusRow | src/app/auth/callback/page.tsx:47 | the bonus is 1000 tokens of type "signup_bonus" for the user, with no reference |
| AuthCallback.HandleAuthCallback | src/app/auth/callback/page.tsx:12-72 | every path goes home; only a new user whose bonus write succeeds gets exactly one bonus row; a failed bonus write still welcomes the user; no other path writes |
| ResetPage.CheckPasswords | src/app/auth/reset/page.tsx:25-36 | blank fields first, then a mismatch, then fewer than 6 characters; passed exactly otherwise |
| ResetPage.PassedIsWellFormed | src/app/auth/reset/page.tsx:25-36 | passing means both fields equal, non-blank and at least 6 long |
| ResetPage.FirstFailingCheckReported | src/app/auth/reset/page.tsx:25-36 | a blank confirmation is reported as missing even when it also mismatches; a short mismatch is reported as a mismatch |
| ResetPage.UpdateErrorText | src/app/auth/reset/page.tsx:44 | the failure text is the message when non-empty, else the fixed text |
| ResetPage.Page.constructor | src/app/auth/reset/page.tsx:13-16 | empty fields, not ready, not loading |
| ResetPage.Page.OnSession | src/app/auth/reset/page.tsx:18-22 | the form is ready exactly with a session |
| ResetPage.Page.HandleUpdate | src/app/auth/reset/page.tsx:24-48 | a failing check sends nothing; otherwise the password is sent, and success goes home while failure shows the error |
| AuthModal.Flip | src/components/auth/AuthModal.tsx:72 | switching always changes the mode |
| AuthModal.FlipTwice | src/components/auth/AuthModal.tsx:72 | switching twice restores the mode |
| AuthModal.CheckFields | src/components/auth/AuthModal.tsx:27-35 | missing exactly with a blank email or password; passed exactly when both are filled and the password has at least 6 characters |
| AuthModal.CheckFieldsExamples | src/components/auth/AuthModal.tsx:27-35 | an all-space password is missing; a padded 6-character one passes, since the length counts the spaces |
| AuthModal.ErrorMessage | src/components/auth/AuthModal.tsx:54-63 | the three known phrases map to their messages in order; otherwise the message itself, or the default when empty |
| AuthModal.ErrorMessageNeverEmpty | src/components/auth/AuthModal.tsx:54-63 | the text shown is never empty |
| AuthModal.KnownPhraseInContext | src/components/auth/AuthModal.tsx:55-56 | a message containing "Invalid login credentials" anywhere maps to the wrong-credentials text |
| AuthModal.Modal.constructor | src/components/auth/AuthModal.tsx:17-21 | the dialog starts in the given mode with empty fields |
| AuthModal.Modal.CallFor | src/components/auth/AuthModal.tsx:40-46 | sign-in in login mode, sign-up otherwise, with the typed email and password |
| AuthModal.Modal.HandleSubmit | src/components/auth/AuthModal.tsx:24-69 | a failing check calls nothing; otherwise one call, and success closes and clears the fields while failure keeps them; loading ends |
| AuthModal.Modal.SwitchMode | src/components/auth/AuthModal.tsx:71-75 | the mode flips and the fields clear |
| LearnPage.ConceptsWellFormed | src/app/learn/page.tsx:15-54 | the course is non-empty, its ids distinct, each concept with at least one question |
| LearnPage.FindConcept | src/app/learn/page.tsx:61 | `find` returns the first concept with the id, or nothing exactly when none has it |
| LearnPage.FindsEveryConcept | src/app/learn/page.tsx:61 | every concept is found by its own id |
| LearnPage.Question | src/app/learn/page.tsx:64 | the shown question is the one at the index taken modulo the number of questions |
| LearnPage.QuestionsCycle | src/app/learn/page.tsx:64 | the questions repeat with the period of their number; one question is always shown |
| LearnPage.Page.constructor | src/app/learn/page.tsx:57-60 | the page opens on the first concept in study mode at question 0 |
| LearnPage.Page.Active | src/app/learn/page.tsx:61 | the active concept is one of the course with the active id |
| LearnPage.Page.Shown | src/app/learn/page.tsx:63-64 | the shown question belongs to the active concept |
| LearnPage.Page.SelectConcept | src/app/learn/page.tsx:70 | choosing a concept activates it, leaves the quiz and shows its first question |
| LearnPage.Page.StartQuiz | src/app/learn/page.tsx:91 | the quiz starts |
| LearnPage.Page.ToggleAnswer | src/app/learn/page.tsx:130 | the answer's visibility flips |
| LearnPage.Page.NextQuestion | src/app/learn/page.tsx:133 | the index advances, the answer hides, and the next question in the cycle is shown |
| LearnPage.Page.BackToStudy | src/app/learn/page.tsx:134 | the quiz ends |

## Left out

- The Supabase client, its query builder and the auth SDK are not modelled. Each call's answer is a parameter: error or success, and on success the rows the code then uses. `src/lib/supabase.ts` is not part of this model beyond the tables it names.
- The token service (`getUserTokenBalance`, `addTokenTransaction`) is not part of this model. The balance is a parameter. A ledger write appends one row to the transactions table, and its error is a parameter.
- The dashboard, the investment dialog, the personal page and the login callback import `getUserTokenBalance`, `getTokenTransactions`, `getUserInvestments`, `investInIdea` and `addTokenTransaction` from `src/lib/api.ts`, which exports none of them. The model takes the reads' answers as parameters. It takes `investInIdea` and `getUserInvestments` to be the idea service's functions.
- `IdeaService.ListIdeas`: the read error of the listing query (`src/services/ideaService.ts:44`) is not modelled; the function is the listing the store returns. The pages that show a listing take the read's failure as their own `readError` parameter.
- `InvestmentModal.Modal.Invest`: the dialog's balance read and the second balance read inside `investInIdea` are taken to return the same value.
- `addIdea` and `likeIdea` appear in both `src/lib/api.ts` and `src/services/ideaService.ts` with the same code. `Api.AddIdea` and `Api.LikeIdea` stand for both copies.
- Concurrency is not modelled: two handlers racing, `Promise.all` ordering, stale React state between renders. Each handler runs atomically against the state it starts from.
- `ilike` is modelled as a plain substring test. Case folding and the `%`/`_` wildcards inside the query are left out, since there is no Unicode case mapping to base it on.
- `.single()` on the investment lookup is taken as "at most one row". The database's unique (idea, investor) constraint is kept as the `Db.Valid` invariant. The code does not look at the lookup's error, so a failed lookup sends the call to the insert branch (`src/services/ideaService.ts:129-146`). A failed lookup, and the insert attempt it causes, is not modelled.
- Floating-point numbers: amounts are integers. `Math.round` is modelled for integer totals. `toLocaleString` and `toLocaleDateString` formatting is left out.
- Dates are millisecond integers. User timestamps that fail to parse (and so give `NaN`) are not modelled.
- `typeMap[type]` for a key such as `constructor`, found on `Object.prototype`, is not modelled. Such a key shows itself.
- The joined columns (`ideas(title, ...)`, `auth.users(email)`) are not modelled. Each row keeps only the fields the model reads.
- Rendering, routing, dialogs, toasts' styling and `confirm()` prompts are left out. Toasts are values the handlers return.
- `Types.Idea.isVisible` has no absent case: the column's default is taken to be true.
- The team detail page imports its reads (`getTeamById`, `listTeamUpdates`, `listTeamTasks`, `listTeamArtifacts`) and writes (`addTeamUpdate`, `addTeamTask`, `toggleTeamTask`, `deleteTeamTask`, `uploadArtifactImage`, `addTeamArtifact`) from `src/lib/api.ts`, which does not define them. Their answers are parameters, and the page keeps what they return.
- `handleDeleteArtifact` (`src/app/teams/detail/page.tsx:169-181`) is modelled only through who may see the delete button (`TeamDetailPage.DeleteRights`). The deletion and reload are a call to the missing module followed by the reload already modelled in `SubmitArtifact`.
- `TeamDetailPage.Page.HandleJoin` requires a team id, because without one the page renders its "no team" screen (`src/app/teams/detail/page.tsx:212`) and the join button does not exist.
- The `isOpen` gate of the team dialog (`TeamDetailModal.Renders`) and the disabled state of the skill quick-add buttons are predicates only, with nothing proved about them.
- String lengths count characters (code points), not UTF-16 units. The two agree for the Korean and ASCII texts involved.
- The callback's outer `catch`, which handles an exception thrown by the SDK itself, is left out: every answer of the SDK is an error value or data.
- `MyPage.Page.OnUser`: without a user the page's loading flag stays set, as in the code. The protected route that redirects such a user is not part of this model.
- `TeamsPage.PreviewSkills` and `IdeasPage.TagBadges` have no contracts of their own. They are `Sorting.BadgesOf` applied with 4 and 3, and that function carries the contract.
- `MyPage.TransactionTypeLabel` treats a known type with an empty label like an unknown one (`||` falls back). No known label is empty, so its contract states only the two cases that occur.
- `IdeaService.Visible`, `Database.Search` and `IdeaService.InvestmentsOf` state only a length bound in their own contracts. Their membership properties are the separate lemmas `IdeaService.VisibleMembers`, `Database.SearchMembers` and `IdeaService.InvestmentsOfMembers`.

## Findings

| source | as written | input that shows it | evidently intended | confidence | as-written member | corrected member |
|---|---|---|---|---|---|---|
| src/app/ideas/page.tsx:3 | the dashboard imports `listIdeas` from `src/lib/api.ts` (lines 32-45), which selects bare idea rows with no `total_investment`; every total on the dashboard is then 0, so "top" sorting equals "latest", and the total and average statistics are 0 | one visible idea whose investment row holds 300 tokens: the dashboard shows 0 and the average 0 | the idea service's `listIdeas` (`src/services/ideaService.ts:26-61`), which attaches each idea's total and investor count | not executed; medium | IdeasPage.AsWrittenIgnoresInvestments | IdeasPage.ListedTotalsAreInvestments |
