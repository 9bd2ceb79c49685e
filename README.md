# hitch issue search: a verified model of its core

hitch is a GitHub issue-search front end. A user picks filters (keyword,
language, labels, update date, page). The core turns them into a GitHub
search query and sends one paged request. It maps the raw result items into
a stable `Issue` shape and reports a `Pagination` record. The pages then
refine the issues on the client and draw a page navigator that respects
GitHub's 1000-result cap.

The model covers nine source files, one module each (the last two share one):

- `QueryBuilder` (packages/core/src/issues/queryBuilder.ts).
  - `BuildQuery` is an imperative method that grows the query the way the
    accumulator in queryBuilder.ts does.
  - It is proved equal to `Query`, an independent reference. `Query` joins
    the clause list (keyword, `is:issue is:open`, `language:`,
    `updated:>`, one `label:` per label) with single spaces.
- `Mapper` (packages/core/src/issues/mapper.ts).
  - The regular expression `github\.com\/([^\/]+)\/([^\/]+)` is modelled as
    a leftmost-match search.
  - The mapper is a filter followed by a map that may fail. The model proves
    that the map never fails.
- `Search` (packages/core/src/issues/search.ts).
  - `searchIssues` is a method. The HTTP answer is one of its inputs.
  - It returns the request parameters it appended and either the error
    message or the issues and pagination.
- `PageNavigation` (src/components/Pagination.tsx).
  - Page count, arrow enabling, the 5-wide page window, the
    first/last-page shortcuts and the limit notice.
  - `GetPageRange` keeps Pagination.tsx's reassignment of `start` and `end`. It
    is proved against the reference window `PageRange`.
- `Home` (src/components/Home.tsx).
  - The query string is a `SearchParams` object over a map.
  - The three handlers copy it, edit it in place and return the map they
    navigate to.
  - Also modelled: reading the filters and display state from the address,
    and the keyword filter.
- `LegacyPage` (src/app/page.tsx). The older page keeps its state in a
  `PageState` class with setter methods and refines with three predicates.
- `IssueView` (src/ui/issueView.ts). The card projection.
- `Request` (src/hooks/useIssueSearch.ts and src/app/api/v1/issues/route.ts).
  - The query string the search hook sends and the filters the API route
    rebuilds from it, which are what `buildQuery` receives.
  - Proved: the keyword and the update date never reach the query, and the
    selected labels arrive as one comma-joined label.

Supporting modules:

- `Wrappers`: `Option` and `Result`.
- `Seqs`: `filter` and a fallible `map`.
- `Strings`: the JavaScript string built-ins the code calls. These are
  `includes`, `split`, `join`, `trim`, ASCII case mapping, integer
  `toString` and `Number(...)`.
- `IssueTypes`: the records of packages/core/src/issues/types.ts.

JavaScript truthiness is explicit throughout:

- an absent, empty or `null` string is `None` or fails `Given`/`Truthy`;
- `filters.page` is `None` for `undefined` and for `NaN`;
- `filters.page || 1` also replaces 0.

Where the behaviour described for the project differs from the code, the
model follows the code:

- **No results.** `total = 0` gives 0 reachable pages and an empty page
  window, not one page (`PageNavigation.NoResults`). From page 0 on, the
  next arrow is then disabled. A negative page such as `page=-1` is passed
  through unchanged. With no results it reports `hasNext` (`-30 < 0`), and
  the navigator enables its next arrow (`Search.NegativePageNoResults`).
- **Page default.** The page falls back to 1 only when it is falsy (absent,
  0 or NaN). A negative page is sent and reported as it is
  (`Search.EffectivePage`).
- **API-style repository addresses.** For `https://api.github.com/repos/test/repo`
  the first two segments after `github.com/` are `repos` and `test`. So
  the issue's owner is `repos`, while tests/core/issues/search.test.ts:36
  expects `test` (`Search.ApiAddressItem`).
- **Error text.** The thrown message is `GitHub API Error: <status>
  <statusText> - <body>`. tests/core/issues/search.test.ts:64 expects the
  58-character text of `ErrorMessages.GitHubAPIError`. A message built
  from short parts cannot contain that text (`Search.ErrorLacksApiErrorText`).
- **Inline `repository` in the mapper tests.** The mapper tests in
  tests/core/issues/mapper.test.ts:5-40 and :58-79 build items with an
  inline `repository` object and no `repository_url`. The code reads only
  `repository_url`, so it drops such items (`Mapper.ItemsWithoutUrlVanish`).
- **Mapper name.** search.ts imports `issueMapper`, but mapper.ts exports
  `issuesMapper`. The model treats them as the same function.
- **Keyword and update date.** Home.tsx hands the keyword and `updatedAt`
  to the search hook, but src/hooks/useIssueSearch.ts:17-20 sends only the
  labels, language, `updatedAt` and page, and
  src/app/api/v1/issues/route.ts:7-11 rebuilds the filters from the
  language, labels and page alone. So neither the keyword nor the update
  date reaches the GitHub query; the keyword acts only as the client-side
  filter (`Request.KeywordNeverReachesQuery`).
- **Labels arrive joined.** The hook sends the labels as one comma-joined
  value, and the route's `getAll('labels')` returns it as one element. Two
  labels `bug` and `enhancement` become the single label `bug,enhancement`
  and one `label:` clause (`Request.TwoLabelsArriveJoined`).
  tests/app/api/v1/route.test.ts:72-88 expects `['bug', 'enhancement']`.
- **Page cap comment.** The comment at src/components/Pagination.tsx:18
  speaks of 33 pages at 30 per page. The formula gives 34 from 1000 results
  on (`PageNavigation.MaxPagesBound`).

## Model

| member | source | states |
|---|---|---|
| QueryBuilder.BuildQuery | packages/core/src/issues/queryBuilder.ts:10-31 | the accumulated query equals `Query(f)`: the given clauses keyword, `is:issue is:open`, `language:v`, `updated:>v`, one `label:` term per label, joined by single spaces |
| QueryBuilder.QueryLayout | packages/core/src/issues/queryBuilder.ts:12-29 | the query is `keyword + " "` (when given) followed by the base predicate, ` language:v`, ` updated:>v` and the label clauses, in that order |
| QueryBuilder.EmptyFiltersQuery | packages/core/src/issues/queryBuilder.ts:12-30 | with no keyword, language or update date and no or empty labels, the query is exactly `is:issue is:open` |
| QueryBuilder.KeywordFirst | packages/core/src/issues/queryBuilder.ts:12-15 | a given keyword precedes the rest of the query with one space; without one the query starts with `is:issue is:open` |
| QueryBuilder.EmptyIsAbsent | packages/core/src/issues/queryBuilder.ts:13-22 | an empty keyword, language or update date, or an empty label list, gives the same query as an absent one |
| QueryBuilder.LabelClausesAppend | packages/core/src/issues/queryBuilder.ts:22-29 | label clauses of a concatenated list are the concatenated clauses: one clause per label, in order, no deduplication |
| QueryBuilder.SingleLabelClause | packages/core/src/issues/queryBuilder.ts:25-26 | a label with a space renders as ` label:"l"`, any other as ` label:l` |
| QueryBuilder.QueryIsTokens | packages/core/src/issues/queryBuilder.ts:12-29 | the query is the space-join of keyword, `is:issue`, `is:open` and the later clauses |
| QueryBuilder.QueryTokens | packages/core/src/issues/queryBuilder.ts:12-29 | when no value contains a space, splitting the query on spaces gives back exactly those words |
| QueryBuilder.EmptyLabelsExample | tests/core/issues/queryBuilder.test.ts:6-9 | the filters of the first test give `is:issue is:open` |
| QueryBuilder.LanguageExample | tests/core/issues/queryBuilder.test.ts:11-14 | a language gives the words `is:issue is:open language:typescript` |
| QueryBuilder.UpdatedExample | tests/core/issues/queryBuilder.test.ts:16-24 | an update date gives the words `is:issue is:open updated:>2024-01-01` |
| QueryBuilder.TwoLabelsExample | tests/core/issues/queryBuilder.test.ts:26-34 | two labels give `label:bug label:enhancement` after the base predicate |
| QueryBuilder.CombinedExample | tests/core/issues/queryBuilder.test.ts:36-46 | all filters give `is:issue is:open language:javascript updated:>2024-01-01 label:bug` |
| QueryBuilder.QuotedLabelExample | packages/core/src/issues/queryBuilder.ts:13-29 | a keyword leads and a multi-word label is quoted: `parser is:issue is:open label:"good first issue"` |
| Strings.ContainsIff | src/components/Home.tsx:58-59 | `includes` holds exactly when some slice of the string equals the searched text |
| Strings.JoinSplit | src/components/Home.tsx:35 | joining the comma pieces of a string gives the string back |
| Strings.SplitJoin | src/components/Home.tsx:89 | splitting a join of comma-free pieces gives the pieces back |
| Strings.Trim | src/components/Home.tsx:66 | the trimmed text is empty exactly when the input is all whitespace; otherwise it is the input minus its leading and trailing whitespace, and starts and ends with non-whitespace |
| Strings.ParseIntToString | packages/core/src/issues/mapper.ts:30 | `Number(n.toString())` gives back the integer `n` |
| Seqs.Filter | packages/core/src/issues/mapper.ts:22 | the kept elements are elements of the input that pass, and every passing element is kept |
| Seqs.FilterAppend | packages/core/src/issues/mapper.ts:22 | filtering a concatenation filters each part: order is preserved |
| Seqs.MapResultAppend | packages/core/src/issues/mapper.ts:22 | a fallible map over a concatenation succeeds on both parts and concatenates their results |
| Mapper.ExtractRepoFromUrl | packages/core/src/issues/mapper.ts:11-15 | None exactly when `github.com/<seg>/<seg>` matches nowhere; otherwise the two groups of the leftmost match |
| Mapper.GroupsAt | packages/core/src/issues/mapper.ts:12-14 | both captured groups are non-empty and free of `/` |
| Mapper.MapItem | packages/core/src/issues/mapper.ts:22-44 | the item's callback fails exactly when re-extraction fails, with message `RepoInfoExtractFailed + ": " + url`; otherwise owner and name are the extracted ones |
| Mapper.LabelNames | packages/core/src/issues/mapper.ts:39 | the labels are the raw labels' names, in order |
| Mapper.HasRepository | packages/core/src/issues/mapper.ts:17-19 | an item has a repository exactly when the pattern matches somewhere in its `repository_url` (the empty-string test is implied) |
| Mapper.IssuesMapper | packages/core/src/issues/mapper.ts:21-45 | the throw is unreachable: the mapper succeeds with one issue per item that has a repository, each the callback's result on that item, in order |
| Mapper.DroppedItems | packages/core/src/issues/mapper.ts:17-22 | the number of dropped items is the number without a usable `repository_url` |
| Mapper.ItemsWithoutUrlVanish | packages/core/src/issues/mapper.ts:17-19 | items with an empty `repository_url` all vanish and the result is empty |
| Mapper.IssuesMapperAppend | packages/core/src/issues/mapper.ts:21-22 | mapping a concatenation maps each part: a stable filter-map |
| Mapper.AllKeptWhenAllHaveRepository | packages/core/src/issues/mapper.ts:17-22 | when every item has a repository, none is dropped |
| Mapper.RepoUrlRoundTrip | packages/core/src/issues/mapper.ts:36 | the built repository address extracts back to the same owner and name |
| Mapper.MappedIssue | packages/core/src/issues/mapper.ts:29-42 | `id` is the decimal text of the numeric id and reads back as it; title, url, dates and label names are copied; the repository address is `https://github.com/<owner>/<name>` and extracts back to that pair; language is `unknown`, difficulty `Beginner`, no body |
| Mapper.WebUrlExtract | packages/core/src/issues/mapper.ts:11-15 | `https://github.com/o/n...` yields owner `o` and name `n` |
| Mapper.ApiUrlExtract | packages/core/src/issues/mapper.ts:11-15 | `https://api.github.com/repos/o/n` yields owner `repos` and name `o` |
| Mapper.GroupsAfterPrefix | packages/core/src/issues/mapper.ts:11-15 | after any prefix without `g`, the groups are the two segments following `github.com/` |
| Search.SearchIssues | packages/core/src/issues/search.ts:14-53 | appends `q` = the built query, `page` = the effective page and `per_page` = `30`; fails with the API error on a non-OK answer; otherwise returns the mapper's issues and the pagination record |
| Search.EffectivePage | packages/core/src/issues/search.ts:18 | the page is the given one unless it is absent, NaN or 0, which become 1 |
| Search.Paginate | packages/core/src/issues/search.ts:45-51 | page is the effective page, per page 30, total unchanged, and `hasNext` holds exactly when results remain after this page |
| Search.ApiErrorMessage | packages/core/src/issues/search.ts:37 | the message is `GitHub API Error: `, the status and a space, then the status text, then ` - ` and the body |
| Search.ErrorCarriesStatus | packages/core/src/issues/search.ts:37 | the number after the fixed opening text reads back as the status |
| Search.PageParameterReadsBack | packages/core/src/issues/search.ts:18 | the `page` parameter sent reads back as the page reported |
| Search.HasNextMonotone | packages/core/src/issues/search.ts:50 | a page with a successor implies every earlier page has one |
| Search.ReturnedIssueCount | packages/core/src/issues/search.ts:42 | the returned issues plus the dropped items account for every item |
| Search.ErrorLacksApiErrorText | packages/core/src/issues/search.ts:37 | a message from short parts never contains `ErrorMessages.GitHubAPIError` |
| Search.EmptyAnswer | packages/core/src/issues/search.ts:42-51 | an empty answer with total 0 yields no issues, and a next page exactly when the effective page is negative |
| Search.NegativePageNoResults | packages/core/src/issues/search.ts:18-50 | page `-1` with total 0 reports page `-1` and `hasNext`, there are 0 pages, and the navigator's next arrow is enabled |
| Search.ApiAddressItem | tests/core/issues/search.test.ts:11-36 | the test's item maps to one issue whose owner is `repos` and name `test` |
| PageNavigation.CeilDivIsLeast | src/components/Pagination.tsx:20 | the integer ceiling is the least multiple count covering the total |
| PageNavigation.MaxPages | src/components/Pagination.tsx:20 | the page count is the least number of pages holding the smaller of the total and 1000 results |
| PageNavigation.IsAtGitHubLimit | src/components/Pagination.tsx:23 | from page 0 on, the current page is at the limit exactly when the next page has no button |
| PageNavigation.CanGoNext | src/components/Pagination.tsx:24 | from page 0 on, the next arrow is enabled exactly when `hasNext` holds and the next page has a button |
| PageNavigation.HasPrev | src/components/Pagination.tsx:32 | on a reachable page, the previous arrow is enabled exactly when the previous page has a button |
| PageNavigation.LimitNotice | src/components/Pagination.tsx:72 | from page 0 on, the notice shows exactly when more than 1000 results exist and the next page has no button |
| PageNavigation.ShowFirstShortcut | src/components/Pagination.tsx:120 | for consecutive buttons from page 1 on, the `1 …` shortcut shows exactly when page 1 has no button |
| PageNavigation.ShowLastShortcut | src/components/Pagination.tsx:147 | for consecutive buttons up to `maxPages`, the `… maxPages` shortcut shows exactly when that page has no button |
| PageNavigation.MaxPagesBound | src/components/Pagination.tsx:18-20 | reachable pages never exceed `ceil(1000/perPage)`; at 30 per page that is 34, reached from 1000 results on; up to 1000 results they equal `ceil(total/perPage)` |
| PageNavigation.NoResults | src/components/Pagination.tsx:20-24 | total 0 gives 0 pages and an empty window; the next arrow is enabled exactly when `hasNext` holds on a negative page |
| PageNavigation.NextStaysReachable | src/components/Pagination.tsx:23-24 | an enabled next arrow leads to a page not beyond the last reachable one |
| PageNavigation.NextFollowsHasNext | src/components/Pagination.tsx:20-24 | up to 1000 results, the next arrow is enabled exactly when results remain after the current page |
| PageNavigation.PageRange | src/components/Pagination.tsx:36-48 | the window holds `min(5, maxPages)` consecutive pages within `1..maxPages` (none when there are no pages) and holds the current page when it is reachable |
| PageNavigation.GetPageRange | src/components/Pagination.tsx:36-48 | the start and end reassignments yield exactly the reference window |
| PageNavigation.CentredWindow | src/components/Pagination.tsx:37-40 | away from both ends the window is the current page and two on each side |
| PageNavigation.FirstShortcutIff | src/components/Pagination.tsx:120 | the `1 …` shortcut appears exactly when page 1 is not in the window |
| PageNavigation.LastShortcutIff | src/components/Pagination.tsx:147 | the `… maxPages` shortcut appears exactly when the last reachable page is not in the window |
| PageNavigation.LimitNoticeMeansCapped | src/components/Pagination.tsx:72 | when the limit notice shows, the page count is the cap's |
| PageNavigation.ComponentTestWindow | tests/components/Pagination.test.tsx:20-41 | page 2 of 150 at 10 per page: 15 pages, buttons 1 to 5, previous and next enabled |
| Home.SearchParams.constructor | src/components/Home.tsx:64 | the copy holds the current address parameters |
| Home.SearchParams.Set | src/components/Home.tsx:67 | `set` stores the value under the name |
| Home.SearchParams.Delete | src/components/Home.tsx:69 | `delete` removes the name |
| Home.Keyword | src/components/Home.tsx:20 | the keyword is the `q` parameter when it is non-empty and empty otherwise |
| Home.SelectedLabels | src/components/Home.tsx:35 | the selected labels are the comma pieces of a non-empty `labels` parameter, which join back to it, or none |
| Home.SelectedLanguage | src/components/Home.tsx:36-38 | `All Languages` without a `language` parameter; otherwise the stored value with its first letter upper-cased and the rest unchanged, so it lowercases as the stored value does |
| Home.PageParam | src/components/Home.tsx:47 | page 1 when the `page` parameter is absent or empty; the number `n` when the parameter is `n` in decimal |
| Home.LabelsParam | src/components/Home.tsx:45 | none exactly when `labels` is absent or empty; otherwise comma-free pieces that join back to the parameter |
| Home.SearchFilters | src/components/Home.tsx:42-48 | keyword exactly when `q` is non-empty; language and `updatedAt` when non-empty; labels are the selected labels, joining back to the parameter; page 1 by default, else the number written |
| Home.KeywordMatches | src/components/Home.tsx:53-60 | an issue passes exactly when the keyword is blank or its lowercase occurs at some offset of the lowercased title or repository name |
| Home.CurrentLabels | src/components/Home.tsx:79 | none without a `labels` parameter; otherwise exactly its non-empty comma pieces, which join back to the parameter when no piece is empty |
| Home.Toggle | src/components/Home.tsx:81-86 | the toggled label is present afterwards exactly when it was absent; other labels keep their membership; an absent label is appended at the end; a present label is removed and the others keep their order |
| Home.FilteredIssues | src/components/Home.tsx:53-61 | the shown issues are issues that pass the keyword filter, and every passing issue is shown |
| Home.HandleSearchSubmit | src/components/Home.tsx:63-74 | `q` is the trimmed query, removed when blank; `page` is `1`; nothing else changes; the page reads back the trimmed keyword and page 1 |
| Home.HandleToggleLabel | src/components/Home.tsx:77-96 | `labels` is the comma-join of the toggled list, removed when empty; `page` is `1`; nothing else changes; a label without commas reads back as the toggled list |
| Home.LabelsReadBack | src/components/Home.tsx:79-92 | the stored list reads back as the toggled list |
| Home.HandleSelectLanguage | src/components/Home.tsx:99-110 | `language` is the lowercased choice, removed for `""` and `All Languages`; `page` is `1`; nothing else changes; the displayed language is the choice capitalised |
| Home.GoToPage | src/components/Pagination.tsx:26-30 | `page` is the decimal text of the target page; nothing else changes; the address then reads back that page |
| Home.ToggleTwice | src/components/Home.tsx:81-86 | toggling an absent label twice restores the list; a present label ends up once, at the end |
| Home.BlankKeywordShowsAll | src/components/Home.tsx:54 | a blank keyword shows every issue |
| Home.KeywordCaseInsensitive | src/components/Home.tsx:56-60 | the keyword filter does not depend on the case of the keyword |
| Home.ClearedAddress | src/components/Home.tsx:36-48 | the cleared address `/` asks for page 1 with no other filter, shows no labels and selects every language |
| LegacyPage.PageState.constructor | src/app/page.tsx:16-18 | initial state: no labels, `All Languages`, empty search |
| LegacyPage.PageState.ToggleLabel | src/app/page.tsx:61-65 | the label list is toggled; language and search are unchanged |
| LegacyPage.PageState.SelectLanguage | src/app/page.tsx:82 | the language is the selection; the rest is unchanged |
| LegacyPage.PageState.ChangeSearchQuery | src/app/page.tsx:84 | the search text is the input; the rest is unchanged |
| LegacyPage.PageState.HandleClear | src/app/page.tsx:67-71 | the state is reset and the filter then keeps every issue |
| LegacyPage.MatchesLabels | src/app/page.tsx:44-47 | an issue passes exactly when every selected label is among its labels |
| LegacyPage.MatchesSearch | src/app/page.tsx:49-51 | an issue passes exactly when the lowercased search text occurs at some offset of the lowercased title or repository name |
| LegacyPage.MatchesLanguage | src/app/page.tsx:53-56 | `All Languages` passes everything; a repository without a language passes nothing else; otherwise the issue passes exactly when its language equals the selection ignoring case; a language of another length fails |
| LegacyPage.LanguageCaseInsensitive | src/app/page.tsx:56 | the language refinement gives the same answer for a selection and its lower-cased form |
| LegacyPage.Refine | src/app/page.tsx:43-59 | the kept issues are issues passing the label, search and language predicates, and every passing issue is kept |
| LegacyPage.PageFilters | src/app/page.tsx:27-32 | no keyword; language and `updatedAt` when non-empty; labels none exactly when `labels` is absent or empty, else pieces joining back to it; page 1 by default, else the number written |
| LegacyPage.PageFiltersAreHomeFiltersWithoutKeyword | src/app/page.tsx:27-32 | the request filters are those of the address-driven page without its keyword |
| LegacyPage.EmptySearchMatches | src/app/page.tsx:49-51 | empty search text matches every issue |
| LegacyPage.ClearedKeepsAll | src/app/page.tsx:43-59 | no labels, empty search and `All Languages` keep every issue |
| LegacyPage.MappedIssuesHideUnderLanguage | src/app/page.tsx:53-56 | issues with language `unknown` (all mapped issues) vanish under any other specific language |
| LegacyPage.MoreLabelsNarrow | src/app/page.tsx:44-47 | selecting another label can only narrow the result |
| IssueView.ToIssueView | src/ui/issueView.ts:21-37 | id, title, body, url, the four repository fields, labels and `createdAt` are the issue's; there is no comment count, since `Issue` has none |
| Request.RequestParams | src/hooks/useIssueSearch.ts:15-20 | the sent parameters are exactly: the labels comma-joined whenever a list is given, the non-empty language and `updatedAt`, and the page when non-zero, written so that `Number` reads it back; nothing else, no keyword |
| Request.RouteFilters | src/app/api/v1/issues/route.ts:7-11 | the route's filters have no keyword and no update date, the received language, the whole `labels` value as one label (none when absent), and page 1 when absent or the number sent |
| Request.WhatReachesTheQuery | src/app/api/v1/issues/route.ts:7-11 | from an address, `buildQuery` receives no keyword or update date, the non-empty language, the whole `labels` parameter as one label, and the non-zero page or 1 |
| Request.KeywordNeverReachesQuery | src/hooks/useIssueSearch.ts:17-20 | removing `q` and `updatedAt` from the address changes neither the server's filters nor its query |
| Request.ClearedSearch | src/app/api/v1/issues/route.ts:7-11 | the cleared address sends only `page=1`, and the route searches the bare base predicate on page 1 |
| Request.TwoLabelsArriveJoined | src/app/api/v1/issues/route.ts:9 | two labels shown as selected arrive at the route as the one label `a,b` |
| IssueView.SameViewIff | src/ui/issueView.ts:21-37 | two issues have the same view exactly when they differ at most in `updatedAt` and `difficulty` |

## Left out

- The HTTP exchange in search.ts is not modelled: `fetch`, the `Authorization` header built from `GITHUB_TOKEN`, and `console.error`. The answer is an input.
- The request URL's encoding is left out. `URLSearchParams.toString` is library behaviour.
- `URLSearchParams` is modelled as a map with one value per name. Parameter order and repeated names are not modelled.
- `router.push` itself is not modelled. The three Home.tsx handlers and `goToPage` return the parameter map they would navigate to. `handleClear`'s navigation to `/` is covered only by what `/` reads as (`Home.ClearedAddress`).
- React state timing is not modelled: `useEffect` triggers, the one-second debounce in page.tsx, and the `searchQuery` state synced from the address. Rendering and JSX are left out too.
- Strings.ToLower, Strings.UpperFirst: only ASCII letters change case; JavaScript's full Unicode case mapping is not modelled.
- Strings.ParseInt: `Number(...)` is modelled only on an optional `-` followed by decimal digits. Whitespace, signs such as `+`, decimals and exponents give None here, although JavaScript reads some of them as numbers.
- PageNavigation.MaxPages: requires a positive `per_page`. JavaScript's `Infinity`/`NaN` for a zero divisor is not modelled. `Math.ceil` on floats is integer ceiling division.
- Strings.Trim: uses the ECMAScript white-space and line-terminator characters as a fixed list. Unicode category lookups are not modelled.
- The per-repository language lookup and its concurrent fan-out do not exist in the modelled code and are not modelled.
- The fetch, React state, error handling and JSON responses of src/hooks/useIssueSearch.ts and src/app/api/v1/issues/route.ts are not modelled. `Request` assumes the parameters arrive as they were sent.
- Request.RouteFilters: `getAll('labels')` is modelled on one value per name, since the hook sets `labels` once. `Number('')` is 0 in JavaScript but None here; the hook never sends an empty page.
- src/lib/http.ts and src/lib/issuesService.ts are not part of this model.
- The presentational components (FilterPanel, IssueCard, Header, layout) are not part of this model.
