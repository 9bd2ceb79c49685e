/** One search request against the upstream issue-search endpoint and the
    shaping of its answer (packages/core/src/issues/search.ts). The HTTP
    exchange itself is a parameter: `response` is what the endpoint answered. */
module Search {
  import opened Wrappers
  import opened Seqs
  import opened Strings
  import opened IssueTypes
  import opened QueryBuilder
  import opened Mapper
  import PageNavigation

  /** What the endpoint answered: a non-OK status with its text and body, or
      the decoded JSON (`items` and `total_count`). */
  datatype Response =
    | Failed(status: int, statusText: string, body: string)
    | Ok(items: seq<GitHubIssueItem>, totalCount: int)

  /** Results per page, sent as `per_page` and used for `hasNext`. */
  const PerPage := 30

  /** `ErrorMessages.GitHubAPIError`. */
  const GitHubApiErrorText := "GitHub API returned an error. Check token and rate limits."

  /** `filters.page || 1`: an absent page (or NaN) and page 0 fall back to 1;
      any other number, negative ones included, is used as it is. */
  function EffectivePage(page: Option<int>): (p: int)
    ensures p != 0
    ensures page.Some? && page.value != 0 ==> p == page.value
    ensures page.None? || page.value == 0 ==> p == 1
  {
    if page.Some? && page.value != 0 then page.value else 1
  }

  /** The fixed text that opens the error message. */
  const ApiErrorPrefix := "GitHub API Error: "

  /** The message of the error thrown for a non-OK response: the fixed text,
      the status and a space, then the status text, then ` - ` and the body. */
  function ApiErrorMessage(status: int, statusText: string, body: string): (m: string)
    ensures var head := ApiErrorPrefix + IntToString(status) + " ";
            |m| == |head| + |statusText| + 3 + |body|
            && m[..|head|] == head
            && m[|head|..|head| + |statusText|] == statusText
            && m[|head| + |statusText|..] == " - " + body
  {
    ApiErrorPrefix + IntToString(status) + " " + statusText + " - " + body
  }

  /** The `pagination` object: the page shown, 30 per page, the reported
      total, and whether results remain beyond this page. */
  function Paginate(page: Option<int>, total: int): (p: Pagination)
    ensures p.page == EffectivePage(page) && p.perPage == PerPage && p.total == total
    ensures p.hasNext <==> total - p.page * PerPage >= 1
  {
    var n := EffectivePage(page);
    Pagination(n, PerPage, total, n * PerPage < total)
  }

  /** `searchIssues`: builds the query, appends the three search parameters in
      order, and either fails with the API error or maps the items. */
  method SearchIssues(filters: Filters, response: Response)
    returns (request: seq<(string, string)>, result: Result<SearchIssuesResult, string>)
    ensures request == [("q", Query(filters)),
                        ("page", IntToString(EffectivePage(filters.page))),
                        ("per_page", "30")]
    ensures response.Failed? ==>
              result == Failure(ApiErrorMessage(response.status, response.statusText, response.body))
    ensures response.Ok? ==> result.Success?
    ensures response.Ok? ==> IssuesMapper(response.items).Success?
                             && result.value.issues == IssuesMapper(response.items).value
    ensures response.Ok? ==> result.value.pagination == Paginate(filters.page, response.totalCount)
  {
    var query := BuildQuery(filters);
    request := [];
    request := request + [("q", query)];
    request := request + [("page", IntToString(EffectivePage(filters.page)))];
    request := request + [("per_page", IntToString(PerPage))];
    assert IntToString(PerPage) == "30";
    if response.Failed? {
      result := Failure(ApiErrorMessage(response.status, response.statusText, response.body));
      return;
    }
    var mapped := IssuesMapper(response.items);
    match mapped {
      case Failure(e) =>
        result := Failure(e);
      case Success(issues) =>
        var page := EffectivePage(filters.page);
        result := Success(SearchIssuesResult(issues,
          Pagination(page, PerPage, response.totalCount, page * PerPage < response.totalCount)));
    }
  }

  // ---------------------------------------------------------------------
  // Properties

  /** The `page` parameter sent reads back as the page reported in the
      pagination object. */
  lemma PageParameterReadsBack(page: Option<int>)
    ensures ParseInt(IntToString(EffectivePage(page))) == Some(Paginate(page, 0).page)
  {
    ParseIntToString(EffectivePage(page));
  }

  /** If a page has a successor, so does every earlier page. */
  lemma HasNextMonotone(p: int, q: int, total: int)
    requires 1 <= p <= q
    ensures Paginate(Some(q), total).hasNext ==> Paginate(Some(p), total).hasNext
  {
    assert p * PerPage <= q * PerPage;
  }

  /** The number of issues returned is the number of items with repository
      information; items without it are dropped silently. */
  lemma ReturnedIssueCount(items: seq<GitHubIssueItem>)
    ensures IssuesMapper(items).Success?
    ensures |IssuesMapper(items).value| + Count(NoRepository, items) == |items|
  {
    DroppedItems(items);
  }

  /** The status reads back from the message: it is the number right after
      the fixed opening text. */
  lemma ErrorCarriesStatus(status: int, statusText: string, body: string)
    ensures var m := ApiErrorMessage(status, statusText, body);
            var k := |ApiErrorPrefix| + |IntToString(status)|;
            k < |m| && m[..|ApiErrorPrefix|] == ApiErrorPrefix && m[k] == ' '
            && ParseInt(m[|ApiErrorPrefix|..k]) == Some(status)
  {
    var m := ApiErrorMessage(status, statusText, body);
    var k := |ApiErrorPrefix| + |IntToString(status)|;
    assert m[|ApiErrorPrefix|..k] == IntToString(status);
    ParseIntToString(status);
  }

  /** A short error message never contains the text of
      `ErrorMessages.GitHubAPIError` (58 characters): with status `401`,
      status text `Unauthorized` and body `Bad credentials` the message has
      52 characters. */
  lemma ErrorLacksApiErrorText(status: int, statusText: string, body: string)
    requires |IntToString(status)| + |statusText| + |body| < 36
    ensures !Contains(ApiErrorMessage(status, statusText, body), GitHubApiErrorText)
  {
    LongerNotContained(ApiErrorMessage(status, statusText, body), GitHubApiErrorText);
  }

  /** An empty answer with total 0 yields no issues, and a next page exactly
      when the page is negative: `page * 30 < 0` then holds. */
  lemma EmptyAnswer(page: Option<int>)
    ensures IssuesMapper([]) == Success([])
    ensures Paginate(page, 0).hasNext <==> EffectivePage(page) < 0
  {
    assert Filter(HasRepository, []) == [];
  }

  /** Page `-1` of an empty answer: the pagination object says a next page
      exists, and the navigator enables its next arrow, although there are no
      pages at all. */
  lemma NegativePageNoResults(total: int)
    requires total == 0
    ensures Paginate(Some(-1), total).page == -1 && Paginate(Some(-1), total).hasNext
    ensures PageNavigation.MaxPages(total, PerPage) == 0
    ensures PageNavigation.CanGoNext(Paginate(Some(-1), total).hasNext, -1,
                                     PageNavigation.MaxPages(total, PerPage))
  {
    PageNavigation.NoResults(-1, PerPage, true);
  }

  /** The item of the unit test in tests/core/issues/search.test.ts: its `repository_url` is the API
      address `https://api.github.com/repos/test/repo`, whose first path
      segment after the host is `repos`, so the issue's owner is `repos` and
      its repository name is `test`. */
  lemma ApiAddressItem(item: GitHubIssueItem)
    requires item.repositoryUrl == "https://api.github.com/repos/" + "test" + "/" + "repo"
    ensures HasRepository(item)
    ensures IssuesMapper([item]).Success? && |IssuesMapper([item]).value| == 1
    ensures IssuesMapper([item]).value[0].repository.owner == "repos"
    ensures IssuesMapper([item]).value[0].repository.name == "test"
    ensures IssuesMapper([item]).value[0].title == item.title
  {
    ApiUrlExtract("test", "repo");
    assert Filter(HasRepository, [item]) == [item] by {
      assert Filter(HasRepository, [item][1..]) == [];
    }
  }
}
