/** The records exchanged by the issue-search core (packages/core/src/issues/types.ts).
    Optional TypeScript fields (`x?: T`, `T | null`) are `Option<T>`; absent,
    `undefined` and `null` are all `None`. */
module IssueTypes {
  import opened Wrappers

  /** Search constraints. `keyword` is read by the query builder although the
      TypeScript interface omits it. `page` is `None` when absent and also when
      it holds JavaScript's NaN (both are falsy, as 0 is). */
  datatype Filters = Filters(
    keyword: Option<string>,
    language: Option<string>,
    labels: Option<seq<string>>,
    updatedAt: Option<string>,
    page: Option<int>)

  datatype Repository = Repository(name: string, owner: string, url: string, language: Option<string>)

  datatype Difficulty = Beginner | Intermediate | Advanced

  datatype Issue = Issue(
    id: string,
    title: string,
    body: Option<string>,
    url: string,
    repository: Repository,
    labels: seq<string>,
    createdAt: string,
    updatedAt: string,
    difficulty: Difficulty)

  datatype Pagination = Pagination(page: int, perPage: int, total: int, hasNext: bool)

  /** One `{ name }` entry of a raw item's `labels`. */
  datatype RawLabel = RawLabel(name: string)

  /** One element of the upstream search response's `items` (`GitHubIssueItem`). */
  datatype GitHubIssueItem = GitHubIssueItem(
    id: int,
    title: string,
    body: Option<string>,
    labels: seq<RawLabel>,
    htmlUrl: string,
    repositoryUrl: string,
    createdAt: string,
    updatedAt: string)

  datatype SearchIssuesResult = SearchIssuesResult(issues: seq<Issue>, pagination: Pagination)
}
