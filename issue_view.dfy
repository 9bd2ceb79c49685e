/** The display projection of an issue (src/ui/issueView.ts). */
module IssueView {
  import opened Wrappers
  import opened IssueTypes

  datatype RepositoryView = RepositoryView(name: string, owner: string, url: string, language: Option<string>)

  /** What a card shows. `comments` is read from a field the core `Issue`
      does not have, so it is always absent. */
  datatype IssueView = IssueView(
    id: string,
    title: string,
    body: Option<string>,
    url: string,
    repository: RepositoryView,
    labels: seq<string>,
    comments: Option<int>,
    createdAt: string)

  /** `toIssueView`: copies every shown field and drops `updatedAt` and
      `difficulty`. */
  function ToIssueView(issue: Issue): (v: IssueView)
    ensures v.id == issue.id && v.title == issue.title && v.body == issue.body && v.url == issue.url
    ensures v.repository.name == issue.repository.name && v.repository.owner == issue.repository.owner
    ensures v.repository.url == issue.repository.url && v.repository.language == issue.repository.language
    ensures v.labels == issue.labels && v.createdAt == issue.createdAt
    ensures v.comments.None?
  {
    var r := issue.repository;
    IssueView(issue.id, issue.title, issue.body, issue.url,
              RepositoryView(r.name, r.owner, r.url, r.language),
              issue.labels, None, issue.createdAt)
  }

  /** Two issues have the same view exactly when they agree on everything
      but `updatedAt` and `difficulty`: the view loses those two fields and
      nothing else. */
  lemma SameViewIff(a: Issue, b: Issue)
    ensures ToIssueView(a) == ToIssueView(b)
        <==> a.(updatedAt := b.updatedAt, difficulty := b.difficulty) == b
  {
    if ToIssueView(a) == ToIssueView(b) {
      assert a.repository == b.repository by {
        assert ToIssueView(a).repository == ToIssueView(b).repository;
      }
    }
  }
}
