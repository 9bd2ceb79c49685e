/** Conversion of raw search-result items into `Issue` records
    (packages/core/src/issues/mapper.ts). */
module Mapper {
  import opened Wrappers
  import opened Seqs
  import opened Strings
  import opened IssueTypes

  /** Owner and repository name taken from a URL. */
  datatype RepoInfo = RepoInfo(owner: string, name: string)

  /** The literal text the pattern starts with (`github\.com\/`). */
  const Host := "github.com/"

  /** `ErrorMessages.RepoInfoExtractFailed`. */
  const RepoInfoExtractFailed := "Failed to extract repository info from URL"

  /** The first index at or after `j` holding `/`, or `|s|` when there is none:
      where a greedy `[^\/]+` starting at `j` stops. */
  function SegmentEnd(s: string, j: nat): (e: nat)
    requires j <= |s|
    ensures j <= e <= |s|
    ensures forall k :: j <= k < e ==> s[k] != '/'
    ensures e < |s| ==> s[e] == '/'
    decreases |s| - j
  {
    if j == |s| || s[j] == '/' then j else SegmentEnd(s, j + 1)
  }

  /** The pattern `github\.com\/([^\/]+)\/([^\/]+)` matches at offset `i`: the
      host text, a non-empty run without `/`, a `/`, and at least one more
      character that is not `/`. Greedy groups leave no other way to match. */
  predicate MatchAt(url: string, i: int) {
    0 <= i && i + |Host| <= |url| && url[i..i + |Host|] == Host
    && var a := i + |Host|;
       var e := SegmentEnd(url, a);
       a < e < |url| && SegmentEnd(url, e + 1) > e + 1
  }

  /** The two groups of the match at `i`. */
  function GroupsAt(url: string, i: int): (r: RepoInfo)
    requires MatchAt(url, i)
    ensures r.owner != "" && r.name != ""
    ensures '/' !in r.owner && '/' !in r.name
  {
    var a := i + |Host|;
    var e := SegmentEnd(url, a);
    var r := RepoInfo(url[a..e], url[e + 1..SegmentEnd(url, e + 1)]);
    assert forall k :: 0 <= k < |r.owner| ==> r.owner[k] == url[a + k];
    assert forall k :: 0 <= k < |r.name| ==> r.name[k] == url[e + 1 + k];
    r
  }

  /** The leftmost offset at or after `i` where the pattern matches. */
  function FirstMatchFrom(url: string, i: nat): (r: Option<nat>)
    ensures r.Some? ==> i <= r.value && MatchAt(url, r.value)
    ensures r.Some? ==> forall k :: i <= k < r.value ==> !MatchAt(url, k)
    ensures r.None? ==> forall k :: i <= k ==> !MatchAt(url, k)
    decreases |url| - i
  {
    if i + |Host| > |url| then None
    else if MatchAt(url, i) then Some(i)
    else FirstMatchFrom(url, i + 1)
  }

  /** `extractRepoFromUrl`: the groups of the leftmost match, or None when the
      pattern matches nowhere. */
  function ExtractRepoFromUrl(url: string): (r: Option<RepoInfo>)
    ensures r.None? <==> forall k :: 0 <= k ==> !MatchAt(url, k)
    ensures r.Some? ==> exists i :: MatchAt(url, i) && r.value == GroupsAt(url, i)
                                    && forall k :: 0 <= k < i ==> !MatchAt(url, k)
  {
    match FirstMatchFrom(url, 0)
    case None => None
    case Some(i) => Some(GroupsAt(url, i))
  }

  /** `hasRepository`: a non-empty repository URL from which owner and name
      can be extracted. */
  function HasRepository(item: GitHubIssueItem): (b: bool)
    ensures b <==> exists k :: MatchAt(item.repositoryUrl, k)
  {
    item.repositoryUrl != "" && ExtractRepoFromUrl(item.repositoryUrl).Some?
  }

  predicate NoRepository(item: GitHubIssueItem) {
    !HasRepository(item)
  }

  /** The canonical web address of a repository. */
  function RepoUrl(info: RepoInfo): string {
    "https://" + Host + info.owner + "/" + info.name
  }

  /** The mapping callback for one item: re-extracts owner and name and throws
      (here: `Failure`) when that fails. The raw `body` field is not copied. */
  function MapItem(item: GitHubIssueItem): (r: Result<Issue, string>)
    ensures r.Failure? <==> ExtractRepoFromUrl(item.repositoryUrl).None?
    ensures r.Failure? ==> r.error == RepoInfoExtractFailed + ": " + item.repositoryUrl
    ensures r.Success? ==> Some(RepoInfo(r.value.repository.owner, r.value.repository.name))
                           == ExtractRepoFromUrl(item.repositoryUrl)
  {
    match ExtractRepoFromUrl(item.repositoryUrl)
    case None => Failure(RepoInfoExtractFailed + ": " + item.repositoryUrl)
    case Some(info) =>
      Success(Issue(
        id := IntToString(item.id),
        title := item.title,
        body := None,
        url := item.htmlUrl,
        repository := Repository(info.name, info.owner, RepoUrl(info), Some("unknown")),
        labels := LabelNames(item.labels),
        createdAt := item.createdAt,
        updatedAt := item.updatedAt,
        difficulty := Beginner))
  }

  /** `item.labels.map((label) => label.name)`. */
  function LabelNames(labels: seq<RawLabel>): (r: seq<string>)
    ensures |r| == |labels| && forall i :: 0 <= i < |labels| ==> r[i] == labels[i].name
  {
    seq(|labels|, i requires 0 <= i < |labels| => labels[i].name)
  }

  /** `issuesMapper`: the items with repository information, each mapped.
      The throwing branch is unreachable: every item that survives the filter
      maps, so the mapper never fails and yields one issue per kept item, in
      order. */
  function IssuesMapper(items: seq<GitHubIssueItem>): (r: Result<seq<Issue>, string>)
    ensures r.Success?
    ensures |r.value| == Count(HasRepository, items) <= |items|
    ensures forall i :: 0 <= i < |r.value| ==> MapItem(Filter(HasRepository, items)[i]) == Success(r.value[i])
  {
    var kept := Filter(HasRepository, items);
    assert forall i :: 0 <= i < |kept| ==> MapItem(kept[i]).Success?;
    MapResultSucceeds(MapItem, kept);
    MapResultElements(MapItem, kept);
    MapResult(MapItem, kept)
  }

  // ---------------------------------------------------------------------
  // Properties

  /** Items without extractable repository information are exactly the ones
      dropped. */
  lemma DroppedItems(items: seq<GitHubIssueItem>)
    ensures IssuesMapper(items).Success?
    ensures |items| - |IssuesMapper(items).value| == Count(NoRepository, items)
  {
    FilterDropsFailing(HasRepository, NoRepository, items);
  }

  /** Items without a `repository_url` (such as items that carry only an
      inline `repository` object) all vanish: the mapping succeeds with no
      issues. */
  lemma ItemsWithoutUrlVanish(items: seq<GitHubIssueItem>)
    requires forall i :: 0 <= i < |items| ==> items[i].repositoryUrl == ""
    ensures IssuesMapper(items) == Success([])
  {
    FilterNoneKept(HasRepository, items);
  }

  /** Mapping a concatenation maps each part: an item's result does not depend
      on its neighbours. */
  lemma IssuesMapperAppend(a: seq<GitHubIssueItem>, b: seq<GitHubIssueItem>)
    ensures IssuesMapper(a).Success? && IssuesMapper(b).Success? && IssuesMapper(a + b).Success?
    ensures IssuesMapper(a + b).value == IssuesMapper(a).value + IssuesMapper(b).value
  {
    var ka, kb := Filter(HasRepository, a), Filter(HasRepository, b);
    assert IssuesMapper(a) == MapResult(MapItem, ka);
    assert IssuesMapper(b) == MapResult(MapItem, kb);
    FilterAppend(HasRepository, a, b);
    assert IssuesMapper(a + b) == MapResult(MapItem, ka + kb);
    MapResultAppend(MapItem, ka, kb);
  }

  /** Every item that reaches the output is kept whole: a list in which every
      item carries repository information loses nothing. */
  lemma AllKeptWhenAllHaveRepository(items: seq<GitHubIssueItem>)
    requires forall i :: 0 <= i < |items| ==> HasRepository(items[i])
    ensures IssuesMapper(items).Success? && |IssuesMapper(items).value| == |items|
  {
    FilterKeepsAll(HasRepository, items);
  }

  /** The canonical address built for an extracted repository reads back as
      the same owner and name. */
  lemma RepoUrlRoundTrip(info: RepoInfo)
    requires info.owner != "" && info.name != ""
    requires '/' !in info.owner && '/' !in info.name
    ensures ExtractRepoFromUrl(RepoUrl(info)) == Some(info)
  {
    assert RepoUrl(info) == "https://" + Host + info.owner + "/" + info.name + "";
    GroupsAfterPrefix("https://", info.owner, info.name, "");
  }

  /** The fields every mapped issue carries: the id is the item's number in
      decimal and reads back as it, the title, address, dates and label names are the item's, the
      language is the placeholder `unknown`, the difficulty is `Beginner`, and
      the repository address is the web address of owner and name, which
      reads back as the same pair. */
  lemma MappedIssue(item: GitHubIssueItem, issue: Issue)
    requires MapItem(item) == Success(issue)
    ensures issue.id == IntToString(item.id) && ParseInt(issue.id) == Some(item.id)
    ensures issue.title == item.title && issue.url == item.htmlUrl
    ensures issue.createdAt == item.createdAt && issue.updatedAt == item.updatedAt
    ensures |issue.labels| == |item.labels|
    ensures forall i :: 0 <= i < |item.labels| ==> issue.labels[i] == item.labels[i].name
    ensures issue.repository.language == Some("unknown") && issue.difficulty == Beginner
    ensures issue.body == None
    ensures issue.repository.url == "https://github.com/" + issue.repository.owner + "/" + issue.repository.name
    ensures ExtractRepoFromUrl(issue.repository.url)
         == Some(RepoInfo(issue.repository.owner, issue.repository.name))
  {
    ParseIntToString(item.id);
    var info := ExtractRepoFromUrl(item.repositoryUrl).value;
    assert issue.repository.url == RepoUrl(info);
    assert "https://" + Host == "https://github.com/";
    RepoUrlRoundTrip(info);
  }

  // ---------------------------------------------------------------------
  // The two address shapes the upstream service uses

  /** The web address of a repository, or of anything inside it, gives its
      owner and name. */
  lemma WebUrlExtract(o: string, n: string, t: string)
    requires o != "" && n != "" && '/' !in o && '/' !in n
    requires t == "" || t[0] == '/'
    ensures ExtractRepoFromUrl("https://github.com/" + o + "/" + n + t) == Some(RepoInfo(o, n))
  {
    assert "https://github.com/" == "https://" + Host;
    GroupsAfterPrefix("https://", o, n, t);
  }

  /** The API address of a repository (`repository_url` in the search
      response) has `repos` as its first path segment, so the pattern yields
      `repos` as the owner and the real owner as the name. */
  lemma ApiUrlExtract(o: string, n: string)
    requires o != "" && n != "" && '/' !in o && '/' !in n
    ensures ExtractRepoFromUrl("https://api.github.com/repos/" + o + "/" + n)
         == Some(RepoInfo("repos", o))
  {
    var p := "https://api.";
    assert "https://api.github.com/repos/" + o + "/" + n
        == p + Host + "repos" + "/" + o + ("/" + n) by {
      assert "https://api.github.com/repos/" == p + Host + "repos" + "/";
    }
    GroupsAfterPrefix(p, "repos", o, "/" + n);
  }

  /** The groups of the match right after a prefix `p` without the letter `g`
      (so no match starts inside it), for owner `o`, name `n` and a tail `t`
      that is empty or starts with `/`. */
  lemma GroupsAfterPrefix(p: string, o: string, n: string, t: string)
    requires 'g' !in p
    requires o != "" && n != "" && '/' !in o && '/' !in n
    requires t == "" || t[0] == '/'
    ensures ExtractRepoFromUrl(p + Host + o + "/" + n + t) == Some(RepoInfo(o, n))
  {
    var url := p + Host + o + "/" + n + t;
    MatchAfterPrefix(p, o, n, t);
    NoMatchInPrefix(p, url);
    FirstMatchIs(url, 0, |p|);
  }

  /** The pattern matches right after the prefix, with groups `o` and `n`. */
  lemma MatchAfterPrefix(p: string, o: string, n: string, t: string)
    requires o != "" && n != "" && '/' !in o && '/' !in n
    requires t == "" || t[0] == '/'
    ensures MatchAt(p + Host + o + "/" + n + t, |p|)
    ensures GroupsAt(p + Host + o + "/" + n + t, |p|) == RepoInfo(o, n)
  {
    var url := p + Host + o + "/" + n + t;
    var a := |p| + |Host|;
    var e := a + |o|;
    assert url[|p|..a] == Host;
    assert url[a..e] == o;
    assert url[e] == '/';
    SegmentEndOver(url, a, e);
    assert url[e + 1..e + 1 + |n|] == n;
    SegmentEndOver(url, e + 1, e + 1 + |n|);
  }

  /** No match starts inside a leading part without the letter `g`. */
  lemma NoMatchInPrefix(p: string, url: string)
    requires 'g' !in p && p <= url
    ensures forall k :: 0 <= k < |p| ==> !MatchAt(url, k)
  {
    forall k | 0 <= k < |p| ensures !MatchAt(url, k) {
      assert url[k] == p[k];
      if k + |Host| <= |url| {
        assert url[k..k + |Host|][0] == url[k];
      }
    }
  }

  /** A run without `/` that ends at a `/` or at the end is exactly one segment. */
  lemma {:induction false} SegmentEndOver(s: string, j: nat, e: nat)
    requires j <= e <= |s|
    requires forall k :: j <= k < e ==> s[k] != '/'
    requires e < |s| ==> s[e] == '/'
    ensures SegmentEnd(s, j) == e
    decreases e - j
  {
    if j < e {
      SegmentEndOver(s, j + 1, e);
    }
  }

  /** The scan from `i` stops at the first matching offset `m`. */
  lemma {:induction false} FirstMatchIs(url: string, i: nat, m: nat)
    requires i <= m && MatchAt(url, m)
    requires forall k :: i <= k < m ==> !MatchAt(url, k)
    ensures FirstMatchFrom(url, i) == Some(m)
    decreases m - i
  {
    if i < m {
      FirstMatchIs(url, i + 1, m);
    }
  }
}
