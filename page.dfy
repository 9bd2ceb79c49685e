/** The earlier search page (src/app/page.tsx): labels, language and search
    text live in component state rather than in the address, and refine the
    fetched issues on the client. Component state is a class whose setters
    are methods; the search request is built from the address parameters. */
module LegacyPage {
  import opened Wrappers
  import opened Seqs
  import opened Strings
  import opened IssueTypes
  import Home

  /** The three pieces of component state. */
  class PageState {
    var selectedLabels: seq<string>
    var selectedLanguage: string
    var searchQuery: string

    /** The initial state: no labels, every language, no search text. */
    constructor ()
      ensures selectedLabels == [] && selectedLanguage == Home.AllLanguages && searchQuery == ""
    {
      selectedLabels := [];
      selectedLanguage := Home.AllLanguages;
      searchQuery := "";
    }

    /** `toggleLabel`: removes a present label everywhere, appends an absent one. */
    method ToggleLabel(name: string)
      modifies this
      ensures selectedLabels == Home.Toggle(old(selectedLabels), name)
      ensures name in selectedLabels <==> name !in old(selectedLabels)
      ensures selectedLanguage == old(selectedLanguage) && searchQuery == old(searchQuery)
    {
      selectedLabels := Home.Toggle(selectedLabels, name);
    }

    /** `setSelectedLanguage`, the language selector's callback. */
    method SelectLanguage(lang: string)
      modifies this
      ensures selectedLanguage == lang
      ensures selectedLabels == old(selectedLabels) && searchQuery == old(searchQuery)
    {
      selectedLanguage := lang;
    }

    /** `setSearchQuery`, the search box's callback. */
    method ChangeSearchQuery(query: string)
      modifies this
      ensures searchQuery == query
      ensures selectedLabels == old(selectedLabels) && selectedLanguage == old(selectedLanguage)
    {
      searchQuery := query;
    }

    /** `handleClear`: back to the initial state, which lets every issue through. */
    method HandleClear()
      modifies this
      ensures selectedLabels == [] && selectedLanguage == Home.AllLanguages && searchQuery == ""
      ensures forall issues: seq<Issue> :: FilteredIssues(issues) == issues
    {
      selectedLabels := [];
      selectedLanguage := Home.AllLanguages;
      searchQuery := "";
      forall issues: seq<Issue> ensures FilteredIssues(issues) == issues {
        ClearedKeepsAll(issues);
      }
    }

    /** `filteredIssues` under the current state. */
    function FilteredIssues(issues: seq<Issue>): seq<Issue>
      reads this
    {
      Refine(selectedLabels, searchQuery, selectedLanguage, issues)
    }
  }

  /** Every selected label is among the issue's labels (none selected: no
      constraint). */
  function MatchesLabels(selected: seq<string>, issue: Issue): (b: bool)
    ensures b <==> forall x :: x in selected ==> x in issue.labels
  {
    |selected| == 0 || forall i :: 0 <= i < |selected| ==> selected[i] in issue.labels
  }

  /** The lowercased search text occurs in the lowercased title or
      repository name. */
  function MatchesSearch(query: string, issue: Issue): (b: bool)
    ensures b <==> (exists i :: OccursAt(ToLower(issue.title), ToLower(query), i))
                   || (exists i :: OccursAt(ToLower(issue.repository.name), ToLower(query), i))
  {
    ContainsIff(ToLower(issue.title), ToLower(query));
    ContainsIff(ToLower(issue.repository.name), ToLower(query));
    Contains(ToLower(issue.title), ToLower(query))
    || Contains(ToLower(issue.repository.name), ToLower(query))
  }

  /** The no-constraint entry, or the repository's language equal to the
      selection ignoring case; a repository without a language never equals
      a specific selection. */
  function MatchesLanguage(selected: string, issue: Issue): (b: bool)
    ensures selected == Home.AllLanguages ==> b
    ensures issue.repository.language.None? ==> (b <==> selected == Home.AllLanguages)
    ensures issue.repository.language.Some? && ToLower(issue.repository.language.value) == ToLower(selected) ==> b
    ensures (selected != Home.AllLanguages && issue.repository.language.Some?
             && ToLower(issue.repository.language.value) != ToLower(selected)) ==> !b
    ensures issue.repository.language.Some? && |issue.repository.language.value| != |selected| ==>
              (b <==> selected == Home.AllLanguages)
  {
    selected == Home.AllLanguages
    || (issue.repository.language.Some?
        && ToLower(issue.repository.language.value) == ToLower(selected))
  }

  predicate Matches(labels: seq<string>, query: string, lang: string, issue: Issue) {
    MatchesLabels(labels, issue) && MatchesSearch(query, issue) && MatchesLanguage(lang, issue)
  }

  /** The issues passing all three predicates, in their original order. */
  function Refine(labels: seq<string>, query: string, lang: string, issues: seq<Issue>): (kept: seq<Issue>)
    ensures |kept| <= |issues|
    ensures forall i :: 0 <= i < |kept| ==> kept[i] in issues && Matches(labels, query, lang, kept[i])
    ensures forall i :: 0 <= i < |issues| && Matches(labels, query, lang, issues[i]) ==> issues[i] in kept
  {
    Filter(issue => Matches(labels, query, lang, issue), issues)
  }

  /** The request filters: no keyword (the search text stays on the client),
      the language and `updatedAt` when non-empty, the comma pieces of a
      non-empty `labels` parameter, and the page as written in the address (1
      when it is absent or empty). */
  function PageFilters(p: Home.Params): (f: Filters)
    ensures f.keyword.None?
    ensures f.language == Home.Truthy(p, "language") && f.updatedAt == Home.Truthy(p, "updatedAt")
    ensures f.labels.None? <==> Home.Truthy(p, "labels").None?
    ensures f.labels.Some? ==> Join(f.labels.value, ',') == p["labels"]
    ensures Home.Truthy(p, "page").None? ==> f.page == Some(1)
    ensures forall n :: Home.Truthy(p, "page") == Some(IntToString(n)) ==> f.page == Some(n)
  {
    Filters(
      None,
      Home.Truthy(p, "language"),
      Home.LabelsParam(p),
      Home.Truthy(p, "updatedAt"),
      Home.PageParam(p))
  }

  // ---------------------------------------------------------------------
  // Properties

  /** The request filters are those of the address-driven page without its
      keyword. */
  lemma PageFiltersAreHomeFiltersWithoutKeyword(p: Home.Params)
    ensures PageFilters(p) == Home.SearchFilters(p).(keyword := None)
  {
  }

  /** The language filter ignores the case of the selection's letters: any
      specific selection filters like its lowercase form. */
  lemma LanguageCaseInsensitive(selected: string, issue: Issue)
    requires selected != Home.AllLanguages
    ensures MatchesLanguage(selected, issue) <==> MatchesLanguage(ToLower(selected), issue)
  {
    Home.LowerIdempotent(selected);
    assert |selected| == 0 || ToLower(selected)[0] != 'A';
    assert Home.AllLanguages[0] == 'A';
  }

  /** An empty search text matches every issue. */
  lemma EmptySearchMatches(issue: Issue)
    ensures MatchesSearch("", issue)
  {
    assert ToLower("") == "";
    assert "" <= ToLower(issue.title);
  }

  /** The cleared state keeps every issue. */
  lemma ClearedKeepsAll(issues: seq<Issue>)
    ensures Refine([], "", Home.AllLanguages, issues) == issues
  {
    forall i | 0 <= i < |issues| ensures Matches([], "", Home.AllLanguages, issues[i]) {
      EmptySearchMatches(issues[i]);
    }
    FilterAllKept(issue => Matches([], "", Home.AllLanguages, issue), issues);
  }

  /** Issues as the mapper produces them carry the language `unknown`, so any
      other specific language selection shows none of them. */
  lemma MappedIssuesHideUnderLanguage(labels: seq<string>, query: string, lang: string, issues: seq<Issue>)
    requires forall i :: 0 <= i < |issues| ==> issues[i].repository.language == Some("unknown")
    requires lang != Home.AllLanguages && ToLower(lang) != "unknown"
    ensures Refine(labels, query, lang, issues) == []
  {
    assert ToLower("unknown") == "unknown";
    FilterNoneKept(issue => Matches(labels, query, lang, issue), issues);
  }

  /** Selecting a label can only narrow the result. */
  lemma MoreLabelsNarrow(labels: seq<string>, name: string, query: string, lang: string, issue: Issue)
    requires Matches(labels + [name], query, lang, issue)
    ensures Matches(labels, query, lang, issue)
  {
    if |labels| > 0 {
      forall i | 0 <= i < |labels| ensures labels[i] in issue.labels {
        assert (labels + [name])[i] == labels[i];
      }
    }
  }
}
