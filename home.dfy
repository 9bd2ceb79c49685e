/** The search page driven by the address bar (src/components/Home.tsx). The
    query string is the single source of truth: it is read into filters and a
    display state, and each handler copies it, edits the copy and navigates
    to the result. The query string is a finite map from parameter name to
    value; the navigation itself is the map a handler returns. */
module Home {
  import opened Wrappers
  import opened Seqs
  import opened Strings
  import opened IssueTypes

  type Params = map<string, string>

  /** The language entry meaning "no language constraint". */
  const AllLanguages := "All Languages"

  /** A `URLSearchParams` object, one value per name. */
  class SearchParams {
    var entries: Params

    /** `new URLSearchParams(window.location.search)`. */
    constructor (query: Params)
      ensures entries == query
    {
      entries := query;
    }

    /** `params.set(key, value)`. */
    method Set(key: string, value: string)
      modifies this
      ensures entries == old(entries)[key := value]
    {
      entries := entries[key := value];
    }

    /** `params.delete(key)`. */
    method Delete(key: string)
      modifies this
      ensures entries == old(entries) - {key}
    {
      entries := entries - {key};
    }
  }

  /** `searchParams.get(key) || undefined`: present and non-empty. */
  function Truthy(p: Params, key: string): Option<string> {
    if key in p && p[key] != "" then Some(p[key]) else None
  }

  /** Every parameter other than `k1` and `k2` is as it was. */
  ghost predicate SameExcept(before: Params, after: Params, k1: string, k2: string) {
    forall k :: k != k1 && k != k2 ==>
      (k in after <==> k in before) && (k in after ==> after[k] == before[k])
  }

  /** `keyword`: `searchParams.get('q') ?? ''`. `??` keeps an empty value, so
      the keyword is the `q` parameter when it is non-empty and empty
      otherwise. */
  function Keyword(p: Params): (k: string)
    ensures Truthy(p, "q").Some? ==> k == p["q"]
    ensures Truthy(p, "q").None? ==> k == ""
  {
    if "q" in p then p["q"] else ""
  }

  /** `selectedLabels`: the `labels` parameter split on commas (empty pieces
      included), or none when it is absent or empty. */
  function SelectedLabels(p: Params): (labels: seq<string>)
    ensures Truthy(p, "labels").None? ==> labels == []
    ensures Truthy(p, "labels").Some? ==> Join(labels, ',') == p["labels"] && labels != []
    ensures forall i :: 0 <= i < |labels| ==> ',' !in labels[i]
  {
    match Truthy(p, "labels")
    case Some(v) => JoinSplit(v, ','); Split(v, ',')
    case None => []
  }

  /** `selectedLanguage`: the stored language with its first letter
      capitalised, or the no-constraint entry. Only the first letter's case
      changes, so the shown language lowercases to the stored one. */
  function SelectedLanguage(p: Params): (lang: string)
    ensures Truthy(p, "language").None? ==> lang == AllLanguages
    ensures Truthy(p, "language").Some? ==>
              var v := p["language"];
              |lang| == |v| && lang[0] == UpperChar(v[0]) && lang[1..] == v[1..]
              && ToLower(lang) == ToLower(v)
  {
    match Truthy(p, "language")
    case Some(v) =>
      assert LowerChar(UpperChar(v[0])) == LowerChar(v[0]);
      assert forall i :: 0 <= i < |v| ==> LowerChar(UpperFirst(v)[i]) == LowerChar(v[i]);
      UpperFirst(v)
    case None => AllLanguages
  }

  /** `page: pageParam ? Number(pageParam) : 1`: page 1 when the parameter is
      absent or empty; the number written in it otherwise (NaN is None). */
  function PageParam(p: Params): (page: Option<int>)
    ensures Truthy(p, "page").None? ==> page == Some(1)
    ensures forall n :: Truthy(p, "page") == Some(IntToString(n)) ==> page == Some(n)
  {
    assert forall n :: Truthy(p, "page") == Some(IntToString(n)) ==> ParseInt(p["page"]) == Some(n) by {
      forall n | Truthy(p, "page") == Some(IntToString(n)) ensures ParseInt(p["page"]) == Some(n) {
        ParseIntToString(n);
      }
    }
    if Truthy(p, "page").Some? then ParseInt(p["page"]) else Some(1)
  }

  /** `labels: labelsParam ? labelsParam.split(',') : undefined`: the comma
      pieces of a non-empty `labels` parameter, which join back to it. */
  function LabelsParam(p: Params): (labels: Option<seq<string>>)
    ensures Truthy(p, "labels").None? <==> labels.None?
    ensures labels.Some? ==> Join(labels.value, ',') == p["labels"]
    ensures labels.Some? ==> forall i :: 0 <= i < |labels.value| ==> ',' !in labels.value[i]
  {
    if Truthy(p, "labels").Some? then
      JoinSplit(p["labels"], ',');
      Some(Split(p["labels"], ','))
    else None
  }

  /** The filters handed to the search: the keyword when non-empty, the
      language and `updatedAt` when non-empty, the labels as selected, and the
      page as written in the address (1 when it is absent or empty). */
  function SearchFilters(p: Params): (f: Filters)
    ensures f.keyword.Some? <==> Keyword(p) != ""
    ensures f.keyword.Some? ==> f.keyword.value == p["q"]
    ensures f.language == Truthy(p, "language") && f.updatedAt == Truthy(p, "updatedAt")
    ensures f.labels.None? <==> Truthy(p, "labels").None?
    ensures f.labels.Some? ==> f.labels.value == SelectedLabels(p) && Join(f.labels.value, ',') == p["labels"]
    ensures Truthy(p, "page").None? ==> f.page == Some(1)
    ensures forall n :: Truthy(p, "page") == Some(IntToString(n)) ==> f.page == Some(n)
  {
    var keyword := Keyword(p);
    Filters(
      if keyword != "" then Some(keyword) else None,
      Truthy(p, "language"),
      LabelsParam(p),
      Truthy(p, "updatedAt"),
      PageParam(p))
  }

  // ---------------------------------------------------------------------
  // Client-side refinement

  /** An issue passes the keyword filter: a blank keyword passes everything;
      otherwise the lowercased keyword (untrimmed) must occur in the
      lowercased title or repository name. */
  function KeywordMatches(keyword: string, issue: Issue): (b: bool)
    ensures b <==> AllSpace(keyword)
                   || (exists i :: OccursAt(ToLower(issue.title), ToLower(keyword), i))
                   || (exists i :: OccursAt(ToLower(issue.repository.name), ToLower(keyword), i))
  {
    ContainsIff(ToLower(issue.title), ToLower(keyword));
    ContainsIff(ToLower(issue.repository.name), ToLower(keyword));
    Trim(keyword) == ""
    || Contains(ToLower(issue.title), ToLower(keyword))
    || Contains(ToLower(issue.repository.name), ToLower(keyword))
  }

  /** `filteredIssues`: the issues that pass the keyword filter, in order. */
  function FilteredIssues(issues: seq<Issue>, keyword: string): (shown: seq<Issue>)
    ensures |shown| <= |issues|
    ensures forall i :: 0 <= i < |shown| ==> shown[i] in issues && KeywordMatches(keyword, shown[i])
    ensures forall i :: 0 <= i < |issues| && KeywordMatches(keyword, issues[i]) ==> issues[i] in shown
  {
    Filter(issue => KeywordMatches(keyword, issue), issues)
  }

  // ---------------------------------------------------------------------
  // Label list

  /** `currentLabels`: the `labels` parameter split on commas with the empty
      pieces dropped, or none when the parameter is absent. When no piece is
      empty, the labels join back to the parameter. */
  function CurrentLabels(p: Params): (labels: seq<string>)
    ensures forall i :: 0 <= i < |labels| ==> labels[i] != "" && ',' !in labels[i]
    ensures "labels" !in p ==> labels == []
    ensures "labels" in p ==> forall x :: x in labels <==> x != "" && x in Split(p["labels"], ',')
    ensures "labels" in p && (forall x :: x in Split(p["labels"], ',') ==> x != "") ==>
              Join(labels, ',') == p["labels"]
  {
    if "labels" in p then
      var pieces := Split(p["labels"], ',');
      var kept := Filter(NonEmpty, pieces);
      assert forall x :: x in kept <==> x != "" && x in pieces by {
        forall x ensures x in kept <==> x != "" && x in pieces {
          if x in pieces && x != "" {
            var i :| 0 <= i < |pieces| && pieces[i] == x;
          }
          if x in kept {
            var i :| 0 <= i < |kept| && kept[i] == x;
          }
        }
      }
      assert (forall x :: x in pieces ==> x != "") ==> Join(kept, ',') == p["labels"] by {
        if forall x :: x in pieces ==> x != "" {
          forall i | 0 <= i < |pieces| ensures NonEmpty(pieces[i]) {
            assert pieces[i] in pieces;
          }
          FilterAllKept(NonEmpty, pieces);
          JoinSplit(p["labels"], ',');
        }
      }
      kept
    else []
  }

  predicate NonEmpty(s: string) {
    s != ""
  }

  /** The toggled list: a present label is removed everywhere it occurs, an
      absent one is appended at the end. */
  function Toggle(labels: seq<string>, name: string): (r: seq<string>)
    ensures name in r <==> name !in labels
    ensures forall x :: x != name ==> (x in r <==> x in labels)
    ensures name !in labels ==> r == labels + [name]
    ensures name in labels ==> r == Filter(x => x != name, labels)
  {
    if name in labels then
      var r := Filter(x => x != name, labels);
      assert forall x :: x != name && x in labels ==> x in r by {
        forall x | x != name && x in labels ensures x in r {
          var i :| 0 <= i < |labels| && labels[i] == x;
        }
      }
      r
    else
      labels + [name]
  }

  // ---------------------------------------------------------------------
  // Handlers

  /** `handleSearchSubmit`: stores the trimmed query under `q` (or removes
      `q` when the query is blank) and returns to page 1. */
  method HandleSearchSubmit(location: Params, searchQuery: string) returns (pushed: Params)
    ensures "q" in pushed <==> !AllSpace(searchQuery)
    ensures "q" in pushed ==> pushed["q"] == Trim(searchQuery)
    ensures "page" in pushed && pushed["page"] == "1"
    ensures SameExcept(location, pushed, "q", "page")
    ensures Keyword(pushed) == Trim(searchQuery)
    ensures SearchFilters(pushed).page == Some(1)
  {
    var params := new SearchParams(location);
    if Trim(searchQuery) != "" {
      params.Set("q", Trim(searchQuery));
    } else {
      params.Delete("q");
    }
    params.Set("page", "1");
    pushed := params.entries;
    assert ParseInt("1") == Some(1) by {
      assert AllDigits("1");
    }
  }

  /** `handleToggleLabel`: toggles the label `name` in the current list, stores the
      comma-joined result (or removes `labels` when it is empty) and returns
      to page 1. */
  method HandleToggleLabel(location: Params, name: string) returns (pushed: Params)
    ensures "labels" in pushed <==> Toggle(CurrentLabels(location), name) != []
    ensures "labels" in pushed ==> pushed["labels"] == Join(Toggle(CurrentLabels(location), name), ',')
    ensures "page" in pushed && pushed["page"] == "1"
    ensures SameExcept(location, pushed, "labels", "page")
    ensures name != "" && ',' !in name ==>
              SelectedLabels(pushed) == Toggle(CurrentLabels(location), name)
  {
    var params := new SearchParams(location);
    var current := CurrentLabels(params.entries);
    var newLabels := Toggle(current, name);
    if |newLabels| > 0 {
      params.Set("labels", Join(newLabels, ','));
    } else {
      params.Delete("labels");
    }
    params.Set("page", "1");
    pushed := params.entries;
    if name != "" && ',' !in name {
      LabelsReadBack(current, name, pushed);
    }
  }

  /** The stored list reads back as the toggled list, because no label is
      empty and none holds a comma. */
  lemma LabelsReadBack(current: seq<string>, name: string, pushed: Params)
    requires forall i :: 0 <= i < |current| ==> current[i] != "" && ',' !in current[i]
    requires name != "" && ',' !in name
    requires Toggle(current, name) != [] ==> "labels" in pushed && pushed["labels"] == Join(Toggle(current, name), ',')
    requires Toggle(current, name) == [] ==> "labels" !in pushed
    ensures SelectedLabels(pushed) == Toggle(current, name)
  {
    var t := Toggle(current, name);
    assert forall i :: 0 <= i < |t| ==> t[i] != "" && ',' !in t[i] by {
      forall i | 0 <= i < |t| ensures t[i] != "" && ',' !in t[i] {
        if t[i] != name {
          assert t[i] in current;
        }
      }
    }
    if t != [] {
      JoinStartsWith(t, ',');
      SplitJoin(t, ',');
    }
  }

  /** A join starts with its first piece. */
  lemma JoinStartsWith(xs: seq<string>, c: char)
    requires xs != []
    ensures xs[0] <= Join(xs, c)
  {
  }

  /** `handleSelectLanguage`: stores the lowercased language, or removes it
      for the empty string and the no-constraint entry, and returns to page 1.
      The displayed language then reads back capitalised. */
  method HandleSelectLanguage(location: Params, lang: string) returns (pushed: Params)
    ensures "language" in pushed <==> lang != "" && lang != AllLanguages
    ensures "language" in pushed ==> pushed["language"] == ToLower(lang)
    ensures "page" in pushed && pushed["page"] == "1"
    ensures SameExcept(location, pushed, "language", "page")
    ensures SelectedLanguage(pushed)
         == if lang != "" && lang != AllLanguages then UpperFirst(ToLower(lang)) else AllLanguages
  {
    var params := new SearchParams(location);
    if lang != "" && lang != AllLanguages {
      params.Set("language", ToLower(lang));
    } else {
      params.Delete("language");
    }
    params.Set("page", "1");
    pushed := params.entries;
  }

  /** `goToPage` of the page navigator (src/components/Pagination.tsx): stores
      the page number and leaves every other parameter alone, so the address
      then reads back that page. */
  method GoToPage(location: Params, page: int) returns (pushed: Params)
    ensures "page" in pushed && pushed["page"] == IntToString(page)
    ensures SameExcept(location, pushed, "page", "page")
    ensures SearchFilters(pushed).page == Some(page)
  {
    var params := new SearchParams(location);
    params.Set("page", IntToString(page));
    pushed := params.entries;
    ParseIntToString(page);
  }

  // ---------------------------------------------------------------------
  // Properties

  /** Toggling an absent label twice restores the list; toggling a present
      label twice moves it, once, to the end. */
  lemma ToggleTwice(labels: seq<string>, name: string)
    ensures name !in labels ==> Toggle(Toggle(labels, name), name) == labels
    ensures name in labels ==>
              Toggle(Toggle(labels, name), name) == Filter(x => x != name, labels) + [name]
  {
    if name !in labels {
      var p := x => x != name;
      FilterAppend(p, labels, [name]);
      FilterAllKept(p, labels);
      assert Filter(p, [name]) == [] by {
        assert Filter(p, [name][1..]) == [];
      }
      assert Filter(p, labels + [name]) == labels;
    }
  }

  /** A blank keyword shows every issue. */
  lemma BlankKeywordShowsAll(issues: seq<Issue>, keyword: string)
    requires AllSpace(keyword)
    ensures FilteredIssues(issues, keyword) == issues
  {
    FilterAllKept(issue => KeywordMatches(keyword, issue), issues);
  }

  /** The keyword filter ignores the case of the keyword's letters. */
  lemma KeywordCaseInsensitive(issue: Issue, keyword: string)
    ensures KeywordMatches(keyword, issue) <==> KeywordMatches(ToLower(keyword), issue)
  {
    LowerIdempotent(keyword);
    LowerKeepsSpace(keyword);
  }

  lemma LowerIdempotent(s: string)
    ensures ToLower(ToLower(s)) == ToLower(s)
  {
  }

  /** Lowercasing changes no whitespace character and makes none. */
  lemma LowerKeepsSpace(s: string)
    ensures AllSpace(ToLower(s)) <==> AllSpace(s)
  {
    assert forall i :: 0 <= i < |s| ==> (IsSpace(ToLower(s)[i]) <==> IsSpace(s[i]));
  }

  /** The address `/` that clearing navigates to asks for page 1 with no other
      filter and shows no labels and every language. */
  lemma ClearedAddress()
    ensures SearchFilters(map[]) == Filters(None, None, None, None, Some(1))
    ensures SelectedLabels(map[]) == [] && SelectedLanguage(map[]) == AllLanguages
  {
  }

}
