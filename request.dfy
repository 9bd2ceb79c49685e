/** The way from the address-driven page to `buildQuery`: the request
    parameters the search hook sends (src/hooks/useIssueSearch.ts) and the
    filters the API route rebuilds from them (src/app/api/v1/issues/route.ts).
    The fetch between the two is not modelled: the parameters arrive as they
    were sent. */
module Request {
  import opened Wrappers
  import opened Strings
  import opened IssueTypes
  import opened QueryBuilder
  import Home

  /** The hook's query string: the labels comma-joined whenever a list is
      given (an empty list is truthy too), the language and `updatedAt` when
      non-empty, and the page when it is a number other than 0. The keyword
      is never sent. */
  function RequestParams(f: Filters): (q: Home.Params)
    ensures "labels" in q <==> f.labels.Some?
    ensures f.labels.Some? ==> q["labels"] == Join(f.labels.value, ',')
    ensures "language" in q <==> Given(f.language)
    ensures Given(f.language) ==> q["language"] == f.language.value
    ensures "updatedAt" in q <==> Given(f.updatedAt)
    ensures Given(f.updatedAt) ==> q["updatedAt"] == f.updatedAt.value
    ensures "page" in q <==> f.page.Some? && f.page.value != 0
    ensures "page" in q ==> ParseInt(q["page"]) == f.page
    ensures forall k :: k in q ==> k in {"labels", "language", "updatedAt", "page"}
  {
    var q0: Home.Params := map[];
    var q1 := if f.labels.Some? then q0["labels" := Join(f.labels.value, ',')] else q0;
    var q2 := if Given(f.language) then q1["language" := f.language.value] else q1;
    var q3 := if Given(f.updatedAt) then q2["updatedAt" := f.updatedAt.value] else q2;
    if f.page.Some? && f.page.value != 0 then
      ParseIntToString(f.page.value);
      q3["page" := IntToString(f.page.value)]
    else q3
  }

  /** The route's filters: the language as received, every value of
      `labels` as one label each (`getAll` does not split on commas), and
      `Number(page ?? 1)`. There is no keyword and no update date. */
  function RouteFilters(q: Home.Params): (f: Filters)
    ensures f.keyword.None? && f.updatedAt.None?
    ensures "language" in q ==> f.language == Some(q["language"])
    ensures "language" !in q ==> f.language.None?
    ensures "labels" in q ==> f.labels == Some([q["labels"]])
    ensures "labels" !in q ==> f.labels == Some([])
    ensures "page" !in q ==> f.page == Some(1)
    ensures forall n :: "page" in q && q["page"] == IntToString(n) ==> f.page == Some(n)
  {
    assert forall n :: "page" in q && q["page"] == IntToString(n) ==> ParseInt(q["page"]) == Some(n) by {
      forall n | "page" in q && q["page"] == IntToString(n) ensures ParseInt(q["page"]) == Some(n) {
        ParseIntToString(n);
      }
    }
    Filters(
      None,
      if "language" in q then Some(q["language"]) else None,
      Some(if "labels" in q then [q["labels"]] else []),
      None,
      if "page" in q then ParseInt(q["page"]) else Some(1))
  }

  /** The filters `buildQuery` receives for an address of the page. */
  function ServerFilters(p: Home.Params): Filters {
    RouteFilters(RequestParams(Home.SearchFilters(p)))
  }

  // ---------------------------------------------------------------------
  // Properties

  /** What reaches the query from an address: no keyword and no update date;
      the non-empty language; the whole `labels` parameter as one label,
      commas included; the page when it is a non-zero number, 1 otherwise. */
  lemma WhatReachesTheQuery(p: Home.Params)
    ensures ServerFilters(p).keyword.None? && ServerFilters(p).updatedAt.None?
    ensures ServerFilters(p).language == Home.Truthy(p, "language")
    ensures Home.Truthy(p, "labels").Some? ==> ServerFilters(p).labels == Some([p["labels"]])
    ensures Home.Truthy(p, "labels").None? ==> ServerFilters(p).labels == Some([])
    ensures Home.Truthy(p, "page").None? ==> ServerFilters(p).page == Some(1)
    ensures forall n :: n != 0 && Home.Truthy(p, "page") == Some(IntToString(n)) ==>
              ServerFilters(p).page == Some(n)
  {
    var f := Home.SearchFilters(p);
    var q := RequestParams(f);
    ParseIntToString(1);
    if "page" in q {
      ParseIntToString(f.page.value);
    }
  }

  /** The keyword and the update date have no effect on the query: the
      server's filters, and so its query, are those of the address without
      them. They act only on the client. */
  lemma KeywordNeverReachesQuery(p: Home.Params)
    ensures ServerFilters(p) == ServerFilters(p - {"q", "updatedAt"})
    ensures Query(ServerFilters(p)) == Query(ServerFilters(p - {"q", "updatedAt"}))
  {
    var r := p - {"q", "updatedAt"};
    assert Home.Truthy(r, "language") == Home.Truthy(p, "language");
    assert Home.Truthy(r, "labels") == Home.Truthy(p, "labels");
    assert Home.Truthy(r, "page") == Home.Truthy(p, "page");
    assert Home.SearchFilters(r).labels == Home.SearchFilters(p).labels;
    assert Home.SearchFilters(r).page == Home.SearchFilters(p).page;
  }

  /** The cleared address `/` sends only `page=1`, and the route searches the
      bare base predicate on page 1. */
  lemma ClearedSearch()
    ensures RequestParams(Home.SearchFilters(map[])) == map["page" := "1"]
    ensures ServerFilters(map[]) == Filters(None, None, Some([]), None, Some(1))
    ensures Query(ServerFilters(map[])) == Base
  {
    Home.ClearedAddress();
    ParseIntToString(1);
    EmptyFiltersQuery(Filters(None, None, None, None, Some(1)));
  }

  /** Two labels `a` and `b` selected on the page arrive at the route as the
      single label `a,b`, so `buildQuery` renders one clause for both. */
  lemma TwoLabelsArriveJoined(p: Home.Params, a: string, b: string)
    requires a != "" && b != "" && ',' !in a && ',' !in b
    requires "labels" in p && p["labels"] == a + "," + b
    ensures Home.SelectedLabels(p) == [a, b]
    ensures ServerFilters(p).labels == Some([a + "," + b])
  {
    assert p["labels"] == Join([a, b], ',');
    SplitJoin([a, b], ',');
    WhatReachesTheQuery(p);
  }
}
