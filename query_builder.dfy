/** The GitHub issue-search query string built from a `Filters` record
    (packages/core/src/issues/queryBuilder.ts). */
module QueryBuilder {
  import opened Wrappers
  import opened Strings
  import opened IssueTypes

  /** The base predicate every query carries. */
  const Base := "is:issue is:open"

  /** JavaScript truthiness of an optional string: present and non-empty. */
  predicate Given(o: Option<string>) {
    o.Some? && o.value != ""
  }

  /** The labels to render: none when `labels` is absent. */
  function LabelList(f: Filters): seq<string> {
    f.labels.GetOr([])
  }

  /** The qualifier for one label; a label with a space is quoted. */
  function LabelTerm(name: string): string {
    if ' ' in name then "label:\"" + name + "\"" else "label:" + name
  }

  function LabelTerms(labels: seq<string>): (ts: seq<string>)
    ensures |ts| == |labels|
  {
    seq(|labels|, i requires 0 <= i < |labels| => LabelTerm(labels[i]))
  }

  /** Pieces each preceded by one space and concatenated. */
  function Spaced(ts: seq<string>): string {
    if ts == [] then "" else " " + ts[0] + Spaced(ts[1..])
  }

  /** What queryBuilder.ts appends for the labels: one ` label:...` clause per
      label, concatenated (`labels.map(...).join('')`). */
  function LabelClauses(labels: seq<string>): string {
    Spaced(LabelTerms(labels))
  }

  function KeywordClause(f: Filters): seq<string> {
    if Given(f.keyword) then [f.keyword.value] else []
  }

  function LanguageClause(f: Filters): seq<string> {
    if Given(f.language) then ["language:" + f.language.value] else []
  }

  function UpdatedClause(f: Filters): seq<string> {
    if Given(f.updatedAt) then ["updated:>" + f.updatedAt.value] else []
  }

  /** Reference definition: the clauses of the query in their fixed order
      (keyword, base predicate, language, update date, labels). */
  function Clauses(f: Filters): (cs: seq<string>)
    ensures |cs| >= 1
  {
    KeywordClause(f) + Tail(f)
  }

  /** The clauses from the base predicate on. */
  function Tail(f: Filters): seq<string> {
    [Base] + AfterBase(f)
  }

  /** The clauses after the base predicate. */
  function AfterBase(f: Filters): seq<string> {
    LanguageClause(f) + UpdatedClause(f) + LabelTerms(LabelList(f))
  }

  /** The query: the clauses separated by single spaces. */
  function Query(f: Filters): string {
    Join(Clauses(f), ' ')
  }

  /** `buildQuery`: the accumulator queryBuilder.ts grows clause by clause. */
  method BuildQuery(f: Filters) returns (query: string)
    ensures query == Query(f)
  {
    query := Base;
    if Given(f.keyword) {
      query := f.keyword.value + " " + query;
    }
    ghost var tail := Base;  // what follows the keyword
    assert query == KeywordPart(f) + tail;
    if Given(f.language) {
      query := query + " language:" + f.language.value;
      Associate(KeywordPart(f), tail, " language:", f.language.value);
    }
    tail := tail + LanguagePart(f);
    assert query == KeywordPart(f) + tail;
    if Given(f.updatedAt) {
      query := query + " updated:>" + f.updatedAt.value;
      Associate(KeywordPart(f), tail, " updated:>", f.updatedAt.value);
    }
    tail := tail + UpdatedPart(f);
    assert query == KeywordPart(f) + tail;
    if f.labels.Some? && |f.labels.value| > 0 {
      query := query + LabelClauses(f.labels.value);
      Associate(KeywordPart(f), tail, LabelClauses(f.labels.value), "");
      assert LabelClauses(f.labels.value) + "" == LabelClauses(f.labels.value);
    } else {
      assert LabelTerms(LabelList(f)) == [];
      assert tail + LabelClauses(LabelList(f)) == tail;
    }
    tail := tail + LabelClauses(LabelList(f));
    assert query == KeywordPart(f) + tail;
    assert tail == Rest(f);
    QueryLayout(f);
  }

  // ---------------------------------------------------------------------
  // Properties of the query

  lemma {:induction false} SpacedAppend(a: seq<string>, b: seq<string>)
    ensures Spaced(a + b) == Spaced(a) + Spaced(b)
  {
    if a == [] {
      assert a + b == b;
    } else {
      assert (a + b)[0] == a[0];
      assert (a + b)[1..] == a[1..] + b;
      SpacedAppend(a[1..], b);
      calc {
        Spaced(a + b);
        " " + a[0] + Spaced(a[1..] + b);
        " " + a[0] + (Spaced(a[1..]) + Spaced(b));
        (" " + a[0] + Spaced(a[1..])) + Spaced(b);
      }
    }
  }

  /** Joining more pieces onto a non-empty join appends each with one space. */
  lemma {:induction false} JoinSpaced(cs: seq<string>, ts: seq<string>)
    requires |cs| >= 1
    ensures Join(cs + ts, ' ') == Join(cs, ' ') + Spaced(ts)
    decreases |ts|
  {
    if ts == [] {
      assert cs + ts == cs;
    } else {
      assert cs + ts == (cs + [ts[0]]) + ts[1..];
      calc {
        Join(cs + ts, ' ');
        { JoinSpaced(cs + [ts[0]], ts[1..]); }
        Join(cs + [ts[0]], ' ') + Spaced(ts[1..]);
        { JoinSnoc(cs, ts[0], ' '); }
        Join(cs, ' ') + " " + ts[0] + Spaced(ts[1..]);
        { Associate(Join(cs, ' '), " ", ts[0], Spaced(ts[1..])); }
        Join(cs, ' ') + Spaced(ts);
      }
    }
  }

  /** ` language:<v>` when a language is given, else nothing. */
  function LanguagePart(f: Filters): string {
    if Given(f.language) then " language:" + f.language.value else ""
  }

  /** ` updated:><v>` when an update date is given, else nothing. */
  function UpdatedPart(f: Filters): string {
    if Given(f.updatedAt) then " updated:>" + f.updatedAt.value else ""
  }

  /** `<keyword> ` when a keyword is given, else nothing. */
  function KeywordPart(f: Filters): string {
    if Given(f.keyword) then f.keyword.value + " " else ""
  }

  /** Regrouping four concatenated strings. */
  lemma Associate(a: string, b: string, c: string, d: string)
    ensures a + ((b + c) + d) == a + b + c + d
    ensures a + b + c + d == a + (b + (c + d))
  {
  }

  lemma SpacedSingle(t: string)
    ensures Spaced([t]) == " " + t
  {
    assert [t][1..] == [];
  }

  /** The query text from the base predicate on; it does not depend on the keyword. */
  function Rest(f: Filters): string {
    Base + LanguagePart(f) + UpdatedPart(f) + LabelClauses(LabelList(f))
  }

  /** The query laid out clause by clause, as queryBuilder.ts's accumulator builds
      it: the keyword and one space first, then the base predicate, then
      ` language:<v>`, ` updated:><v>` and the label clauses, each only when
      given. */
  lemma QueryLayout(f: Filters)
    ensures Query(f) == KeywordPart(f) + Rest(f)
  {
    var text := Rest(f);
    AfterKeyword(f);
    if Given(f.keyword) {
      var k := f.keyword.value;
      assert Clauses(f) == [k] + Tail(f);
      assert ([k] + Tail(f))[1..] == Tail(f);
      calc {
        Query(f);
        Join([k] + Tail(f), ' ');
        k + [' '] + Join(Tail(f), ' ');
        (k + " ") + text;
      }
    } else {
      assert Clauses(f) == Tail(f);
      assert KeywordPart(f) + text == text;
    }
  }

  /** Everything from the base predicate on. */
  lemma AfterKeyword(f: Filters)
    ensures Join(Tail(f), ' ') == Base + LanguagePart(f) + UpdatedPart(f) + LabelClauses(LabelList(f))
  {
    var lang, upd, labs := LanguageClause(f), UpdatedClause(f), LabelTerms(LabelList(f));
    calc {
      Join(Tail(f), ' ');
      { JoinSpaced([Base], AfterBase(f)); }
      Join([Base], ' ') + Spaced(lang + upd + labs);
      { SpacedAppend(lang + upd, labs); }
      Base + (Spaced(lang + upd) + Spaced(labs));
      { SpacedAppend(lang, upd); PartsSpaced(f); }
      Base + ((LanguagePart(f) + UpdatedPart(f)) + LabelClauses(LabelList(f)));
      { Associate(Base, LanguagePart(f), UpdatedPart(f), LabelClauses(LabelList(f))); }
      Base + LanguagePart(f) + UpdatedPart(f) + LabelClauses(LabelList(f));
    }
  }

  /** The language and update-date clauses, each preceded by a space. */
  lemma PartsSpaced(f: Filters)
    ensures Spaced(LanguageClause(f)) == LanguagePart(f)
    ensures Spaced(UpdatedClause(f)) == UpdatedPart(f)
  {
    if Given(f.language) { SpacedSingle("language:" + f.language.value); }
    if Given(f.updatedAt) { SpacedSingle("updated:>" + f.updatedAt.value); }
  }

  /** With no keyword, language, update date or labels the query is exactly
      the base predicate. */
  lemma EmptyFiltersQuery(f: Filters)
    requires !Given(f.keyword) && !Given(f.language) && !Given(f.updatedAt)
    requires f.labels.None? || f.labels.value == []
    ensures Query(f) == "is:issue is:open"
  {
    QueryLayout(f);
    assert LabelTerms(LabelList(f)) == [];
  }

  /** A given keyword is placed before the base predicate with one space;
      otherwise the query starts with the base predicate. */
  lemma KeywordFirst(f: Filters)
    ensures Given(f.keyword) ==> Query(f) == f.keyword.value + " " + Query(f.(keyword := None))
    ensures !Given(f.keyword) ==> Base <= Query(f)
  {
    var g := f.(keyword := None);
    QueryLayout(f);
    QueryLayout(g);
    assert Rest(g) == Rest(f);
    assert KeywordPart(g) + Rest(g) == Rest(g);
    if !Given(f.keyword) {
      var rest := LanguagePart(f) + UpdatedPart(f) + LabelClauses(LabelList(f));
      Associate(Base, LanguagePart(f), UpdatedPart(f), LabelClauses(LabelList(f)));
      assert Query(f) == Base + rest;
    }
  }

  /** An empty keyword, language, update date or label list is treated
      exactly as an absent one. */
  lemma EmptyIsAbsent(f: Filters)
    ensures Query(f.(keyword := Some(""))) == Query(f.(keyword := None))
    ensures Query(f.(language := Some(""))) == Query(f.(language := None))
    ensures Query(f.(updatedAt := Some(""))) == Query(f.(updatedAt := None))
    ensures Query(f.(labels := Some([]))) == Query(f.(labels := None))
  {
  }

  /** Each label contributes exactly one clause, in input order: the label
      clauses of a concatenation are the concatenation of the label clauses
      (no deduplication and no limit on their number). */
  lemma {:induction false} LabelClausesAppend(a: seq<string>, b: seq<string>)
    ensures LabelClauses(a + b) == LabelClauses(a) + LabelClauses(b)
  {
    assert LabelTerms(a + b) == LabelTerms(a) + LabelTerms(b);
    SpacedAppend(LabelTerms(a), LabelTerms(b));
  }

  /** A label containing a space renders as `label:"<l>"`, any other as `label:<l>`. */
  lemma SingleLabelClause(l: string)
    ensures ' ' in l ==> LabelClauses([l]) == " label:\"" + l + "\""
    ensures ' ' !in l ==> LabelClauses([l]) == " label:" + l
  {
    var ts := LabelTerms([l]);
    assert ts == [LabelTerm(l)];
    assert Spaced(ts) == " " + LabelTerm(l) by {
      assert ts[1..] == [];
    }
  }

  /** The unit test in queryBuilder.test.ts with an empty label list: only the base predicate. */
  lemma EmptyLabelsExample()
    ensures Query(Filters(None, None, Some([]), None, Some(1))) == "is:issue is:open"
  {
    var f := Filters(None, None, Some([]), None, Some(1));
    QueryLayout(f);
    assert LabelClauses(LabelList(f)) == "" by {
      assert LabelTerms(LabelList(f)) == [];
    }
  }

  // ---------------------------------------------------------------------
  // Reading the query back

  lemma {:induction false} JoinConcat(a: seq<string>, b: seq<string>, c: char)
    requires |a| >= 1 && |b| >= 1
    ensures Join(a + b, c) == Join(a, c) + [c] + Join(b, c)
    decreases |a|
  {
    if |a| == 1 {
      assert (a + b)[1..] == b;
    } else {
      assert (a + b)[1..] == a[1..] + b;
      JoinConcat(a[1..], b, c);
    }
  }

  /** Replacing a non-empty middle run of pieces by another with the same join
      leaves the whole join unchanged. */
  lemma JoinMiddle(a: seq<string>, m: seq<string>, m': seq<string>, b: seq<string>, c: char)
    requires |m| >= 1 && |m'| >= 1 && Join(m, c) == Join(m', c)
    ensures Join(a + m + b, c) == Join(a + m' + b, c)
  {
    if b != [] {
      JoinConcat(a + m, b, c);
      JoinConcat(a + m', b, c);
    }
    if a != [] {
      JoinConcat(a, m, c);
      JoinConcat(a, m', c);
    }
    assert a + m + [] == a + m;
    assert a + m' + [] == a + m';
    assert [] + m == m && [] + m' == m';
  }

  /** The space-separated words of the query when nothing given contains a space. */
  function Tokens(f: Filters): seq<string> {
    KeywordClause(f) + ["is:issue", "is:open"] + AfterBase(f)
  }

  /** The words of `Tokens` are space-free when the given values are. */
  lemma TokensSpaceFree(f: Filters)
    requires f.keyword.Some? ==> ' ' !in f.keyword.value
    requires f.language.Some? ==> ' ' !in f.language.value
    requires f.updatedAt.Some? ==> ' ' !in f.updatedAt.value
    requires forall i :: 0 <= i < |LabelList(f)| ==> ' ' !in LabelList(f)[i]
    ensures forall i :: 0 <= i < |Tokens(f)| ==> ' ' !in Tokens(f)[i]
  {
    var ts := Tokens(f);
    var front := KeywordClause(f) + ["is:issue", "is:open"];
    var mid := LanguageClause(f) + UpdatedClause(f);
    var labs := LabelTerms(LabelList(f));
    forall i | 0 <= i < |ts| ensures ' ' !in ts[i] {
      if i >= |front| + |mid| {
        assert ts[i] == AfterBase(f)[i - |front|] == labs[i - |front| - |mid|];
      } else if i >= |front| {
        assert ts[i] == mid[i - |front|];
      }
    }
  }

  /** When the keyword, language, update date and labels contain no space, the
      query splits on spaces back into exactly its qualifiers, in order, one
      `label:<l>` per label. */
  lemma QueryTokens(f: Filters)
    requires f.keyword.Some? ==> ' ' !in f.keyword.value
    requires f.language.Some? ==> ' ' !in f.language.value
    requires f.updatedAt.Some? ==> ' ' !in f.updatedAt.value
    requires forall i :: 0 <= i < |LabelList(f)| ==> ' ' !in LabelList(f)[i]
    ensures Split(Query(f), ' ') == Tokens(f)
  {
    QueryIsTokens(f);
    TokensSpaceFree(f);
    SplitJoin(Tokens(f), ' ');
  }

  /** The base predicate is the two words `is:issue` and `is:open`. */
  lemma BaseWords()
    ensures Join(["is:issue", "is:open"], ' ') == Base
  {
  }

  /** The query is its words joined by single spaces. */
  lemma QueryIsTokens(f: Filters)
    ensures Query(f) == Join(Tokens(f), ' ')
  {
    var kw, rest := KeywordClause(f), AfterBase(f);
    ClausesAroundBase(f);
    BaseWords();
    JoinMiddle(kw, [Base], ["is:issue", "is:open"], rest, ' ');
  }

  lemma ClausesAroundBase(f: Filters)
    ensures Clauses(f) == KeywordClause(f) + [Base] + AfterBase(f)
  {
  }

  /** The unit test in queryBuilder.test.ts with a language alone (at any page). */
  lemma LanguageExample(f: Filters)
    requires f.keyword.None? && f.language == Some("typescript") && f.updatedAt.None?
    requires f.labels == Some([])
    ensures Split(Query(f), ' ') == ["is:issue", "is:open", "language:typescript"]
  {
    assert LabelTerms(LabelList(f)) == [];
    assert KeywordClause(f) == [] && UpdatedClause(f) == [];
    assert LanguageClause(f) == ["language:typescript"] by {
      var v := f.language.value;
      assert v[0] == 't';
      assert "language:" + v == "language:typescript";
    }
    assert Tokens(f) == ["is:issue", "is:open"] + ["language:typescript"];
    QueryTokens(f);
  }

  /** The unit test in queryBuilder.test.ts with an update date alone (at any page). */
  lemma UpdatedExample(f: Filters)
    requires f.keyword.None? && f.language.None? && f.updatedAt == Some("2024-01-01")
    requires f.labels == Some([])
    ensures Split(Query(f), ' ') == ["is:issue", "is:open", "updated:>2024-01-01"]
  {
    assert LabelTerms(LabelList(f)) == [];
    assert KeywordClause(f) == [] && LanguageClause(f) == [];
    assert UpdatedClause(f) == ["updated:>2024-01-01"] by {
      var v := f.updatedAt.value;
      assert v[0] == '2';
      assert "updated:>" + v == "updated:>2024-01-01";
    }
    assert Tokens(f) == ["is:issue", "is:open"] + ["updated:>2024-01-01"];
    QueryTokens(f);
  }

  /** Two labels give two unquoted clauses, in order. */
  lemma TwoLabelsExample(f: Filters)
    requires f.keyword.None? && f.language.None? && f.updatedAt.None?
    requires f.labels == Some(["bug", "enhancement"])
    ensures Split(Query(f), ' ') == ["is:issue", "is:open", "label:bug", "label:enhancement"]
  {
    var ls := LabelList(f);
    assert LabelTerm(ls[0]) == "label:bug";
    assert LabelTerm(ls[1]) == "label:enhancement";
    assert LabelTerms(ls) == ["label:bug", "label:enhancement"];
    assert KeywordClause(f) == [] && LanguageClause(f) == [] && UpdatedClause(f) == [];
    assert Tokens(f) == ["is:issue", "is:open"] + ["label:bug", "label:enhancement"];
    QueryTokens(f);
  }

  /** All qualifiers together, in their fixed order. */
  lemma CombinedExample(f: Filters)
    requires f.keyword.None? && f.language == Some("javascript")
    requires f.updatedAt == Some("2024-01-01") && f.labels == Some(["bug"])
    ensures Split(Query(f), ' ')
         == ["is:issue", "is:open", "language:javascript", "updated:>2024-01-01", "label:bug"]
  {
    var ls := LabelList(f);
    assert LabelTerm(ls[0]) == "label:bug";
    assert LabelTerms(ls) == ["label:bug"];
    assert KeywordClause(f) == [];
    assert LanguageClause(f) == ["language:javascript"] by {
      var v := f.language.value;
      assert v[0] == 'j';
      assert "language:" + v == "language:javascript";
    }
    assert UpdatedClause(f) == ["updated:>2024-01-01"] by {
      var v := f.updatedAt.value;
      assert v[0] == '2';
      assert "updated:>" + v == "updated:>2024-01-01";
    }
    assert Tokens(f)
        == ["is:issue", "is:open"] + ["language:javascript"] + ["updated:>2024-01-01"] + ["label:bug"];
    QueryTokens(f);
  }

  /** A multi-word label is quoted, and a keyword leads: the query is the
      keyword, the base predicate and `label:"good first issue"`, space-separated. */
  lemma QuotedLabelExample(f: Filters)
    requires f.keyword == Some("parser") && f.language.None? && f.updatedAt.None?
    requires f.labels == Some(["good first issue"])
    ensures Tokens(f) == ["parser", "is:issue", "is:open", "label:\"good first issue\""]
    ensures Query(f) == Join(Tokens(f), ' ')
  {
    var ls := LabelList(f);
    assert ls[0][4] == ' ';
    assert LabelTerm(ls[0]) == "label:\"good first issue\"";
    assert LabelTerms(ls) == ["label:\"good first issue\""];
    assert KeywordClause(f) == ["parser"];
    assert LanguageClause(f) == [] && UpdatedClause(f) == [];
    assert Tokens(f) == ["parser"] + ["is:issue", "is:open"] + ["label:\"good first issue\""];
    QueryIsTokens(f);
  }
}
