/**
 * The dashboard's demo list: loading the caller's demos from GET /api/demos together with
 * the demos saved locally, the search-and-type filter over them, and logging out.
 */
module Dashboard {
  import opened Wrappers
  import opened Text
  import opened Sequences

  /** The fields of a listed demo the dashboard's logic reads; `kind` is `type`. */
  datatype DemoCard = DemoCard(id: string, title: string, description: string, kind: string, views: nat)

  /** The search box matches the title or the description, ignoring ASCII case. */
  predicate MatchesQuery(d: DemoCard, query: string) {
    Contains(Lower(d.title), Lower(query)) || Contains(Lower(d.description), Lower(query))
  }

  /** The predicate `filteredDemos` applies to each demo. */
  predicate Shown(d: DemoCard, query: string, filter: string) {
    MatchesQuery(d, query) && (filter == "all" || d.kind == filter)
  }

  /** `demos.filter(...)`. */
  function Filtered(demos: seq<DemoCard>, query: string, filter: string): (r: seq<DemoCard>)
    ensures |r| <= |demos|
  {
    if demos == [] then []
    else (if Shown(demos[0], query, filter) then [demos[0]] else []) + Filtered(demos[1..], query, filter)
  }

  /** A demo is listed exactly when it is one of the demos and the filter shows it. */
  lemma {:induction false} FilteredMembers(demos: seq<DemoCard>, query: string, filter: string, d: DemoCard)
    ensures d in Filtered(demos, query, filter) <==> d in demos && Shown(d, query, filter)
  {
    if demos != [] {
      FilteredMembers(demos[1..], query, filter, d);
      assert demos == [demos[0]] + demos[1..];
    }
  }

  /** Filtering a concatenation filters each part. */
  lemma {:induction false} FilteredAppend(a: seq<DemoCard>, b: seq<DemoCard>, query: string, filter: string)
    ensures Filtered(a + b, query, filter) == Filtered(a, query, filter) + Filtered(b, query, filter)
  {
    if a != [] {
      assert (a + b)[0] == a[0] && (a + b)[1..] == a[1..] + b;
      FilteredAppend(a[1..], b, query, filter);
      var head := if Shown(a[0], query, filter) then [a[0]] else [];
      assert Filtered(a + b, query, filter) == head + (Filtered(a[1..], query, filter) + Filtered(b, query, filter));
    } else {
      assert a + b == b;
    }
  }

  /** The filtered list keeps the order of the demos. */
  lemma {:induction false} FilteredIsSubsequence(demos: seq<DemoCard>, query: string, filter: string)
    ensures IsSubsequence(Filtered(demos, query, filter), demos)
  {
    if demos != [] {
      FilteredIsSubsequence(demos[1..], query, filter);
      var rest := Filtered(demos[1..], query, filter);
      if Shown(demos[0], query, filter) {
        assert ([demos[0]] + rest)[1..] == rest;
      } else {
        assert Filtered(demos, query, filter) == rest;
      }
    }
  }

  /** With an empty search and the "all" filter every demo is listed, in order. */
  lemma {:induction false} UnfilteredShowsAll(demos: seq<DemoCard>)
    ensures Filtered(demos, "", "all") == demos
  {
    if demos != [] {
      ContainsEmpty(Lower(demos[0].title));
      UnfilteredShowsAll(demos[1..]);
      assert demos == [demos[0]] + demos[1..];
    }
  }

  /** The type filter alone keeps exactly the demos of that type. */
  lemma {:induction false} TypeFilterOnly(demos: seq<DemoCard>, filter: string, d: DemoCard)
    requires filter != "all"
    ensures d in Filtered(demos, "", filter) <==> d in demos && d.kind == filter
  {
    FilteredMembers(demos, "", filter, d);
    ContainsEmpty(Lower(d.title));
  }

  /** What the GET /api/demos call returned: the list, or the error's `message` if it had one. */
  datatype ApiResult = ApiOk(list: seq<DemoCard>) | ApiFailed(message: Option<string>)

  const NoTokenMessage := "Authentication token not found. Please log in."
  const FetchFailedMessage := "Failed to load demos."

  class DashboardPage {
    var demos: seq<DemoCard>
    var loadingDemos: bool
    var errorLoadingDemos: Option<string>
    var searchQuery: string
    var activeFilter: string
    /** `localStorage.getItem("token")`. */
    var storedToken: Option<string>

    constructor (storedToken: Option<string>)
      ensures demos == [] && loadingDemos && errorLoadingDemos.None?
      ensures searchQuery == "" && activeFilter == "all" && this.storedToken == storedToken
    {
      demos, loadingDemos, errorLoadingDemos := [], true, None;
      searchQuery, activeFilter := "", "all";
      this.storedToken := storedToken;
    }

    /** `filteredDemos`. */
    function Visible(): seq<DemoCard>
      reads this
    {
      Filtered(demos, searchQuery, activeFilter)
    }

    /** A missing or empty token is falsy. */
    predicate HasToken()
      reads this
    {
      storedToken.Some? && storedToken.value != ""
    }

    /**
     * `fetchDemos`, run once on mount. `api` is the outcome of the request that would be sent
     * with the stored token, and `localDemos` the parsed "localDemos" entry.
     */
    method FetchDemos(api: ApiResult, localDemos: seq<DemoCard>)
      modifies this
      ensures !loadingDemos
      ensures storedToken == old(storedToken) && searchQuery == old(searchQuery) && activeFilter == old(activeFilter)
      ensures !old(HasToken()) ==> demos == old(demos) && errorLoadingDemos == Some(NoTokenMessage)
      ensures old(HasToken()) && api.ApiOk? ==>
        demos == api.list + localDemos && errorLoadingDemos == old(errorLoadingDemos)
      ensures old(HasToken()) && api.ApiFailed? ==>
        demos == localDemos
        && errorLoadingDemos ==
          if localDemos != [] then old(errorLoadingDemos)
          else if api.message.Some? && api.message.value != "" then api.message
          else Some(FetchFailedMessage)
    {
      if !HasToken() {
        errorLoadingDemos := Some(NoTokenMessage);
        loadingDemos := false;
        return;
      }
      match api {
        case ApiOk(list) =>
          demos := list + localDemos;
        case ApiFailed(message) =>
          demos := localDemos;
          if |localDemos| == 0 {
            errorLoadingDemos := if message.Some? && message.value != "" then message else Some(FetchFailedMessage);
          }
      }
      loadingDemos := false;
    }

    /** `handleLogout`: the token is removed; moving to /login is navigation. */
    method HandleLogout()
      modifies this
      ensures storedToken.None?
      ensures demos == old(demos) && loadingDemos == old(loadingDemos) && errorLoadingDemos == old(errorLoadingDemos)
      ensures searchQuery == old(searchQuery) && activeFilter == old(activeFilter)
    {
      storedToken := None;
    }
  }
}
