/**
 * `Home`, the request-scoped composition of the home page. The contents,
 * the catalog, its new and trending subsets, the signed-in user and the
 * preference store are its inputs.
 */
module HomePage {
  import opened Wrappers
  import opened Query
  import opened Search
  import opened Preferences
  import opened Sections
  import opened Groups

  /** What the page renders from: the item groups, what each group is handed, and the sections. */
  datatype Page = Page(groups: seq<ItemSection>, viewer: Viewer, sections: seq<Section>)

  /** `user?.id`. */
  function UserId(user: Option<User>): (r: Option<string>)
    ensures r.Some? <==> user.Some?
    ensures r.Some? ==> r.value == user.value.id
  {
    match user
    case None => None
    case Some(u) => Some(u.id)
  }

  method Home(
    params: SearchParams, contents: Contents,
    items: seq<Item>, newItems: seq<Item>, trendingItems: seq<Item>,
    user: Option<User>, store: string -> Option<PreferenceRow>)
    returns (page: Page, lookups: seq<string>)
    requires contents.Valid()
    ensures var query := NormaliseQuery(params.q);
      page.groups == SelectGroups(query, SearchFilter(items, query), newItems, trendingItems, items, page.viewer)
    ensures page.viewer.selectedItemId == SelectedItemId(params.item)
    ensures page.viewer.userId == UserId(user)
    ensures user.None? ==> lookups == [] && page.viewer.likes == [] && page.viewer.bookmarks == []
    ensures user.None? ==> forall g :: g in page.groups ==> g.userLikes == [] && g.userBookmarks == []
    ensures user.Some? ==> lookups == [user.value.id]
    ensures user.Some? ==> (page.viewer.likes ==
      if store(user.value.id).Some? then store(user.value.id).value.likes.GetOr([]) else [])
    ensures user.Some? ==> (page.viewer.bookmarks ==
      if store(user.value.id).Some? then store(user.value.id).value.bookmarks.GetOr([]) else [])
    ensures page.sections == SectionList(contents, contents.keys)
  {
    var searchQuery := NormaliseQuery(params.q);
    var selectedItemId := SelectedItemId(params.item);
    var filteredItems := SearchFilter(items, searchQuery);
    var userLikes, userBookmarks;
    userLikes, userBookmarks, lookups := LoadPreferences(user, store);
    var sections := DiscoverSections(contents);
    var viewer := Viewer(userLikes, userBookmarks, selectedItemId, UserId(user));
    var groups := SelectGroups(searchQuery, filteredItems, newItems, trendingItems, items, viewer);
    page := Page(groups, viewer, sections);
  }

  /** With a query, the page shows one group holding exactly the matching catalog items, in catalog order. */
  lemma SearchPage(params: SearchParams, items: seq<Item>, newItems: seq<Item>, trendingItems: seq<Item>, page: Page)
    requires params.q.Some? && params.q.value != ""
    requires page.groups == SelectGroups(NormaliseQuery(params.q),
      SearchFilter(items, NormaliseQuery(params.q)), newItems, trendingItems, items, page.viewer)
    ensures |page.groups| == 1
    ensures page.groups[0].title == SearchTitle(Strings.Lower(params.q.value))
    ensures Arrays.IsSubsequence(page.groups[0].items, items)
    ensures forall x :: x in page.groups[0].items <==> x in items && MatchesSpec(x, NormaliseQuery(params.q))
    ensures forall x :: (multiset(page.groups[0].items)[x] ==
      if MatchesSpec(x, NormaliseQuery(params.q)) then multiset(items)[x] else 0)
  {
    var query := NormaliseQuery(params.q);
    SearchFilterKeepsOrder(items, query);
    forall x ensures x in page.groups[0].items <==> x in items && MatchesSpec(x, query) {
      SearchFilterMember(items, query, x);
    }
    forall x ensures multiset(page.groups[0].items)[x] == if MatchesSpec(x, query) then multiset(items)[x] else 0 {
      SearchFilterCount(items, query, x);
    }
  }
}
