/**
 * Which item groups the home page shows: one "Search Results" group for a
 * non-empty query, otherwise the non-empty ones of new, trending and all.
 */
module Groups {
  import opened Wrappers
  import opened Search

  const NewTitle: string := "New Developer Tools & Resources"
  const TrendingTitle: string := "Trending Development Tools"
  const AllTitle: string := "Explore All Coding & Development Resources"

  /** `Search Results for "${searchQuery}"`. */
  function SearchTitle(query: string): string {
    "Search Results for \"" + query + "\""
  }

  /** What `Home` hands every group besides its title and items. */
  datatype Viewer = Viewer(
    likes: seq<string>,
    bookmarks: seq<string>,
    selectedItemId: Option<string>,
    userId: Option<string>)

  /** The props of one `ItemSection`. */
  datatype ItemSection = ItemSection(
    title: string,
    items: seq<Item>,
    userLikes: seq<string>,
    userBookmarks: seq<string>,
    selectedItemId: Option<string>,
    userId: Option<string>)

  function MakeSection(title: string, items: seq<Item>, v: Viewer): ItemSection {
    ItemSection(title, items, v.likes, v.bookmarks, v.selectedItemId, v.userId)
  }

  /** The `map` callback over the three browse groups: `null` for an empty list. */
  function Candidate(title: string, items: seq<Item>, v: Viewer): Option<ItemSection> {
    if |items| == 0 then None else Some(MakeSection(title, items, v))
  }

  /** Rendering a list of elements skips the `null`s and keeps the rest in order. */
  function Rendered(s: seq<Option<ItemSection>>): (r: seq<ItemSection>)
    ensures |r| == |s| - multiset(s)[None]
    ensures forall g :: g in r <==> Some(g) in s
  {
    if s == [] then []
    else
      assert s == [s[0]] + s[1..];
      (if s[0].Some? then [s[0].value] else []) + Rendered(s[1..])
  }

  /** Rendering a concatenation renders each part in turn, so the candidates' order is kept. */
  lemma {:induction false} RenderedConcat(a: seq<Option<ItemSection>>, b: seq<Option<ItemSection>>)
    ensures Rendered(a + b) == Rendered(a) + Rendered(b)
  {
    if a != [] {
      RenderedConcat(a[1..], b);
      assert (a + b)[0] == a[0] && (a + b)[1..] == a[1..] + b;
    } else {
      assert a + b == b;
    }
  }

  /** A single candidate renders as its group, or as nothing when it is `null`. */
  lemma RenderedOne(o: Option<ItemSection>)
    ensures Rendered([o]) == if o.Some? then [o.value] else []
  {
    assert [o][1..] == [];
  }

  /** The groups `Home` renders for a normalised query. */
  function SelectGroups(
    query: string, filtered: seq<Item>,
    newItems: seq<Item>, trendingItems: seq<Item>, allItems: seq<Item>,
    v: Viewer): (r: seq<ItemSection>)
    ensures forall g :: g in r ==>
      && g.userLikes == v.likes && g.userBookmarks == v.bookmarks
      && g.selectedItemId == v.selectedItemId && g.userId == v.userId
    ensures query != "" ==> |r| == 1 && r[0].title == SearchTitle(query) && r[0].items == filtered
    ensures query == "" ==> |r| <= 3 && forall g :: g in r ==> |g.items| > 0
  {
    if query != "" then
      [MakeSection(SearchTitle(query), filtered, v)]
    else
      Rendered([
        Candidate(NewTitle, newItems, v),
        Candidate(TrendingTitle, trendingItems, v),
        Candidate(AllTitle, allItems, v)])
  }

  function GroupIf(title: string, items: seq<Item>, v: Viewer): seq<ItemSection> {
    if |items| > 0 then [MakeSection(title, items, v)] else []
  }

  /** Without a query: new, trending and all, in that order, each present iff its list is non-empty. */
  lemma BrowseGroups(
    filtered: seq<Item>, newItems: seq<Item>, trendingItems: seq<Item>, allItems: seq<Item>, v: Viewer)
    ensures SelectGroups("", filtered, newItems, trendingItems, allItems, v)
      == GroupIf(NewTitle, newItems, v) + GroupIf(TrendingTitle, trendingItems, v) + GroupIf(AllTitle, allItems, v)
  {
    var s := [
      Candidate(NewTitle, newItems, v),
      Candidate(TrendingTitle, trendingItems, v),
      Candidate(AllTitle, allItems, v)];
    assert s == [s[0]] + [s[1]] + [s[2]];
    RenderedConcat([s[0]] + [s[1]], [s[2]]);
    RenderedConcat([s[0]], [s[1]]);
    RenderedOne(s[0]);
    RenderedOne(s[1]);
    RenderedOne(s[2]);
  }

  /** Without a query, a non-empty catalog always ends the page with the "all" group holding it. */
  lemma BrowseEndsWithAll(
    filtered: seq<Item>, newItems: seq<Item>, trendingItems: seq<Item>, allItems: seq<Item>, v: Viewer)
    requires |allItems| > 0
    ensures var r := SelectGroups("", filtered, newItems, trendingItems, allItems, v);
      |r| > 0 && r[|r| - 1] == MakeSection(AllTitle, allItems, v)
  {
    BrowseGroups(filtered, newItems, trendingItems, allItems, v);
  }
}
