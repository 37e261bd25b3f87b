/**
 * The catalog item and the free-text search filter of the home page
 * (`filteredItems` in `Home`).
 */
module Search {
  import opened Strings
  import opened Arrays

  /**
   * One catalog entry, reduced to the fields the page reads. Fields the page
   * never reads (timestamps, popularity, links) are left out.
   */
  datatype Item = Item(id: string, title: string, description: string, tags: seq<string>)

  /** The filter's callback: the query occurs in the lower-cased title, description or some tag. */
  predicate Matches(item: Item, query: string) {
    || Includes(Lower(item.title), query)
    || Includes(Lower(item.description), query)
    || Any(item.tags, TagMatcher(query))
  }

  function TagMatcher(query: string): string -> bool {
    (tag: string) => Includes(Lower(tag), query)
  }

  function Matcher(query: string): Item -> bool {
    (item: Item) => Matches(item, query)
  }

  /** `searchQuery ? items.filter(...) : items`. */
  function SearchFilter(items: seq<Item>, query: string): seq<Item> {
    if query == "" then items else Filter(items, Matcher(query))
  }

  /** The matching rule stated with positions instead of the search loops. */
  ghost predicate OccursIn(s: string, query: string) {
    exists i :: OccursAt(Lower(s), query, i)
  }

  ghost predicate MatchesSpec(item: Item, query: string) {
    || OccursIn(item.title, query)
    || OccursIn(item.description, query)
    || exists t :: 0 <= t < |item.tags| && OccursIn(item.tags[t], query)
  }

  lemma MatchesIff(item: Item, query: string)
    ensures Matches(item, query) <==> MatchesSpec(item, query)
  {
    IncludesIff(Lower(item.title), query);
    IncludesIff(Lower(item.description), query);
    TagsMatchIff(item.tags, query);
  }

  lemma TagsMatchIff(tags: seq<string>, query: string)
    ensures Any(tags, TagMatcher(query)) <==> exists t :: 0 <= t < |tags| && OccursIn(tags[t], query)
  {
    AnyIff(tags, TagMatcher(query));
    forall t | 0 <= t < |tags|
      ensures TagMatcher(query)(tags[t]) <==> OccursIn(tags[t], query)
    {
      IncludesIff(Lower(tags[t]), query);
    }
  }

  /** The empty query matches every item, so even filtering with it would change nothing. */
  lemma EmptyQueryKeepsAll(items: seq<Item>)
    ensures SearchFilter(items, "") == items
    ensures Filter(items, Matcher("")) == items
  {
    forall i | 0 <= i < |items| ensures Matcher("")(items[i]) {
      IncludesEmpty(Lower(items[i].title));
    }
    FilterAllPassIdentity(items, Matcher(""));
  }

  /** An item is in the result exactly when it is in the catalog and the query occurs in one of its fields. */
  lemma SearchFilterMember(items: seq<Item>, query: string, x: Item)
    ensures x in SearchFilter(items, query) <==> x in items && MatchesSpec(x, query)
  {
    EmptyQueryKeepsAll(items);
    FilterMember(items, Matcher(query), x);
    MatchesIff(x, query);
  }

  /** No item is invented or duplicated: each keeps its multiplicity when it matches and is dropped otherwise. */
  lemma SearchFilterCount(items: seq<Item>, query: string, x: Item)
    ensures multiset(SearchFilter(items, query))[x] == if MatchesSpec(x, query) then multiset(items)[x] else 0
  {
    EmptyQueryKeepsAll(items);
    FilterCount(items, Matcher(query), x);
    MatchesIff(x, query);
  }

  /** The result keeps the catalog's order. */
  lemma SearchFilterKeepsOrder(items: seq<Item>, query: string)
    ensures IsSubsequence(SearchFilter(items, query), items)
  {
    EmptyQueryKeepsAll(items);
    FilterIsSubsequence(items, Matcher(query));
  }

  /** Searching the results again with the same query changes nothing. */
  lemma SearchFilterIdempotent(items: seq<Item>, query: string)
    ensures SearchFilter(SearchFilter(items, query), query) == SearchFilter(items, query)
  {
    if query != "" {
      FilterIdempotent(items, Matcher(query));
    }
  }

  /** A tag "Proxy" is found by the query "proxy"; an item whose fields are all too short to hold the query is not. */
  lemma ProxyTagScenario()
    ensures var squid := Item("1", "Squid", "Cache", ["Proxy"]);
            var git := Item("2", "Git", "VCS", ["scm"]);
            SearchFilter([squid, git], "proxy") == [squid]
  {
    var squid := Item("1", "Squid", "Cache", ["Proxy"]);
    var git := Item("2", "Git", "VCS", ["scm"]);
    ProxyTagMatches(squid);
    ShortFieldsDoNotMatch(git, "proxy");
    assert [squid, git][1..] == [git];
    assert Filter([git], Matcher("proxy")) == [];
  }

  lemma ProxyTagMatches(item: Item)
    requires item.tags == ["Proxy"]
    ensures Matches(item, "proxy")
  {
    var lowered := Lower("Proxy");
    forall i | 0 <= i < 5 ensures lowered[i] == "proxy"[i] {
      LowerAt("Proxy", i);
    }
    assert Includes(lowered, "proxy");
    assert TagMatcher("proxy")(item.tags[0]);
  }

  lemma ShortFieldsDoNotMatch(item: Item, query: string)
    requires |item.title| < |query| && |item.description| < |query|
    requires forall t :: 0 <= t < |item.tags| ==> |item.tags[t]| < |query|
    ensures !Matches(item, query)
  {
    IncludesTooLong(Lower(item.title), query);
    IncludesTooLong(Lower(item.description), query);
    AnyIff(item.tags, TagMatcher(query));
    forall t | 0 <= t < |item.tags| ensures !TagMatcher(query)(item.tags[t]) {
      IncludesTooLong(Lower(item.tags[t]), query);
    }
  }
}
