# Home page composition of the developer-tools directory

This project models the request-scoped composition step of the directory
site's home page, the `Home` server component in `app/page.tsx`. It covers
the following:

- **Query normalisation.** The optional `q` URL parameter becomes a
  lower-case search query, `''` when it is absent or empty. The optional
  `item` parameter becomes the selected item id, or nothing.
- **Search filter.** With an empty query the catalog passes through
  unchanged. Otherwise the page keeps, in catalog order, the items whose
  lower-cased title, description or some tag contains the query.
- **Preference defaulting.** Likes and bookmarks start empty. They are read
  from the preference store only for a signed-in user, and each one falls
  back to empty when the row or that column is missing.
- **Section discovery.** A left fold over the localized contents' keys
  pushes one `{title, content}` pair for every key that starts with
  `sectionTitle`. The content is read from `sectionContent` plus the same
  suffix.
- **Group selection.** A non-empty query gives a single
  `Search Results for "<query>"` group. An empty query gives the new,
  trending and all groups, in that order, without the empty ones. Every
  group is handed the same likes, bookmarks, selected id and user id.

The catalog (`fetchItems`), its new and trending subsets, the current user,
the preference store and the localized contents are inputs to the model.
The preference store is a function from user id to an optional row, and
`Home` reports the ids it asked the store for. A contents object is its
keys in `Object.keys` order plus a map from key to value.

Modules: `Wrappers` (an optional value), `Strings` (ASCII `toLowerCase`,
`includes`, `startsWith`, `indexOf`, first-occurrence `replace`), `Arrays`
(`filter` and `some` on sequences), `Search`, `Query`, `Preferences`,
`Sections`, `Groups` and `HomePage`.

A title key without its content key is not skipped: the code pushes the
pair with an `undefined` content (app/page.tsx:62-65).
`Sections.MissingContentScenario` shows such a section with no content.

## Model

| member | source | states |
|---|---|---|
| Query.NormaliseQuery | app/page.tsx:23 | the query is always lower-case; it is `''` exactly when `q` is absent or empty; otherwise it is `q` lower-cased |
| Query.SelectedItemId | app/page.tsx:24 | the selected id is absent exactly when `item` is absent or empty, and otherwise is `item` itself |
| Query.NormaliseQueryIdempotent | app/page.tsx:23 | normalising an already normalised query gives it back |
| Strings.Lower | app/page.tsx:23 | lower-casing keeps the length and leaves no upper-case ASCII letter |
| Strings.LowerAt | app/page.tsx:37-39 | lower-casing works character by character |
| Strings.LowerOfLower | app/page.tsx:23 | a string with no upper-case letter is its own lower-case form |
| Strings.LowerIdempotent | app/page.tsx:23 | lower-casing twice is lower-casing once |
| Strings.IncludesIff | app/page.tsx:37-39 | `includes` holds exactly when the needle occurs at some position of the haystack |
| Strings.IncludesEmpty | app/page.tsx:37 | every string includes the empty string |
| Strings.IncludesTooLong | app/page.tsx:37-39 | a needle longer than the haystack is never included |
| Strings.IndexOf | app/page.tsx:60 | the result is the first position where the pattern occurs, or none when it occurs nowhere |
| Wrappers.Lookup | app/page.tsx:64 | a lookup is present exactly when the key is in the object, and then it is that key's value |
| Arrays.AnyIff | app/page.tsx:39 | `some` holds exactly when some element passes the callback |
| Arrays.FilterIsSubsequence | app/page.tsx:35-40 | `filter` keeps the input's order: the result is a subsequence of the input |
| Arrays.FilterCount | app/page.tsx:35-40 | each value passing the callback occurs as often as in the input; any other value does not occur |
| Arrays.FilterMember | app/page.tsx:35-40 | a value is in the result iff it is in the input and passes |
| Arrays.FilterAllPass | app/page.tsx:35-40 | every element of the result passes the callback |
| Arrays.FilterAllPassIdentity | app/page.tsx:35-40 | when every element passes, `filter` returns its input unchanged |
| Arrays.FilterIdempotent | app/page.tsx:35-40 | filtering twice with the same callback is filtering once |
| Arrays.FilterSnoc | app/page.tsx:56-70 | filtering a sequence extended by one element extends the result by that element if it passes, and by nothing otherwise |
| Search.MatchesIff | app/page.tsx:36-39 | an item matches iff the query occurs at some position of its lower-cased title, description or some tag |
| Search.TagsMatchIff | app/page.tsx:39 | some tag matches iff the query occurs in some lower-cased tag |
| Search.EmptyQueryKeepsAll | app/page.tsx:34-41 | with the empty query the result is the catalog itself; filtering with it would also keep everything |
| Search.SearchFilterMember | app/page.tsx:34-41 | an item is in the result iff it is in the catalog and the query occurs in one of its lower-cased fields |
| Search.SearchFilterCount | app/page.tsx:34-41 | no item is invented or duplicated: a matching item keeps its multiplicity and any other item is dropped |
| Search.SearchFilterKeepsOrder | app/page.tsx:34-41 | the result is a subsequence of the catalog |
| Search.SearchFilterIdempotent | app/page.tsx:34-41 | searching the results again with the same query changes nothing |
| Search.ProxyTagScenario | app/page.tsx:39 | the query "proxy" finds an item tagged "Proxy" and no item whose fields are shorter than the query |
| Search.ProxyTagMatches | app/page.tsx:39 | an item tagged "Proxy" matches "proxy" |
| Search.ShortFieldsDoNotMatch | app/page.tsx:37-39 | an item whose title, description and tags are all shorter than the query does not match |
| Preferences.LoadPreferences | app/page.tsx:47-54 | with no user both lists are empty and the store is never asked; with a user the store is asked once for that id, and each list is the stored column when the row and column are present, and empty otherwise |
| Sections.SectionSuffix | app/page.tsx:60 | replacing the first `sectionTitle` in a title key leaves the part after the prefix |
| Sections.SectionFor | app/page.tsx:58-65 | a section's title is the key's value; its content is the value under `sectionContent` plus the key's suffix, absent when that key is missing |
| Sections.TitleKeysMember | app/page.tsx:58 | a key is a title key of the object iff it is one of its keys and starts with `sectionTitle` |
| Sections.SectionListSnoc | app/page.tsx:56-70 | one reduce step: a title key appends its section, any other key appends nothing |
| Sections.DiscoverSections | app/page.tsx:56-70 | the reduce yields one section per title key, in key order, for every key of the object |
| Sections.SectionsFollowTitleKeys | app/page.tsx:56-70 | there are as many sections as title keys; the title keys are the prefixed keys, in key order; the n-th section's title is the n-th title key's value |
| Sections.SectionCount | app/page.tsx:56-70 | the number of sections is the number of distinct keys starting with `sectionTitle` |
| Sections.DistinctFilter | app/page.tsx:56 | filtering distinct keys leaves distinct keys |
| Sections.DistinctCard | app/page.tsx:56 | a list of distinct keys has as many elements as its set of keys |
| Sections.NumberedSectionsScenario | app/page.tsx:56-70 | titles 1 and 3 with their contents and no title 2 give exactly two sections, 1 then 3 |
| Sections.MissingContentScenario | app/page.tsx:56-70 | a title whose content key is missing still gives a section, with no content |
| Groups.Rendered | app/page.tsx:101-118 | rendering skips the `null` groups and nothing else: as many groups as non-null candidates, and a group is rendered iff it is a non-null candidate |
| Groups.RenderedConcat | app/page.tsx:101-118 | rendering a concatenation renders each part in turn, so the candidates' order is kept |
| Groups.RenderedOne | app/page.tsx:106-117 | one candidate renders as its group, or as nothing when it is `null` |
| Groups.SelectGroups | app/page.tsx:90-118 | every group is handed the same likes, bookmarks, selected id and user id; a non-empty query gives exactly one group titled with the query and holding the filtered items, even when empty; an empty query gives at most three groups, none of them empty |
| Groups.BrowseGroups | app/page.tsx:99-119 | without a query the groups are new, trending and all, in that order, each present iff its list is non-empty |
| Groups.BrowseEndsWithAll | app/page.tsx:104-106 | without a query, a non-empty catalog puts the "all" group, holding the whole catalog, last |
| HomePage.UserId | app/page.tsx:97 | the user id handed to the groups is present iff a user is signed in, and then is that user's id |
| HomePage.Home | app/page.tsx:18-120 | the page's groups are the group selection for the normalised query and the filtered catalog; every group gets the normalised selected id and the user's id; an anonymous visitor gets empty likes and bookmarks in every group and the store is never asked; a signed-in user's likes and bookmarks are the stored columns, or empty when the row or column is missing, and the store is asked once for that user; the sections are the discovered sections |
| HomePage.SearchPage | app/page.tsx:90-98 | with a non-empty `q` the page shows one group, titled with the lower-cased query, holding the catalog's matching items in catalog order, each as often as in the catalog, and no other item |

## Left out

- Fetching the catalog (`fetchItems`, with its incremental regeneration cache) is left out: it is network I/O in a library that is not part of this model. The catalog is an input.
- `getNewItems` and `getTrendingItems` are not part of this model. Their results are inputs, and no recency window or trending order is assumed.
- `getCurrentUser` and `getUserPreferences` are identity and database calls. Only their optional results are modelled: an optional user, and a store function from user id to an optional row.
- `contentsForLanguage` and its language fallback are not part of this model. The contents object is an input.
- The `await` sequencing in `Home` is left out. It orders I/O and adds no logic.
- The JSX markup is left out: `SiteHeader`, `Markdown`, the landing title and hero text, and the section headings. So is `GridView`, which computes the per-item liked and bookmarked flags and is not part of this model.
- The footer and the layout's metadata are presentational and left out.
- Strings.Lower: only ASCII letters are lower-cased, because full Unicode `toLowerCase` (length-changing mappings, locale rules) is not modelled.
- Search.Item carries the fields the page reads (title, description, tags) and keeps `id` as the item's identity; its other fields are left out.
