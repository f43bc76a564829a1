# Discount filter block: a verified model

This project models the logic of the `discount-filter` block, a page region that
shows a filterable grid of promotional deal cards. The block reads authored
category icons from its markup, fetches a feed of deals, derives a category list
from the feed, and renders a filter bar plus a grid restricted to the active
category. The active filter is mirrored into the `filter` parameter of the page URL.

The model covers:

- **Category derivation** (`generateCategories`). The "all" entry comes first. After it
  comes one entry per distinct truthy `categoryId`, in first-seen order, labelled
  from the first deal with that id. Each icon is looked up in the authored icon map
  under the category id.
- **Authored icon map** (`parseNodeListToJSON`). Each row's trimmed paragraph text is a
  key and its image `src` is the value; a later row with the same key wins.
- **URL synchronisation**. `getInitialFilter` reads `filter`, lower-cases it and accepts
  it only when a category has exactly that id. `setFilterInUrl` sets the parameter for
  a truthy id other than "all" and deletes it otherwise. Round trips are proved.
- **Grid controller** (`DealsFilter`). It is a class with the component's state fields.
  `setActiveFilter` is a method that also rewrites the URL. `getVisibleDeals` and the
  three-way `renderGrid` choice are pure functions of the state.
- **Filter bar** (`FilterBar`). It has one item per category, and an item is active
  exactly when its id equals the active filter.
- **Decorator** (`decorate`). On a successful feed it mounts the derived categories and
  the deals. On failure it mounts the six static categories and no deals.

Modules, one per file: `Wrappers` (Option, Result), `Seqs` (order-preserving
filter), `JsText` (truthiness, `toLowerCase`, `trim`), `Deals` (records and the static
category list), `CategoryResolver`, `FilterUrl`, `DealsGrid`, `Decorate`.

The browser URL is a `PageLocation` object. Its `search` field is the query as a list
of (name, value) pairs, or `None` when the URL cannot be read at all. Its `writable`
field is false when replacing the history entry throws. The source catches both
exceptions: reading then falls back to "all", and writing leaves the URL as it was. The feed is a `Result` input. The module-level icon
map is a parameter (`shared`) of `Decorate`.

Several behaviours of the code differ from what a reader of the block would expect.
The model follows the code in each case:

- The icon rows are stored under their label text (discount-filter.js:163), but
  icons are looked up under the category id (:185). A row authored for a category's
  label therefore never reaches that category. `Decorate.IconRowsAreMatchedById`
  shows a row labelled "Apparel & Footwear" leaving the category "apparel-footwear"
  without an icon.
- A category without an icon gets the image source "undefined" (:79), where an empty
  source is evidently intended. `DealsGrid.FilterBar` models the code as written, and
  `DealsGrid.IntendedFilterBar` the intended bar (see Findings).
- `setActiveFilter` (:107-110) does not check that the new id is "all" or a listed
  id. The invariant `FilterIsKnown` holds after construction and after a filter-bar
  click (`SelectItem`), not after an arbitrary `SetActiveFilter`.
- A missing or empty `filter` parameter is looked up as the empty string among the
  ids (:21-23), so it would select "" if a category had the empty id. Neither derived
  nor static lists have one (`CategoryIdsDistinct`, `StaticCategoriesShape`), and
  `MissingFilterSelectsAll` states the condition.
- `decorate` never passes a `loading` property, so the controller it mounts is never
  loading. The skeleton mode is reachable only through the constructor's properties.

## Model

| member | source | states |
|---|---|---|
| `Seqs.Filter` | blocks/discount-filter/discount-filter.js:115 | the result is a subsequence of the input, every kept element satisfies the predicate, and every satisfying element is kept as often as it occurs |
| `JsText.ToLower` | blocks/discount-filter/discount-filter.js:21 | same length, no upper-case letter remains, other characters are unchanged, and each of A-Z becomes its lower-case letter |
| `JsText.LowercaseIsFixed` | blocks/discount-filter/discount-filter.js:21 | a string without upper-case letters is unchanged by lower-casing |
| `JsText.TrimIsSlice` | blocks/discount-filter/discount-filter.js:163 | `trim` yields a slice of the input with only white space removed before and after it, and the result neither starts nor ends with white space |
| `Deals.StaticCategoriesShape` | blocks/discount-filter/discount-filter.js:8-15 | the fallback list has six entries, starts with "all"/"All Deals", has distinct non-empty ids and no icons |
| `Deals.StaticIdsAreLowercase` | blocks/discount-filter/discount-filter.js:8-15 | no static id contains an upper-case letter, so each can be selected through the lower-cased `filter` parameter |
| `CategoryResolver.CategoriesOf` | blocks/discount-filter/discount-filter.js:174-191 | the derived list is never empty, holds at most one entry per deal plus "all", and starts with id "all", label "All Deals" and icon `icons.all` |
| `CategoryResolver.CategoryIdsMatchDeals` | blocks/discount-filter/discount-filter.js:183-188 | an id is listed exactly when it is "all" or some deal carries it as a truthy category id, so deals with a falsy id contribute nothing |
| `CategoryResolver.CategoryIdsDistinct` | blocks/discount-filter/discount-filter.js:183-188 | the listed ids are pairwise distinct and non-empty |
| `CategoryResolver.CategoriesFollowFirstCarriers` | blocks/discount-filter/discount-filter.js:183-188 | each entry after "all" carries the id and label of the first deal with that id and the icon found under that id; entries appear in the order of those first deals |
| `CategoryResolver.CategoriesOfStep` | blocks/discount-filter/discount-filter.js:184-186 | one more deal appends its entry exactly when its id is truthy and not yet listed, and otherwise changes nothing |
| `CategoryResolver.GenerateCategories` | blocks/discount-filter/discount-filter.js:174-191 | the push-in-a-loop derivation returns exactly the derived list |
| `CategoryResolver.ParseIconEntries` | blocks/discount-filter/discount-filter.js:160-171 | the loop leaves the map that storing every (trimmed label, src) row in order gives |
| `CategoryResolver.StoreAllKeys` | blocks/discount-filter/discount-filter.js:169 | after storing, a key is present exactly when it was before or some row has it |
| `CategoryResolver.StoreAllLastWins` | blocks/discount-filter/discount-filter.js:161-170 | a key holds the src of the last row that has it |
| `CategoryResolver.StoreAllKeepsOthers` | blocks/discount-filter/discount-filter.js:169 | a key no row has keeps its earlier value |
| `FilterUrl.GetParam` | blocks/discount-filter/discount-filter.js:20-21 | `get` is absent exactly when no pair has the name, and otherwise is the value of the first pair with that name |
| `FilterUrl.GetParamIsFirstNamed` | blocks/discount-filter/discount-filter.js:21 | `get` returns the first of the pairs the name filter keeps |
| `FilterUrl.ReplaceFirstEffect` | blocks/discount-filter/discount-filter.js:32 | `set` on a present name leaves exactly one pair with the new value and the other names untouched |
| `FilterUrl.SyncedQueryFilterPairs` | blocks/discount-filter/discount-filter.js:31-35 | after syncing, the query holds exactly one `filter` pair with value id for a truthy id other than "all", and none otherwise |
| `FilterUrl.SyncedQueryKeepsOtherParams` | blocks/discount-filter/discount-filter.js:31-35 | syncing leaves every other parameter as it was, in order |
| `FilterUrl.SetFilterInUrl` | blocks/discount-filter/discount-filter.js:28-40 | the page query becomes the synced query when the URL can be read and the history replaced; otherwise it stays as it was |
| `FilterUrl.FindById` | blocks/discount-filter/discount-filter.js:22 | `find` succeeds exactly when some category has the id, and returns one with that id |
| `FilterUrl.InitialFilter` | blocks/discount-filter/discount-filter.js:18-27 | the result is the lower-cased `filter` value when a category has exactly that id, and "all" otherwise, including when the URL is unavailable |
| `FilterUrl.MissingFilterSelectsAll` | blocks/discount-filter/discount-filter.js:21-23 | a missing or empty parameter selects "all" when no category has the empty id |
| `FilterUrl.FilterUrlRoundTrip` | blocks/discount-filter/discount-filter.js:18-35 | reading the URL back after writing a listed lower-case id gives that id, whatever other parameters the query holds |
| `DealsGrid.VisibleDeals` | blocks/discount-filter/discount-filter.js:112-116 | with "all" the deals unchanged; otherwise the order-preserving subsequence of exactly the deals whose category id equals the filter, each kept as often as it occurs |
| `DealsGrid.RenderGrid` | blocks/discount-filter/discount-filter.js:118-140 | loading yields six skeletons indexed 0-5; otherwise an empty visible list yields the empty message, and a non-empty one yields the in-order cards of exactly its categorized deals |
| `DealsGrid.UncategorizedOnlyGridHasNoCards` | blocks/discount-filter/discount-filter.js:128-137 | emptiness is judged before uncategorized deals are skipped, so the card mode can hold no card |
| `DealsGrid.TemplateIconSource` | blocks/discount-filter/discount-filter.js:79 | as written, the image source is the icon when there is one, and it is "" only for an icon that is itself empty |
| `DealsGrid.MissingIconBecomesUndefined` | blocks/discount-filter/discount-filter.js:79 | as written, a missing icon yields the image source "undefined", not "" |
| `DealsGrid.IconSource` | blocks/discount-filter/discount-filter.js:79 | the intended image source is "" exactly when the icon is missing or empty, and the icon otherwise |
| `DealsGrid.FilterBar` | blocks/discount-filter/discount-filter.js:74-92 | one item per category, in order, with its id, its label and the image source as written ("undefined" for a missing icon); an item is active exactly when its id equals the active filter |
| `DealsGrid.IntendedFilterBar` | blocks/discount-filter/discount-filter.js:74-92 | the intended bar: the same items, with "" as the image source of a category without an icon |
| `DealsGrid.FilterBarsDifferOnMissingIcons` | blocks/discount-filter/discount-filter.js:77-79 | the written and intended bars agree on ids, labels and the active state, and differ exactly on the categories without an icon |
| `DealsGrid.StaticFilterBarShowsUndefined` | blocks/discount-filter/discount-filter.js:79 | on the static fallback list every written item shows the image "undefined", where the intended bar shows none |
| `DealsGrid.AtMostOneActiveItem` | blocks/discount-filter/discount-filter.js:77-83 | with distinct ids at most one item is active, and one is exactly when the filter is a listed id |
| `DealsGrid.TitleOf` | blocks/discount-filter/discount-filter.js:103 | the heading is the authored title when that is non-empty, and "Narrow Your Search Default Title" otherwise |
| `DealsGrid.DealsFilter.constructor` | blocks/discount-filter/discount-filter.js:95-105 | missing properties default to not loading, no categories, no deals and the default title; the active filter is the one read from the URL, so it is "all" or a listed id |
| `DealsGrid.DealsFilter.SetActiveFilter` | blocks/discount-filter/discount-filter.js:107-110 | the active filter becomes the given id unchecked, the URL is synced, and loading, categories, deals and title are unchanged |
| `DealsGrid.DealsFilter.SelectItem` | blocks/discount-filter/discount-filter.js:83 | clicking a filter item selects that category's id, which keeps the filter "all" or a listed id |
| `Decorate.Decorate` | blocks/discount-filter/discount-filter.js:194-213 | a successful feed mounts the derived categories and the feed's deals; a failure mounts the static list and no deals; loading is never passed |
| `Decorate.MountedCategoriesAreWellFormed` | blocks/discount-filter/discount-filter.js:203-212 | whatever the feed does, the mounted list starts with "all" and has distinct non-empty ids, and the grid is not loading |
| `Decorate.FeedFailureShowsEmptyGrid` | blocks/discount-filter/discount-filter.js:209-211 | on a feed failure the six static categories are shown and the grid shows the empty message for any filter |
| `Decorate.IconRowsAreMatchedById` | blocks/discount-filter/discount-filter.js:160-188 | a one-deal feed with icons authored under "all" and under the category's label mounts "all" with its icon, an icon-less category, and one card |
| `Decorate.ReloadRestoresFilter` | blocks/discount-filter/discount-filter.js:95-110 | selecting a listed lower-case id and mounting again on the same URL restores that filter when the history could be replaced, and otherwise gives the filter the URL held before |

## Findings

| source | as written | input that shows it | evidently intended | confidence | as-written member | corrected member |
|---|---|---|---|---|---|---|
| blocks/discount-filter/discount-filter.js:79 | `${cat.icon}` \|\| '' turns a missing icon into the truthy text "undefined", so the `\|\| ''` fallback never applies | any category without an icon, such as every entry of the static fallback list | an empty image source for a category without an icon | high, not executed | `DealsGrid.FilterBar` | `DealsGrid.IntendedFilterBar` |

## Left out

- Preact/htm markup, CSS classes, `DealCard` and `DealSkeleton` HTML, and the unsanitized `dangerouslySetInnerHTML` description. These are view rendering through a foreign library; only the render mode and the filter-bar items are modelled.
- `fetch`, `res.json()`, `console.error` and the `async` sequencing of `decorate`. These are network I/O; the feed is a `Result` input. A feed without a `data` array throws inside the same `try`, so it is one of the failure outcomes.
- URL parsing and serialisation, `window.location` and `history.replaceState`. These are browser APIs. The query is its list of pairs, and the model takes serialising and re-parsing that list to give the same list.
- DOM traversal, `readBlockConfig` and the authoring-origin check that decides whether to clear the markup. These are plumbing; the authored rows are a list of (label text, src) inputs. A row without a paragraph or an image, which throws or stores `null`, is not modelled.
- The commented-out `htm` import. This is a packaging defect, not logic.
- The icon map shared by every block instance at module level. It is threaded explicitly as `shared`; interleaving between instances is not modelled.
- Preact's batched `setState` and re-rendering. `SetActiveFilter` updates the state at once.
- JsText.ToLower: maps only A-Z. Unicode case mapping, including mappings that change the length, is not modelled. As a result the round trip requires ids without A-Z, not ids fixed by full Unicode lower-casing.
- Deals.Lookup: keys inherited from `Object.prototype` (such as "constructor") are not found. In JavaScript they would be.
- CategoryResolver.StoreAll: a row whose trimmed label is "__proto__" is stored like any other. In JavaScript, assigning a string under that key (:169) stores nothing.
- Strings are sequences of Unicode scalar values. JavaScript strings are UTF-16 code units.
- A `categoryId` that is neither a string nor missing (a number, `null`) is not modelled.
