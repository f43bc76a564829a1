/** The deals grid controller (`DealsFilter`) and the filter bar it renders. */
module DealsGrid {
  import opened Wrappers
  import opened Seqs
  import opened JsText
  import opened Deals
  import opened FilterUrl

  // ---------- getVisibleDeals ----------

  function InCategory(filterId: string): Deal -> bool {
    (d: Deal) => d.categoryId == Some(filterId)
  }

  /** `getVisibleDeals`: all deals under "all"; otherwise, in feed order, exactly the
      deals whose category id equals the active filter, each as often as in the feed. */
  function VisibleDeals(deals: seq<Deal>, activeFilter: string): (r: seq<Deal>)
    ensures activeFilter == AllId ==> r == deals
    ensures IsSubsequence(r, deals)
    ensures activeFilter != AllId ==> forall i :: 0 <= i < |r| ==> r[i].categoryId == Some(activeFilter)
    ensures activeFilter != AllId ==>
      forall d: Deal | d.categoryId == Some(activeFilter) :: multiset(r)[d] == multiset(deals)[d]
  {
    if activeFilter == AllId then
      SubsequenceOfItself(deals);
      deals
    else Filter(deals, InCategory(activeFilter))
  }

  // ---------- renderGrid ----------

  /** What the grid shows: skeleton placeholders keyed by index, the empty-state
      message, or one card per deal. */
  datatype GridView = Skeletons(indices: seq<nat>) | EmptyMessage | Cards(cards: seq<Deal>)

  const SkeletonCount := 6

  /** `renderGrid`: while loading, six skeletons indexed 0 to 5 whatever the deals;
      else the empty message when no deal is visible; else a card for each visible
      deal with a truthy category id, in order (possibly none at all, since emptiness
      is judged before uncategorized deals are skipped). */
  function RenderGrid(isLoading: bool, deals: seq<Deal>, activeFilter: string): (g: GridView)
    ensures isLoading ==>
      && g.Skeletons? && |g.indices| == SkeletonCount
      && forall i :: 0 <= i < |g.indices| ==> g.indices[i] == i
    ensures !isLoading && VisibleDeals(deals, activeFilter) == [] ==> g == EmptyMessage
    ensures !isLoading && VisibleDeals(deals, activeFilter) != [] ==>
      var visible := VisibleDeals(deals, activeFilter);
      && g.Cards?
      && IsSubsequence(g.cards, visible)
      && (forall i :: 0 <= i < |g.cards| ==> Categorized(g.cards[i]))
      && (forall d: Deal | Categorized(d) :: multiset(g.cards)[d] == multiset(visible)[d])
  {
    var items := VisibleDeals(deals, activeFilter);
    if isLoading then Skeletons(seq(SkeletonCount, i requires 0 <= i < SkeletonCount => i))
    else if items == [] then EmptyMessage
    else Cards(Filter(items, Categorized))
  }

  /** A feed whose only visible deal has no category shows neither the empty message
      nor any card. */
  lemma UncategorizedOnlyGridHasNoCards(d: Deal)
    requires !Categorized(d)
    ensures RenderGrid(false, [d], AllId) == Cards([])
  {
    FilterDropsAll([d], Categorized);
  }

  // ---------- FilterBar ----------

  /** One clickable filter item: the id it reports when clicked, its label, its
      image source and whether it carries the active state. */
  datatype FilterItem = FilterItem(id: string, labelText: string, imageSrc: string, isActive: bool)

  /** The image source as the source writes it, `${cat.icon}` || '': a template
      literal turns a missing icon into the text "undefined", which is truthy, so the
      fallback never applies. Only an icon that is itself empty gives "". */
  function TemplateIconSource(icon: Option<string>): (r: string)
    ensures r == "" <==> icon == Some("")
    ensures icon.Some? ==> r == icon.value
  {
    var text := match icon case Some(s) => s case None => "undefined";
    if text != "" then text else ""
  }

  /** A missing icon yields the image source "undefined" rather than "". */
  lemma MissingIconBecomesUndefined()
    ensures TemplateIconSource(None) == "undefined"
    ensures TemplateIconSource(None) != IconSource(None)
  {
  }

  /** The image source as intended: the icon when there is one, else "". */
  function IconSource(icon: Option<string>): (r: string)
    ensures r == "" <==> icon.None? || icon.value == ""
    ensures icon.Some? ==> r == icon.value
  {
    icon.GetOr("")
  }

  /** The item for one category, given the image source it shows. */
  function ItemFor(cat: Category, activeFilter: string, imageSrc: string): FilterItem {
    FilterItem(cat.id, cat.labelText, imageSrc, cat.id == activeFilter)
  }

  /** `FilterBar`, as written: one item per category, in order, carrying that
      category's id and label and the template's image source; an item is active
      exactly when its id equals the active filter. */
  function FilterBar(cats: seq<Category>, activeFilter: string): (items: seq<FilterItem>)
    ensures |items| == |cats|
    ensures forall k :: 0 <= k < |cats| ==>
      && items[k].id == cats[k].id && items[k].labelText == cats[k].labelText
      && items[k].imageSrc == TemplateIconSource(cats[k].icon)
      && (items[k].isActive <==> cats[k].id == activeFilter)
  {
    seq(|cats|, k requires 0 <= k < |cats| => ItemFor(cats[k], activeFilter, TemplateIconSource(cats[k].icon)))
  }

  /** The filter bar as intended: the same items, with "" as the image source of a
      category without an icon. */
  function IntendedFilterBar(cats: seq<Category>, activeFilter: string): (items: seq<FilterItem>)
    ensures |items| == |cats|
    ensures forall k :: 0 <= k < |cats| ==>
      && items[k].id == cats[k].id && items[k].labelText == cats[k].labelText
      && items[k].imageSrc == IconSource(cats[k].icon)
      && (items[k].isActive <==> cats[k].id == activeFilter)
  {
    seq(|cats|, k requires 0 <= k < |cats| => ItemFor(cats[k], activeFilter, IconSource(cats[k].icon)))
  }

  /** The two bars agree on everything but the image source, and differ there exactly
      for the categories without an icon, where the written bar shows "undefined". */
  lemma FilterBarsDifferOnMissingIcons(cats: seq<Category>, activeFilter: string)
    ensures var written := FilterBar(cats, activeFilter);
      var intended := IntendedFilterBar(cats, activeFilter);
      && |written| == |intended|
      && forall k :: 0 <= k < |written| ==>
        && written[k].id == intended[k].id && written[k].labelText == intended[k].labelText
        && written[k].isActive == intended[k].isActive
        && (written[k] != intended[k] <==> cats[k].icon.None?)
        && (cats[k].icon.None? ==> written[k].imageSrc == "undefined" && intended[k].imageSrc == "")
  {
  }

  /** On a feed failure every item of the written bar shows the image "undefined",
      where the intended bar shows none. */
  lemma StaticFilterBarShowsUndefined(activeFilter: string)
    ensures forall k :: 0 <= k < |StaticCategories| ==>
      && FilterBar(StaticCategories, activeFilter)[k].imageSrc == "undefined"
      && IntendedFilterBar(StaticCategories, activeFilter)[k].imageSrc == ""
  {
    StaticCategoriesShape();
  }

  /** With distinct ids, at most one item is active, and one is exactly when the
      active filter is the id of some category. */
  lemma AtMostOneActiveItem(cats: seq<Category>, activeFilter: string)
    requires DistinctIds(cats)
    ensures var items := FilterBar(cats, activeFilter);
      forall k1, k2 :: 0 <= k1 < |items| && 0 <= k2 < |items| && items[k1].isActive && items[k2].isActive ==> k1 == k2
    ensures var items := FilterBar(cats, activeFilter);
      (exists k :: 0 <= k < |items| && items[k].isActive) <==> HasId(cats, activeFilter)
  {
    var items := FilterBar(cats, activeFilter);
    if HasId(cats, activeFilter) {
      var k :| 0 <= k < |cats| && cats[k].id == activeFilter;
      assert items[k].isActive;
    }
  }

  // ---------- DealsFilter ----------

  /** The properties the decorator passes; `None` is a property left `undefined`. */
  datatype Props = Props(
    categories: Option<seq<Category>>,
    deals: Option<seq<Deal>>,
    loading: Option<bool>,
    blockTitle: string)

  const DefaultTitle := "Narrow Your Search Default Title"

  /** The heading text: the authored title, or the default when it is empty. */
  function TitleOf(blockTitle: string): (r: string)
    ensures r != ""
    ensures blockTitle != "" ==> r == blockTitle
    ensures blockTitle == "" ==> r == DefaultTitle
  {
    if blockTitle != "" then blockTitle else DefaultTitle
  }

  /** The grid controller's state. */
  class DealsFilter {
    var isLoading: bool
    var categories: seq<Category>
    var deals: seq<Deal>
    var activeFilter: string
    var blockTitle: string

    /** The active filter is "all" or the id of a listed category. */
    predicate FilterIsKnown()
      reads this
    {
      activeFilter == AllId || HasId(categories, activeFilter)
    }

    /** The constructor: missing properties default to not loading, no categories and
        no deals; the active filter is read from the page URL. */
    constructor (props: Props, page: PageLocation)
      ensures isLoading == props.loading.GetOr(false)
      ensures categories == props.categories.GetOr([])
      ensures deals == props.deals.GetOr([])
      ensures activeFilter == InitialFilter(page.search, categories)
      ensures blockTitle == TitleOf(props.blockTitle)
      ensures FilterIsKnown()
    {
      isLoading := props.loading.GetOr(false);
      categories := props.categories.GetOr([]);
      deals := props.deals.GetOr([]);
      activeFilter := InitialFilter(page.search, props.categories.GetOr([]));
      blockTitle := TitleOf(props.blockTitle);
    }

    /** `setActiveFilter`: takes the new id as it is, without checking it against the
        categories, and then syncs the URL; nothing else in the state changes. */
    method SetActiveFilter(filterId: string, page: PageLocation)
      modifies this, page
      ensures activeFilter == filterId
      ensures isLoading == old(isLoading) && categories == old(categories)
      ensures deals == old(deals) && blockTitle == old(blockTitle)
      ensures page.search == SyncedSearch(old(page.search), old(page.writable), filterId)
      ensures page.writable == old(page.writable)
      ensures HasId(categories, filterId) ==> FilterIsKnown()
    {
      activeFilter := filterId;
      SetFilterInUrl(page, filterId);
    }

    /** Clicking item `k` of the filter bar reports that category's id. */
    method SelectItem(k: int, page: PageLocation)
      requires 0 <= k < |categories|
      modifies this, page
      ensures activeFilter == old(categories[k].id) && FilterIsKnown()
      ensures isLoading == old(isLoading) && categories == old(categories)
      ensures deals == old(deals) && blockTitle == old(blockTitle)
      ensures page.search == SyncedSearch(old(page.search), old(page.writable), activeFilter)
      ensures page.writable == old(page.writable)
    {
      var items := FilterBar(categories, activeFilter);
      SetActiveFilter(items[k].id, page);
    }
  }
}
