/** The block decorator: builds the icon map from the authored rows, then mounts the
    grid with categories derived from the feed, or with the static list when the
    feed cannot be loaded. */
module Decorate {
  import opened Wrappers
  import opened JsText
  import opened Deals
  import opened CategoryResolver
  import opened FilterUrl
  import opened DealsGrid

  /** Why the feed could not be used: a network error, a status that is not ok, a body
      that is not JSON, or a body without a `data` array (reading it throws inside
      the same `try`). */
  datatype FeedError = NetworkError | BadStatus | MalformedBody

  /** The properties `decorate` mounts the grid with. `shared` is the icon map as the
      module holds it before this block's rows are stored into it. */
  function Decorate(blockTitle: string, shared: IconMap, rows: seq<AuthoredItem>,
                    feed: Result<seq<Deal>, FeedError>): (p: Props)
    ensures p.loading == None && p.blockTitle == blockTitle
    ensures feed.Ok? ==>
      && p.deals == Some(feed.value)
      && p.categories == Some(CategoriesOf(StoreAll(shared, KeyedEntries(rows)), feed.value))
    ensures feed.Err? ==> p.categories == Some(StaticCategories) && p.deals == None
  {
    var icons := StoreAll(shared, KeyedEntries(rows));
    match feed
    case Ok(data) => Props(Some(CategoriesOf(icons, data)), Some(data), None, blockTitle)
    case Err(_) => Props(Some(StaticCategories), None, None, blockTitle)
  }

  /** Whatever the feed does, the grid is mounted not loading, with a category list
      that starts with "all" and whose ids are distinct and non-empty. */
  lemma MountedCategoriesAreWellFormed(blockTitle: string, shared: IconMap, rows: seq<AuthoredItem>,
                                       feed: Result<seq<Deal>, FeedError>)
    ensures var p := Decorate(blockTitle, shared, rows, feed);
      && p.categories.Some? && |p.categories.value| >= 1
      && p.categories.value[0].id == AllId
      && DistinctIds(p.categories.value) && NoEmptyIds(p.categories.value)
      && !p.loading.GetOr(false)
  {
    if feed.Err? {
      StaticCategoriesShape();
    } else {
      CategoryIdsDistinct(StoreAll(shared, KeyedEntries(rows)), feed.value);
    }
  }

  /** When the feed fails, the grid shows the six static categories and, for any
      filter, the empty-state message. */
  lemma FeedFailureShowsEmptyGrid(blockTitle: string, shared: IconMap, rows: seq<AuthoredItem>,
                                  error: FeedError, activeFilter: string)
    ensures var p := Decorate(blockTitle, shared, rows, Err(error));
      && p.categories == Some(StaticCategories) && |StaticCategories| == 6
      && RenderGrid(p.loading.GetOr(false), p.deals.GetOr([]), activeFilter) == EmptyMessage
  {
  }

  /** The authored rows of the scenario below: an icon for "all" and one for the
      label "Apparel & Footwear". */
  function ScenarioRows(): seq<AuthoredItem> {
    [AuthoredItem("all", "/i0.png"), AuthoredItem("Apparel & Footwear", "/i1.png")]
  }

  function ScenarioDeal(): Deal {
    Deal("/a", "/l.png", "20% OFF", "<p>x</p>", Some("apparel-footwear"), "Apparel & Footwear")
  }

  lemma AllLabelIsTrimmed()
    ensures Trim("all") == "all"
  {
    var s := "all";
    assert s[0] == 'a' && s[|s| - 1] == 'l';
    assert LeadingSpace(s) == 0;
    assert TrailingSpace(s) == 0;
  }

  lemma ApparelLabelIsTrimmed()
    ensures Trim("Apparel & Footwear") == "Apparel & Footwear"
  {
    var s := "Apparel & Footwear";
    assert s[0] == 'A' && s[|s| - 1] == 'r';
    assert LeadingSpace(s) == 0;
    assert TrailingSpace(s) == 0;
  }

  lemma ScenarioEntries()
    ensures KeyedEntries(ScenarioRows()) == [("all", "/i0.png"), ("Apparel & Footwear", "/i1.png")]
  {
    var rows := ScenarioRows();
    AllLabelIsTrimmed();
    ApparelLabelIsTrimmed();
    var entries := KeyedEntries(rows);
    assert entries[0] == (ItemKey(rows[0]), "/i0.png");
    assert entries[1] == (ItemKey(rows[1]), "/i1.png");
  }

  lemma ScenarioIcons()
    ensures StoreAll(map[], KeyedEntries(ScenarioRows())) ==
      map["all" := "/i0.png", "Apparel & Footwear" := "/i1.png"]
  {
    ScenarioEntries();
    var entries := KeyedEntries(ScenarioRows());
    assert entries[..1] == [("all", "/i0.png")];
    assert entries[..1][..0] == [];
  }

  /** The authored icon rows are stored under their trimmed label text, while the
      lookup uses the category id: a row labelled "Apparel & Footwear" does not give
      the category "apparel-footwear" an icon. The single-deal feed mounts with the
      "all" icon and an icon-less apparel category, and its one card is shown. */
  lemma ScenarioCategories()
    ensures CategoriesOf(map["all" := "/i0.png", "Apparel & Footwear" := "/i1.png"], [ScenarioDeal()]) ==
      [Category(AllId, AllLabel, Some("/i0.png")), Category("apparel-footwear", "Apparel & Footwear", None)]
  {
    var deal := ScenarioDeal();
    assert [deal][..0] == [];
    assert IsNew([deal], 0);
  }

  lemma ScenarioCards()
    ensures RenderGrid(false, [ScenarioDeal()], AllId) == Cards([ScenarioDeal()])
  {
    Seqs.FilterKeepsAll([ScenarioDeal()], Categorized);
  }

  lemma IconRowsAreMatchedById()
    ensures var p := Decorate("Deals", map[], ScenarioRows(), Ok([ScenarioDeal()]));
      && p.categories == Some([Category(AllId, AllLabel, Some("/i0.png")),
                               Category("apparel-footwear", "Apparel & Footwear", None)])
      && RenderGrid(false, [ScenarioDeal()], AllId) == Cards([ScenarioDeal()])
  {
    ScenarioIcons();
    ScenarioCategories();
    ScenarioCards();
  }

  /** Reload: selecting a lower-case category id and mounting the grid again on the
      same page URL restores that filter when the history could be replaced; when it
      could not, the reloaded grid starts from the filter the URL held before. */
  method ReloadRestoresFilter(props: Props, search: Query, writable: bool, x: string) returns (restored: string)
    requires props.categories.Some? && NoEmptyIds(props.categories.value)
    requires HasId(props.categories.value, x) && IsLowercase(x)
    ensures writable ==> restored == x
    ensures !writable ==> restored == InitialFilter(Some(search), props.categories.value)
  {
    var page := new PageLocation(Some(search), writable);
    var grid := new DealsFilter(props, page);
    grid.SetActiveFilter(x, page);
    var reloaded := new DealsFilter(props, page);
    if writable {
      FilterUrlRoundTrip(search, props.categories.value, x);
    }
    restored := reloaded.activeFilter;
  }
}
