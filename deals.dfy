/** The records the component works on: deals from the feed, category
    descriptors, and the authored icon map. */
module Deals {
  import opened Wrappers
  import opened JsText

  /** One promotional offer from the feed. `categoryId` may be missing; `categoryLabel`
      is the feed's `label` field (`label` is a reserved word in Dafny). */
  datatype Deal = Deal(
    link: string,
    logo: string,
    offerPercent: string,
    description: string,
    categoryId: Option<string>,
    categoryLabel: string)

  /** A filterable grouping. `icon` is missing when the icon map has no entry. */
  datatype Category = Category(id: string, labelText: string, icon: Option<string>)

  /** Authored icon sources by key (the module-level `categoriesAuthorableImages`). */
  type IconMap = map<string, string>

  /** The reserved id meaning "no filter applied". */
  const AllId := "all"
  const AllLabel := "All Deals"

  /** Indexing the icon map: `undefined` when the key is missing. */
  function Lookup(icons: IconMap, key: string): Option<string> {
    if key in icons then Some(icons[key]) else None
  }

  /** A deal that the grid renders as a card: its category id is truthy. */
  predicate Categorized(d: Deal) {
    Truthy(d.categoryId)
  }

  /** Some category in `cats` has id `x` (`cats.some((c) => c.id === x)`). */
  predicate HasId(cats: seq<Category>, x: string) {
    exists k :: 0 <= k < |cats| && cats[k].id == x
  }

  /** Appending a category adds exactly its id to the listed ids. */
  lemma HasIdAppend(cats: seq<Category>, c: Category, x: string)
    ensures HasId(cats + [c], x) <==> HasId(cats, x) || c.id == x
  {
    if HasId(cats + [c], x) {
      var k :| 0 <= k < |cats| + 1 && (cats + [c])[k].id == x;
      if k < |cats| {
        assert cats[k].id == x;
      }
    }
    if HasId(cats, x) {
      var k :| 0 <= k < |cats| && cats[k].id == x;
      assert (cats + [c])[k].id == x;
    }
    assert (cats + [c])[|cats|] == c;
  }

  /** No two categories share an id. */
  predicate DistinctIds(cats: seq<Category>) {
    forall i, j :: 0 <= i < j < |cats| ==> cats[i].id != cats[j].id
  }

  /** No category has the empty id. */
  predicate NoEmptyIds(cats: seq<Category>) {
    forall k :: 0 <= k < |cats| ==> cats[k].id != ""
  }

  /** The fixed six-entry list used when the feed cannot be loaded. */
  const StaticCategories: seq<Category> := [
    Category(AllId, AllLabel, None),
    Category("apparel-footwear", "Apparel & Footwear", None),
    Category("training-equipment", "Training Equipment", None),
    Category("smr-recovery", "SMR & Recovery", None),
    Category("branded-training", "Branded Training", None),
    Category("other", "Other", None)
  ]

  /** The static list has six entries, starts with "all", has distinct, non-empty
      ids and no icons. */
  lemma StaticCategoriesShape()
    ensures |StaticCategories| == 6 && StaticCategories[0] == Category(AllId, AllLabel, None)
    ensures DistinctIds(StaticCategories) && NoEmptyIds(StaticCategories)
    ensures forall k :: 0 <= k < 6 ==> StaticCategories[k].icon == None
  {
    var ids := seq(6, k requires 0 <= k < 6 => StaticCategories[k].id);
    assert ids == [AllId, "apparel-footwear", "training-equipment", "smr-recovery", "branded-training", "other"];
    assert forall i, j :: 0 <= i < j < 6 ==> ids[i][0] != ids[j][0] || ids[i][1] != ids[j][1] || |ids[i]| != |ids[j]|;
  }

  /** Every static id is free of upper-case letters, so lower-casing a requested
      filter can match any of them. */
  lemma StaticIdsAreLowercase()
    ensures forall k :: 0 <= k < |StaticCategories| ==> IsLowercase(StaticCategories[k].id)
  {
    var ids := [AllId, "apparel-footwear", "training-equipment", "smr-recovery", "branded-training", "other"];
    assert IsLowercase(AllId) && IsLowercase("apparel-footwear") && IsLowercase("training-equipment");
    assert IsLowercase("smr-recovery") && IsLowercase("branded-training") && IsLowercase("other");
    assert forall k :: 0 <= k < 6 ==> IsLowercase(ids[k]);
    assert forall k :: 0 <= k < 6 ==> StaticCategories[k].id == ids[k];
  }
}
