/** Deriving the category list from the feed (`generateCategories`) and building
    the authored icon map (`parseNodeListToJSON`). */
module CategoryResolver {
  import opened Wrappers
  import opened JsText
  import opened Deals

  // ---------- Category derivation ----------

  /** `data[j]` is the first deal carrying its category id. */
  predicate IsFirstCarrier(data: seq<Deal>, j: int)
    requires 0 <= j < |data|
  {
    forall i :: 0 <= i < j ==> data[i].categoryId != data[j].categoryId
  }

  /** `data[j]` introduces a category: its id is truthy, is not the reserved "all",
      and no earlier deal carries it. */
  predicate IsNew(data: seq<Deal>, j: int)
    requires 0 <= j < |data|
  {
    Truthy(data[j].categoryId) && data[j].categoryId.value != AllId && IsFirstCarrier(data, j)
  }

  /** Whether a deal is new does not depend on the deals after it. */
  lemma IsNewInPrefix(data: seq<Deal>, n: int, j: int)
    requires 0 <= j < n <= |data|
    ensures IsNew(data[..n], j) <==> IsNew(data, j)
  {
    assert forall i :: 0 <= i <= j ==> data[..n][i] == data[i];
  }

  /** The leading entry: id "all", label "All Deals", icon `icons.all`. */
  function AllCategory(icons: IconMap): Category {
    Category(AllId, AllLabel, Lookup(icons, AllId))
  }

  /** The entry a deal contributes: its id, its label, and the icon keyed by its id. */
  function EntryFor(icons: IconMap, d: Deal): Category
    requires Truthy(d.categoryId)
  {
    Category(d.categoryId.value, d.categoryLabel, Lookup(icons, d.categoryId.value))
  }

  /** The category list derived from `data`: "all" first, then one entry for each
      new deal, in feed order. */
  function CategoriesOf(icons: IconMap, data: seq<Deal>): (r: seq<Category>)
    ensures 1 <= |r| <= |data| + 1 && r[0] == AllCategory(icons)
    decreases |data|
  {
    if data == [] then [AllCategory(icons)]
    else
      var n := |data| - 1;
      CategoriesOf(icons, data[..n]) + (if IsNew(data, n) then [EntryFor(icons, data[n])] else [])
  }

  /** The derived list has an entry with id `x` exactly when `x` is "all" or some
      deal carries `x` as a truthy category id: deals with a falsy id contribute
      nothing, and every truthy id is represented. */
  lemma {:induction false} CategoryIdsMatchDeals(icons: IconMap, data: seq<Deal>, x: string)
    ensures HasId(CategoriesOf(icons, data), x) <==>
      x == AllId || exists j :: 0 <= j < |data| && Truthy(data[j].categoryId) && data[j].categoryId.value == x
    decreases |data|
  {
    if data == [] {
      assert HasId(CategoriesOf(icons, data), x) <==> x == AllId by {
        assert CategoriesOf(icons, data) == [AllCategory(icons)];
      }
    } else {
      var n := |data| - 1;
      var prefix := data[..n];
      var before := CategoriesOf(icons, prefix);
      var r := CategoriesOf(icons, data);
      CategoryIdsMatchDeals(icons, prefix, x);
      var inPrefix := exists j :: 0 <= j < n && Truthy(data[j].categoryId) && data[j].categoryId.value == x;
      assert inPrefix <==> exists j :: 0 <= j < n && Truthy(prefix[j].categoryId) && prefix[j].categoryId.value == x by {
        assert forall j :: 0 <= j < n ==> prefix[j] == data[j];
      }
      if IsNew(data, n) {
        assert r == before + [EntryFor(icons, data[n])];
        HasIdAppend(before, EntryFor(icons, data[n]), x);
      } else {
        assert r == before;
      }
      if Truthy(data[n].categoryId) && data[n].categoryId.value == x && x != AllId && !inPrefix {
        assert IsNew(data, n);
      }
    }
  }

  /** The ids of the derived list are pairwise distinct and none is empty. */
  lemma {:induction false} CategoryIdsDistinct(icons: IconMap, data: seq<Deal>)
    ensures DistinctIds(CategoriesOf(icons, data)) && NoEmptyIds(CategoriesOf(icons, data))
    decreases |data|
  {
    if data != [] {
      var n := |data| - 1;
      var before := CategoriesOf(icons, data[..n]);
      CategoryIdsDistinct(icons, data[..n]);
      if IsNew(data, n) {
        var x := data[n].categoryId.value;
        CategoryIdsMatchDeals(icons, data[..n], x);
        assert !HasId(before, x);
        assert CategoriesOf(icons, data) == before + [EntryFor(icons, data[n])];
      }
    }
  }

  /** Every entry after "all" is built from the first deal carrying its id (its label
      from that deal, its icon from the map under that id), and entries appear in the
      order in which their first deals appear in the feed: entries `k1 <= k2` come
      from new deals `j1 <= j2`. */
  lemma {:induction false} CategoriesFollowFirstCarriers(icons: IconMap, data: seq<Deal>, k1: int, k2: int)
    returns (j1: int, j2: int)
    requires 1 <= k1 <= k2 < |CategoriesOf(icons, data)|
    ensures 0 <= j1 <= j2 < |data| && IsNew(data, j1) && IsNew(data, j2)
    ensures CategoriesOf(icons, data)[k1] == EntryFor(icons, data[j1])
    ensures CategoriesOf(icons, data)[k2] == EntryFor(icons, data[j2])
    decreases |data|
  {
    var n := |data| - 1;
    var prefix := data[..n];
    var before := CategoriesOf(icons, prefix);
    var r := CategoriesOf(icons, data);
    if k2 < |before| {
      assert r[k1] == before[k1] && r[k2] == before[k2];
      j1, j2 := CategoriesFollowFirstCarriers(icons, prefix, k1, k2);
      IsNewInPrefix(data, n, j1);
      IsNewInPrefix(data, n, j2);
    } else {
      assert IsNew(data, n) && r == before + [EntryFor(icons, data[n])];
      j2 := n;
      if k1 < |before| {
        assert r[k1] == before[k1];
        var j1';
        j1, j1' := CategoriesFollowFirstCarriers(icons, prefix, k1, k1);
        IsNewInPrefix(data, n, j1);
      } else {
        j1 := n;
      }
    }
  }

  /** Appending one more deal either leaves the derived list as it is or appends that
      deal's entry, exactly as the loop body of `generateCategories` does. */
  lemma CategoriesOfStep(icons: IconMap, data: seq<Deal>, i: int)
    requires 0 <= i < |data|
    ensures var before := CategoriesOf(icons, data[..i]);
      var d := data[i];
      CategoriesOf(icons, data[..i + 1]) ==
        before + (if Truthy(d.categoryId) && !HasId(before, d.categoryId.value) then [EntryFor(icons, d)] else [])
  {
    var p, p' := data[..i], data[..i + 1];
    var d := data[i];
    assert p'[..i] == p;
    var before := CategoriesOf(icons, p);
    if Truthy(d.categoryId) {
      CategoryIdsMatchDeals(icons, p, d.categoryId.value);
      assert forall j :: 0 <= j < i ==> p[j] == p'[j];
      assert IsNew(p', i) <==> !HasId(before, d.categoryId.value);
    }
  }

  /** `generateCategories`: starts from the "all" entry and scans the feed, pushing
      an entry for each deal whose truthy id is not yet listed. */
  method GenerateCategories(icons: IconMap, data: seq<Deal>) returns (categories: seq<Category>)
    ensures categories == CategoriesOf(icons, data)
  {
    categories := [AllCategory(icons)];
    assert data[..0] == [];
    for i := 0 to |data|
      invariant categories == CategoriesOf(icons, data[..i])
    {
      var item := data[i];
      CategoriesOfStep(icons, data, i);
      if Truthy(item.categoryId) && !HasId(categories, item.categoryId.value) {
        categories := categories + [EntryFor(icons, item)];
      }
    }
    assert data[..|data|] == data;
  }

  // ---------- Authored icon map ----------

  /** One authored row: the text of its paragraph and the `src` of its image. */
  datatype AuthoredItem = AuthoredItem(labelText: string, iconSrc: string)

  /** The key a row is stored under: its paragraph text, trimmed. */
  function ItemKey(item: AuthoredItem): string {
    Trim(item.labelText)
  }

  /** The (key, `src`) pair each row contributes, in document order. */
  function KeyedEntries(items: seq<AuthoredItem>): (r: seq<(string, string)>)
    ensures |r| == |items|
  {
    seq(|items|, j requires 0 <= j < |items| => (ItemKey(items[j]), items[j].iconSrc))
  }

  /** The icon map after assigning every pair of `entries`, in order, into `icons`. */
  function StoreAll(icons: IconMap, entries: seq<(string, string)>): IconMap
    decreases |entries|
  {
    if entries == [] then icons
    else
      var n := |entries| - 1;
      StoreAll(icons, entries[..n])[entries[n].0 := entries[n].1]
  }

  /** `parseNodeListToJSON`: stores each row's `src` under its trimmed label. */
  method ParseIconEntries(icons: IconMap, items: seq<AuthoredItem>) returns (m: IconMap)
    ensures m == StoreAll(icons, KeyedEntries(items))
  {
    ghost var entries := KeyedEntries(items);
    m := icons;
    for i := 0 to |items|
      invariant m == StoreAll(icons, entries[..i])
    {
      var key := ItemKey(items[i]);
      assert entries[..i + 1][..i] == entries[..i] && entries[..i + 1][i] == (key, items[i].iconSrc);
      m := m[key := items[i].iconSrc];
    }
    assert entries[..|items|] == entries;
  }

  /** After the pairs are stored, a key is present exactly when it was present before
      or some pair has it. */
  lemma {:induction false} StoreAllKeys(icons: IconMap, entries: seq<(string, string)>, key: string)
    ensures key in StoreAll(icons, entries) <==>
      key in icons || exists j :: 0 <= j < |entries| && entries[j].0 == key
    decreases |entries|
  {
    if entries != [] {
      var n := |entries| - 1;
      StoreAllKeys(icons, entries[..n], key);
      if key != entries[n].0 {
        assert (exists j :: 0 <= j < n && entries[..n][j].0 == key) <==>
               (exists j :: 0 <= j < |entries| && entries[j].0 == key);
      }
    }
  }

  /** A key that pair `j` has and no later pair has holds pair `j`'s `src`: the last
      authored row for a label wins. */
  lemma {:induction false} StoreAllLastWins(icons: IconMap, entries: seq<(string, string)>, j: int)
    requires 0 <= j < |entries|
    requires forall j' :: j < j' < |entries| ==> entries[j'].0 != entries[j].0
    ensures entries[j].0 in StoreAll(icons, entries)
    ensures StoreAll(icons, entries)[entries[j].0] == entries[j].1
    decreases |entries|
  {
    var n := |entries| - 1;
    if j < n {
      StoreAllLastWins(icons, entries[..n], j);
    }
  }

  /** A key that no pair has keeps the value it had before. */
  lemma {:induction false} StoreAllKeepsOthers(icons: IconMap, entries: seq<(string, string)>, key: string)
    requires key in icons
    requires forall j :: 0 <= j < |entries| ==> entries[j].0 != key
    ensures key in StoreAll(icons, entries) && StoreAll(icons, entries)[key] == icons[key]
    decreases |entries|
  {
    if entries != [] {
      StoreAllKeepsOthers(icons, entries[..|entries| - 1], key);
    }
  }
}
