/** The active filter's side channel through the page URL: reading it at mount
    (`getInitialFilter`) and writing it on every change (`setFilterInUrl`). */
module FilterUrl {
  import opened Wrappers
  import opened Seqs
  import opened JsText
  import opened Deals

  /** A URL query as its list of (name, value) pairs, in order. */
  type Query = seq<(string, string)>

  const FilterParam := "filter"

  function NameIs(n: string): ((string, string)) -> bool {
    (pair: (string, string)) => pair.0 == n
  }

  function NameIsNot(n: string): ((string, string)) -> bool {
    (pair: (string, string)) => pair.0 != n
  }

  // ---------- URLSearchParams ----------

  /** `URLSearchParams.get`: the value of the first pair named `n`, if any. */
  function GetParam(q: Query, n: string): (r: Option<string>)
    ensures r.None? <==> forall i :: 0 <= i < |q| ==> q[i].0 != n
    ensures r.Some? ==> exists i :: 0 <= i < |q| && q[i] == (n, r.value) && forall i' :: 0 <= i' < i ==> q[i'].0 != n
    decreases |q|
  {
    if q == [] then None
    else if q[0].0 == n then Some(q[0].1)
    else
      var r := GetParam(q[1..], n);
      assert r.Some? ==> exists i :: 1 <= i < |q| && q[i] == (n, r.value) && forall i' :: 0 <= i' < i ==> q[i'].0 != n by {
        if r.Some? {
          var i :| 0 <= i < |q| - 1 && q[1..][i] == (n, r.value) && forall i' :: 0 <= i' < i ==> q[1..][i'].0 != n;
          assert q[i + 1] == (n, r.value);
          assert forall i' :: 1 <= i' < i + 1 ==> q[i'] == q[1..][i' - 1];
        }
      }
      r
  }

  /** The value `get` returns is that of the first pair the name filter keeps. */
  lemma {:induction false} GetParamIsFirstNamed(q: Query, n: string)
    ensures var named := Filter(q, NameIs(n));
      GetParam(q, n) == if named == [] then None else Some(named[0].1)
    decreases |q|
  {
    if q != [] {
      GetParamIsFirstNamed(q[1..], n);
    }
  }

  /** `URLSearchParams.delete`: removes every pair named `n`. */
  function DeleteParam(q: Query, n: string): Query {
    Filter(q, NameIsNot(n))
  }

  /** Sets the first pair named `n` to value `v` and removes the other pairs named `n`. */
  function ReplaceFirst(q: Query, n: string, v: string): Query
    requires GetParam(q, n).Some?
    decreases |q|
  {
    if q[0].0 == n then [(n, v)] + DeleteParam(q[1..], n)
    else [q[0]] + ReplaceFirst(q[1..], n, v)
  }

  /** `URLSearchParams.set`: replaces the first pair named `n` and drops the others,
      or appends `(n, v)` when there is none. */
  function SetParam(q: Query, n: string, v: string): Query {
    if GetParam(q, n).Some? then ReplaceFirst(q, n, v) else q + [(n, v)]
  }

  lemma {:induction false} ReplaceFirstEffect(q: Query, n: string, v: string)
    requires GetParam(q, n).Some?
    ensures Filter(ReplaceFirst(q, n, v), NameIs(n)) == [(n, v)]
    ensures Filter(ReplaceFirst(q, n, v), NameIsNot(n)) == Filter(q, NameIsNot(n))
    decreases |q|
  {
    var r := ReplaceFirst(q, n, v);
    if q[0].0 == n {
      var rest := DeleteParam(q[1..], n);
      assert r[1..] == rest;
      FilterDropsAll(rest, NameIs(n));
      FilterKeepsAll(rest, NameIsNot(n));
    } else {
      ReplaceFirstEffect(q[1..], n, v);
      assert r[1..] == ReplaceFirst(q[1..], n, v);
    }
  }

  // ---------- setFilterInUrl ----------

  /** The filter is written to the URL for a truthy id other than "all". */
  predicate WritesFilter(filterId: string) {
    filterId != "" && filterId != AllId
  }

  /** The query after `setFilterInUrl(filterId)`. */
  function SyncedQuery(q: Query, filterId: string): Query {
    if WritesFilter(filterId) then SetParam(q, FilterParam, filterId) else DeleteParam(q, FilterParam)
  }

  /** After syncing, the query holds exactly one `filter` pair, with value `filterId`,
      when the id is truthy and not "all", and none otherwise. */
  lemma SyncedQueryFilterPairs(q: Query, filterId: string)
    ensures Filter(SyncedQuery(q, filterId), NameIs(FilterParam)) ==
      if WritesFilter(filterId) then [(FilterParam, filterId)] else []
  {
    var r := SyncedQuery(q, filterId);
    if WritesFilter(filterId) {
      if GetParam(q, FilterParam).Some? {
        ReplaceFirstEffect(q, FilterParam, filterId);
      } else {
        FilterAppend(q, (FilterParam, filterId), NameIs(FilterParam));
        FilterDropsAll(q, NameIs(FilterParam));
      }
    } else {
      FilterDropsAll(r, NameIs(FilterParam));
    }
  }

  /** Syncing leaves every other query parameter exactly as it was, in order. */
  lemma SyncedQueryKeepsOtherParams(q: Query, filterId: string)
    ensures Filter(SyncedQuery(q, filterId), NameIsNot(FilterParam)) == Filter(q, NameIsNot(FilterParam))
  {
    var r := SyncedQuery(q, filterId);
    if WritesFilter(filterId) {
      if GetParam(q, FilterParam).Some? {
        ReplaceFirstEffect(q, FilterParam, filterId);
      } else {
        FilterAppend(q, (FilterParam, filterId), NameIsNot(FilterParam));
      }
    } else {
      FilterKeepsAll(r, NameIsNot(FilterParam));
    }
  }

  /** The page's location. `search` is `None` when the URL cannot be read at all, and
      `writable` is false when `history.replaceState` throws; the source catches both
      exceptions. */
  class PageLocation {
    var search: Option<Query>
    var writable: bool

    constructor (search: Option<Query>, writable: bool)
      ensures this.search == search && this.writable == writable
    {
      this.search := search;
      this.writable := writable;
    }
  }

  /** The page query after `setFilterInUrl(filterId)`: the synced query when the URL
      can be read and the history replaced, otherwise the query as it was. */
  function SyncedSearch(search: Option<Query>, writable: bool, filterId: string): Option<Query> {
    match search
    case Some(q) => if writable then Some(SyncedQuery(q, filterId)) else search
    case None => None
  }

  /** `setFilterInUrl`: rewrites the `filter` parameter in place of the current history entry. */
  method SetFilterInUrl(page: PageLocation, filterId: string)
    modifies page
    ensures page.search == SyncedSearch(old(page.search), old(page.writable), filterId)
    ensures page.writable == old(page.writable)
  {
    if page.search.Some? {
      var q := page.search.value;
      if WritesFilter(filterId) {
        q := SetParam(q, FilterParam, filterId);
      } else {
        q := DeleteParam(q, FilterParam);
      }
      if page.writable {
        page.search := Some(q);
      }
    }
  }

  // ---------- getInitialFilter ----------

  /** `categories.find((c) => c.id === x)`: the first category with id `x`. */
  function FindById(cats: seq<Category>, x: string): (r: Option<Category>)
    ensures r.Some? <==> HasId(cats, x)
    ensures r.Some? ==> r.value.id == x
    decreases |cats|
  {
    if cats == [] then None
    else if cats[0].id == x then Some(cats[0])
    else
      var r := FindById(cats[1..], x);
      assert HasId(cats[1..], x) ==> HasId(cats, x) by {
        if HasId(cats[1..], x) {
          var k :| 0 <= k < |cats| - 1 && cats[1..][k].id == x;
          assert cats[k + 1].id == x;
        }
      }
      r
  }

  /** The lower-cased `filter` value, or "" when the parameter is missing. */
  function RequestedFilter(q: Query): string {
    ToLower(GetParam(q, FilterParam).GetOr(""))
  }

  /** `getInitialFilter`: the requested filter when some category has exactly that id,
      and "all" otherwise, including when the URL cannot be read. */
  function InitialFilter(search: Option<Query>, cats: seq<Category>): (r: string)
    ensures r == AllId || (search.Some? && HasId(cats, r) && r == RequestedFilter(search.value))
    ensures search.Some? && HasId(cats, RequestedFilter(search.value)) ==> r == RequestedFilter(search.value)
  {
    match search
    case None => AllId
    case Some(q) =>
      match FindById(cats, RequestedFilter(q))
      case Some(c) => c.id
      case None => AllId
  }

  /** A missing or empty `filter` parameter selects "all" when no category has the
      empty id. */
  lemma MissingFilterSelectsAll(q: Query, cats: seq<Category>)
    requires NoEmptyIds(cats)
    requires GetParam(q, FilterParam).GetOr("") == ""
    ensures InitialFilter(Some(q), cats) == AllId
  {
    assert RequestedFilter(q) == "";
  }

  /** Round trip: after `setFilterInUrl(x)` for a lower-case id `x` of the list,
      reading the URL back selects `x` again; for "all" the parameter is gone and
      reading back selects "all". */
  lemma {:induction false} FilterUrlRoundTrip(q: Query, cats: seq<Category>, x: string)
    requires HasId(cats, x) && IsLowercase(x) && NoEmptyIds(cats)
    ensures InitialFilter(Some(SyncedQuery(q, x)), cats) == x
  {
    var r := SyncedQuery(q, x);
    SyncedQueryFilterPairs(q, x);
    GetParamIsFirstNamed(r, FilterParam);
    if WritesFilter(x) {
      assert GetParam(r, FilterParam) == Some(x);
      LowercaseIsFixed(x);
      assert RequestedFilter(r) == x;
    } else {
      assert x == AllId;
      assert RequestedFilter(r) == "";
    }
  }
}
