/** The queries behind the list and count endpoints, over the ship table as a
    map from id to ship.  The table is read in ascending id order (the list
    endpoint's default order); a page is a slice of that listing. */
module Query {
  import opened Ships
  import opened Filters

  /** The ids in [lo, hi) of the stored ships that `keep` accepts, ascending:
      a table scan in id order with a WHERE clause. */
  function Select(ships: map<int, Ship>, keep: Ship -> bool, lo: int, hi: int): (ids: seq<int>)
    decreases hi - lo
    ensures forall i, j :: 0 <= i < j < |ids| ==> ids[i] < ids[j]
    ensures forall i :: 0 <= i < |ids| ==> lo <= ids[i] < hi && ids[i] in ships && keep(ships[ids[i]])
    ensures forall k :: lo <= k < hi && k in ships && keep(ships[k]) ==> k in ids
  {
    if lo >= hi then []
    else
      var rest := Select(ships, keep, lo + 1, hi);
      if lo in ships && keep(ships[lo]) then [lo] + rest else rest
  }

  /** The same ids as a set. */
  ghost function SelectedKeys(ships: map<int, Ship>, keep: Ship -> bool, lo: int, hi: int): set<int> {
    set k | k in ships && lo <= k < hi && keep(ships[k])
  }

  /** Every ship in `s` has an id, and the ids strictly ascend. */
  predicate IdsAscending(s: seq<Ship>) {
    forall i, j :: 0 <= i < j < |s| ==> s[i].id.Some? && s[j].id.Some? && s[i].id.value < s[j].id.value
  }

  /** The WHERE clause of a query with criteria `f`. */
  function Where(f: Criteria): Ship -> bool {
    s => Matches(f, s)
  }

  /** Every stored ship with an id below `hi` that matches `f`, in ascending id
      order (what `findAll(specification)` returns for a table whose ids are
      all in [1, hi)). */
  function FindAll(ships: map<int, Ship>, hi: int, f: Criteria): (r: seq<Ship>)
    ensures |r| == |Select(ships, Where(f), 1, hi)|
    ensures forall i :: 0 <= i < |r| ==> Matches(f, r[i]) && r[i] in ships.Values
    ensures forall k :: 1 <= k < hi && k in ships && Matches(f, ships[k]) ==> ships[k] in r
    ensures (forall k :: k in ships ==> ships[k].id == Some(k)) ==> IdsAscending(r)
  {
    var ids := Select(ships, Where(f), 1, hi);
    var r := seq(|ids|, i requires 0 <= i < |ids| => ships[ids[i]]);
    LookupComplete(ships, ids, r, Where(f), hi);
    r
  }

  lemma LookupComplete(ships: map<int, Ship>, ids: seq<int>, r: seq<Ship>, keep: Ship -> bool, hi: int)
    requires forall i :: 0 <= i < |ids| ==> ids[i] in ships
    requires |r| == |ids| && forall i :: 0 <= i < |ids| ==> r[i] == ships[ids[i]]
    requires forall k :: 1 <= k < hi && k in ships && keep(ships[k]) ==> k in ids
    ensures forall k :: 1 <= k < hi && k in ships && keep(ships[k]) ==> ships[k] in r
  {
    forall k | 1 <= k < hi && k in ships && keep(ships[k]) ensures ships[k] in r {
      var i :| 0 <= i < |ids| && ids[i] == k;
      assert r[i] == ships[k];
    }
  }

  /** The criteria the count endpoint applies: the date range is not among them. */
  function WithoutDates(f: Criteria): Criteria {
    f.(after := None, before := None)
  }

  /** The number of ships the count endpoint reports: the stored ids below
      `hi` whose ship matches every criterion but the date range. */
  function Count(ships: map<int, Ship>, hi: int, f: Criteria): (n: int)
    ensures n == |SelectedKeys(ships, Where(WithoutDates(f)), 1, hi)|
  {
    ListingSize(ships, Where(WithoutDates(f)), 1, hi);
    |FindAll(ships, hi, WithoutDates(f))|
  }

  /** Page `pageNumber` of `pageSize` elements of `all`: a contiguous slice
      starting at element pageNumber * pageSize, empty past the end. */
  function Page<T>(all: seq<T>, pageNumber: nat, pageSize: nat): (r: seq<T>)
    requires pageSize > 0
    ensures |r| <= pageSize
    ensures forall i :: 0 <= i < |r| ==>
      pageNumber * pageSize + i < |all| && r[i] == all[pageNumber * pageSize + i]
    ensures pageNumber * pageSize + pageSize <= |all| ==> |r| == pageSize
    ensures pageNumber * pageSize <= |all| <= pageNumber * pageSize + pageSize ==>
      |r| == |all| - pageNumber * pageSize
  {
    var start := pageNumber * pageSize;
    if start >= |all| then []
    else if start + pageSize <= |all| then all[start..start + pageSize]
    else all[start..]
  }

  /** A page of an id-ordered listing is id-ordered. */
  lemma PageKeepsOrder(all: seq<Ship>, pageNumber: nat, pageSize: nat)
    requires pageSize > 0
    ensures IdsAscending(all) ==> IdsAscending(Page(all, pageNumber, pageSize))
  {
    if IdsAscending(all) {
      SliceKeepsOrder(all, Page(all, pageNumber, pageSize), pageNumber * pageSize);
    }
  }

  /** A run of consecutive elements of an id-ordered sequence is id-ordered. */
  lemma SliceKeepsOrder(all: seq<Ship>, r: seq<Ship>, start: int)
    requires IdsAscending(all)
    requires forall i :: 0 <= i < |r| ==> 0 <= start + i < |all| && r[i] == all[start + i]
    ensures IdsAscending(r)
  {
    forall i, j | 0 <= i < j < |r|
      ensures r[i].id.Some? && r[j].id.Some? && r[i].id.value < r[j].id.value
    {
      var a, b := r[i], r[j];
      assert a == all[start + i] && b == all[start + j];
      PairInOrder(all, start + i, start + j);
    }
  }

  lemma PairInOrder(all: seq<Ship>, i: int, j: int)
    requires IdsAscending(all) && 0 <= i < j < |all|
    ensures all[i].id.Some? && all[j].id.Some? && all[i].id.value < all[j].id.value
  {
  }

  /** A page of the listing holds only stored ships that match the criteria,
      and is in id order when every stored ship carries its own key as id. */
  lemma ListingPage(ships: map<int, Ship>, hi: int, f: Criteria, pageNumber: nat, pageSize: nat)
    requires pageSize > 0
    ensures var r := Page(FindAll(ships, hi, f), pageNumber, pageSize);
      forall i :: 0 <= i < |r| ==> Matches(f, r[i]) && r[i] in ships.Values
    ensures (forall k :: k in ships ==> ships[k].id == Some(k)) ==>
      IdsAscending(Page(FindAll(ships, hi, f), pageNumber, pageSize))
  {
    var all := FindAll(ships, hi, f);
    var r := Page(all, pageNumber, pageSize);
    forall i | 0 <= i < |r| ensures Matches(f, r[i]) && r[i] in ships.Values {
      var x := r[i];
      assert x == all[pageNumber * pageSize + i];
    }
    PageKeepsOrder(all, pageNumber, pageSize);
  }

  /** Every element at a position in the page's window is on the page. */
  lemma WindowOnPage<T>(all: seq<T>, pageNumber: nat, pageSize: nat)
    requires pageSize > 0
    ensures forall i :: pageNumber * pageSize <= i < pageNumber * pageSize + pageSize && i < |all| ==>
      all[i] in Page(all, pageNumber, pageSize)
  {
    var start := pageNumber * pageSize;
    var r := Page(all, pageNumber, pageSize);
    forall i | start <= i < start + pageSize && i < |all| ensures all[i] in r {
      assert start + (i - start) == i;
      assert |r| == pageSize || |r| == |all| - start;
      assert r[i - start] == all[i];
    }
  }

  /** Every element of the listing is on exactly the page its index says. */
  lemma EveryElementOnItsPage<T>(all: seq<T>, pageSize: nat, i: int)
    requires pageSize > 0 && 0 <= i < |all|
    ensures i % pageSize < |Page(all, i / pageSize, pageSize)|
    ensures Page(all, i / pageSize, pageSize)[i % pageSize] == all[i]
  {
    var n := i / pageSize;
    assert n * pageSize + i % pageSize == i;
    assert n * pageSize <= i < n * pageSize + pageSize;
  }

  /** The scan has exactly one entry per accepted stored id. */
  lemma {:induction false} ListingSize(ships: map<int, Ship>, keep: Ship -> bool, lo: int, hi: int)
    decreases hi - lo
    ensures |Select(ships, keep, lo, hi)| == |SelectedKeys(ships, keep, lo, hi)|
  {
    if lo >= hi {
      assert SelectedKeys(ships, keep, lo, hi) == {};
    } else {
      ListingSize(ships, keep, lo + 1, hi);
      var all := SelectedKeys(ships, keep, lo, hi);
      var rest := SelectedKeys(ships, keep, lo + 1, hi);
      var here: set<int> := if lo in ships && keep(ships[lo]) then {lo} else {};
      forall k | k in all ensures k in here + rest {
        if k != lo {
          assert k in rest;
        }
      }
      assert all == here + rest;
      assert here !! rest;
    }
  }

  /** Narrower criteria never list more ships. */
  lemma ListingMonotone(ships: map<int, Ship>, f: Criteria, g: Criteria, hi: int)
    requires forall s :: Matches(f, s) ==> Matches(g, s)
    ensures |FindAll(ships, hi, f)| <= |FindAll(ships, hi, g)|
  {
    ListingSize(ships, Where(f), 1, hi);
    ListingSize(ships, Where(g), 1, hi);
    assert SelectedKeys(ships, Where(f), 1, hi) <= SelectedKeys(ships, Where(g), 1, hi);
    SubsetCardinality(SelectedKeys(ships, Where(f), 1, hi), SelectedKeys(ships, Where(g), 1, hi));
  }

  lemma SubsetCardinality(a: set<int>, b: set<int>)
    requires a <= b
    ensures |a| <= |b|
  {
    assert b == a + (b - a);
  }

  /** With no parameter at all the count is the number of stored ships. */
  lemma CountOfEverything(ships: map<int, Ship>, hi: int)
    ensures (forall k :: k in ships ==> 1 <= k < hi) ==> Count(ships, hi, NoCriteria) == |ships|
  {
    if exists k :: k in ships && !(1 <= k < hi) {
      return;
    }
    assert WithoutDates(NoCriteria) == NoCriteria;
    ListingSize(ships, Where(NoCriteria), 1, hi);
    forall k | k in ships ensures k in SelectedKeys(ships, Where(NoCriteria), 1, hi) {
      AbsentFiltersMatchEverything(ships[k]);
    }
    assert SelectedKeys(ships, Where(NoCriteria), 1, hi) == ships.Keys;
  }

  /** The count never depends on `after` or `before`. */
  lemma CountIgnoresDateRange(ships: map<int, Ship>, hi: int, f: Criteria, after: Option<int>, before: Option<int>)
    ensures Count(ships, hi, f.(after := after, before := before)) == Count(ships, hi, f)
  {
    assert WithoutDates(f.(after := after, before := before)) == WithoutDates(f);
  }

  /** The count is never below the length of the full listing, and equals it
      when no date range is given. */
  lemma CountBoundsListing(ships: map<int, Ship>, hi: int, f: Criteria)
    ensures |FindAll(ships, hi, f)| <= Count(ships, hi, f)
    ensures f.after.None? && f.before.None? ==> |FindAll(ships, hi, f)| == Count(ships, hi, f)
  {
    ListingMonotone(ships, f, WithoutDates(f), hi);
    if f.after.None? && f.before.None? {
      assert WithoutDates(f) == f;
    }
  }

  /** A ship in the valid production window, used by the example below. */
  const Sample := Ship(Some(1), Some("Daedalus"), Some("Mars"), Some(Transport),
    Some(30000000000000), Some(0.5), Some(false), Some(10), Some(0.2))

  /** With a date range that excludes the only stored ship, the list is empty
      but the count still reports one ship. */
  lemma CountCanExceedListing()
    ensures var f := NoCriteria.(after := Some(31000000000000));
      |FindAll(map[1 := Sample], 2, f)| == 0 && Count(map[1 := Sample], 2, f) == 1
  {
    var f := NoCriteria.(after := Some(31000000000000));
    assert !Matches(f, Sample);
    assert Select(map[1 := Sample], Where(f), 2, 2) == [];
    assert WithoutDates(f) == NoCriteria;
    AbsentFiltersMatchEverything(Sample);
    assert Select(map[1 := Sample], Where(NoCriteria), 2, 2) == [];
  }
}
