/** The browse screen's view model: it re-reads the whole listing table on
    every request and publishes either a filtered or a price-sorted copy in
    `filteredListings`; two boolean overlays are toggled by the screen. */
module ListingsViewModel {
  import opened Wrappers
  import opened Market
  import opened Sequences
  import opened ListingStore

  // ---------------------------------------------------------------- filter

  /** The filter predicate: a null category or condition is a wildcard, the two are ANDed. */
  predicate Matches(listing: Listing, category: Option<Category>, condition: Option<Condition>) {
    && (category.None? || listing.category == category.value)
    && (condition.None? || listing.condition == condition.value)
  }

  /** What `filterListings` publishes for a table snapshot. */
  function Filtered(listings: seq<Listing>, category: Option<Category>, condition: Option<Condition>): (r: seq<Listing>)
    ensures forall i :: 0 <= i < |r| ==> Matches(r[i], category, condition)
    ensures forall l :: Matches(l, category, condition) ==> multiset(r)[l] == multiset(listings)[l]
    ensures forall l :: !Matches(l, category, condition) ==> multiset(r)[l] == 0
  {
    if category.None? && condition.None? then listings
    else
      FilterCounts(listings, (l: Listing) => Matches(l, category, condition));
      Filter(listings, (l: Listing) => Matches(l, category, condition))
  }

  /** The filtered list keeps the snapshot's order. */
  lemma FilteredIsSubsequence(listings: seq<Listing>, category: Option<Category>, condition: Option<Condition>)
    ensures IsSubsequence(Filtered(listings, category, condition), listings)
  {
    if category.None? && condition.None? {
      SubsequenceReflexive(listings);
    } else {
      FilterIsSubsequence(listings, (l: Listing) => Matches(l, category, condition));
    }
  }

  /** The both-null shortcut returns exactly what the general predicate would. */
  lemma ShortcutAgreesWithPredicate(listings: seq<Listing>)
    ensures Filtered(listings, None, None) == Filter(listings, (l: Listing) => Matches(l, None, None))
    ensures Filtered(listings, None, None) == listings
  {
    FilterKeepingAll(listings, (l: Listing) => Matches(l, None, None));
  }

  // ---------------------------------------------------------------- sort

  /** `a` may precede `b` in the requested price order. */
  predicate InOrder(a: Listing, b: Listing, ascending: bool) {
    if ascending then a.price <= b.price else a.price >= b.price
  }

  ghost predicate PriceOrdered(s: seq<Listing>, ascending: bool) {
    forall i, j :: 0 <= i < j < |s| ==> InOrder(s[i], s[j], ascending)
  }

  /** Insert `x` in front of the first element it may precede. Because `x`
      comes from earlier in the snapshot than every element of `sorted`, it
      goes before those of equal price: this is what makes the sort stable. */
  function Insert(x: Listing, sorted: seq<Listing>, ascending: bool): (r: seq<Listing>)
    ensures |r| == |sorted| + 1
  {
    if sorted == [] then [x]
    else if InOrder(x, sorted[0], ascending) then [x] + sorted
    else [sorted[0]] + Insert(x, sorted[1..], ascending)
  }

  /** Inserting adds exactly `x` to the elements. */
  lemma {:induction false} InsertPermutes(x: Listing, sorted: seq<Listing>, ascending: bool)
    ensures multiset(Insert(x, sorted, ascending)) == multiset(sorted) + multiset{x}
    decreases |sorted|
  {
    if sorted != [] && !InOrder(x, sorted[0], ascending) {
      InsertPermutes(x, sorted[1..], ascending);
      assert sorted == [sorted[0]] + sorted[1..];
    }
  }

  /** Inserting into a price-ordered list keeps it price-ordered. */
  lemma {:induction false} InsertKeepsOrder(x: Listing, sorted: seq<Listing>, ascending: bool)
    requires PriceOrdered(sorted, ascending)
    ensures PriceOrdered(Insert(x, sorted, ascending), ascending)
    decreases |sorted|
  {
    if sorted != [] && !InOrder(x, sorted[0], ascending) {
      var rest := Insert(x, sorted[1..], ascending);
      InsertKeepsOrder(x, sorted[1..], ascending);
      InsertPermutes(x, sorted[1..], ascending);
      assert sorted == [sorted[0]] + sorted[1..];
      forall k | 0 <= k < |rest|
        ensures InOrder(sorted[0], rest[k], ascending)
      {
        assert rest[k] in multiset(rest);
        if rest[k] != x {
          assert rest[k] in multiset(sorted[1..]);
          var j :| 0 <= j < |sorted[1..]| && sorted[1..][j] == rest[k];
          assert sorted[j + 1] == rest[k];
        }
      }
      assert Insert(x, sorted, ascending) == [sorted[0]] + rest;
    }
  }

  /** `sortedBy { it.price }` (ascending) and `sortedByDescending { it.price }`. */
  function SortedByPrice(listings: seq<Listing>, ascending: bool): (r: seq<Listing>)
    ensures multiset(r) == multiset(listings)
    ensures PriceOrdered(r, ascending)
  {
    if listings == [] then []
    else
      assert listings == [listings[0]] + listings[1..];
      InsertKeepsOrder(listings[0], SortedByPrice(listings[1..], ascending), ascending);
      InsertPermutes(listings[0], SortedByPrice(listings[1..], ascending), ascending);
      Insert(listings[0], SortedByPrice(listings[1..], ascending), ascending)
  }

  /** The listings of price `p`, in order. A sort is stable when it keeps each such list. */
  function PricedAt(s: seq<Listing>, p: int): (r: seq<Listing>)
    ensures forall i :: 0 <= i < |r| ==> r[i].price == p
  {
    if s == [] then []
    else (if s[0].price == p then [s[0]] else []) + PricedAt(s[1..], p)
  }

  lemma PricedAtCons(a: Listing, s: seq<Listing>, p: int)
    ensures PricedAt([a] + s, p) == (if a.price == p then [a] else []) + PricedAt(s, p)
  {
    assert ([a] + s)[1..] == s;
  }

  lemma {:induction false} InsertKeepsTies(x: Listing, sorted: seq<Listing>, ascending: bool, p: int)
    ensures PricedAt(Insert(x, sorted, ascending), p)
         == (if x.price == p then [x] else []) + PricedAt(sorted, p)
    decreases |sorted|
  {
    if sorted == [] {
      PricedAtCons(x, [], p);
      assert [x] + [] == [x];
    } else if InOrder(x, sorted[0], ascending) {
      PricedAtCons(x, sorted, p);
    } else {
      var s0, tail := sorted[0], sorted[1..];
      var rest := Insert(x, tail, ascending);
      assert Insert(x, sorted, ascending) == [s0] + rest;
      var h0 := if s0.price == p then [s0] else [];
      var hx := if x.price == p then [x] else [];
      assert h0 == [] || hx == [];
      calc {
        PricedAt(Insert(x, sorted, ascending), p);
        PricedAt([s0] + rest, p);
        { PricedAtCons(s0, rest, p); }
        h0 + PricedAt(rest, p);
        { InsertKeepsTies(x, tail, ascending, p); }
        h0 + (hx + PricedAt(tail, p));
        hx + (h0 + PricedAt(tail, p));
        { assert sorted == [s0] + tail; PricedAtCons(s0, tail, p); }
        hx + PricedAt(sorted, p);
      }
    }
  }

  /** Stability: listings of equal price keep their snapshot order. */
  lemma {:induction false} SortIsStable(listings: seq<Listing>, ascending: bool, p: int)
    ensures PricedAt(SortedByPrice(listings, ascending), p) == PricedAt(listings, p)
    decreases |listings|
  {
    if listings != [] {
      SortIsStable(listings[1..], ascending, p);
      InsertKeepsTies(listings[0], SortedByPrice(listings[1..], ascending), ascending, p);
      PricedAtCons(listings[0], listings[1..], p);
      assert listings == [listings[0]] + listings[1..];
    }
  }

  // ---------------------------------------------------------------- overlays

  /** `value != true`: an unset or false overlay opens, an open one closes. */
  function Toggled(shown: Option<bool>): bool
  {
    shown != Some(true)
  }

  /** An unset overlay behaves as a hidden one: a toggle opens both, and closes
      only an open one. */
  lemma UnsetCountsAsHidden()
    ensures Toggled(None) == Toggled(Some(false))
    ensures Toggled(None) && !Toggled(Some(true))
  {
  }

  /** Two toggles leave the overlay shown exactly when it was shown before;
      from a set value they restore that value. */
  lemma ToggleTwiceRestores(shown: Option<bool>)
    ensures Toggled(Some(Toggled(shown))) == (shown == Some(true))
    ensures shown.Some? ==> Toggled(Some(Toggled(shown))) == shown.value
  {
  }

  // ---------------------------------------------------------------- view model

  /** The five demonstration rows `populateDatabase` inserts. Their drawable
      resource is not a field of Listing; their asset path is kept as `modelUrl`. */
  function SampleListings(): (samples: seq<Listing>)
    ensures |samples| == 5
    ensures forall i, j :: 0 <= i < j < |samples| ==> samples[i].id != samples[j].id
  {
    [ Listing(1, "Old couch", COUCHES, 19999, FAIR, None, Some("models/couch.glb")),
      Listing(2, "Viking bed", BEDS, 39999, NEW, None, Some("models/bed.glb")),
      Listing(3, "Elegant bookcase", BOOKCASES, 49999, NEW, None, Some("models/bookcase.glb")),
      Listing(4, "Simple desk", DESKS, 29999, USED, None, Some("models/computer_desk.glb")),
      Listing(5, "Wood chair", CHAIRS, 9999, USED, None, Some("models/chair.glb")) ]
  }

  /** The table after inserting `added` one by one. */
  function AddAll(rows: seq<Listing>, added: seq<Listing>): (r: seq<Listing>)
    ensures UniqueIds(rows) ==> UniqueIds(r)
    decreases |added|
  {
    if added == [] then rows
    else Upsert(AddAll(rows, added[..|added| - 1]), added[|added| - 1])
  }

  /** Inserting rows with distinct ids leaves every one of them in the table. */
  lemma {:induction false} AddAllStoresEach(rows: seq<Listing>, added: seq<Listing>)
    requires forall i, j :: 0 <= i < j < |added| ==> added[i].id != added[j].id
    ensures forall k :: 0 <= k < |added| ==> added[k] in AddAll(rows, added)
    decreases |added|
  {
    if added != [] {
      var n := |added| - 1;
      var init := added[..n];
      var before := AddAll(rows, init);
      assert forall k :: 0 <= k < n ==> init[k] == added[k];
      AddAllStoresEach(rows, init);
      assert AddAll(rows, added) == Upsert(before, added[n]);
      forall k | 0 <= k < n
        ensures added[k] in AddAll(rows, added)
      {
        assert added[k] in before && added[k].id != added[n].id;
      }
    }
  }

  class ListingsViewModel {
    const repository: Store
    var listings: Option<seq<Listing>>
    var filteredListings: Option<seq<Listing>>
    var showSortOverlay: Option<bool>
    var showFilterOverlay: Option<bool>

    /** Both lists start unset, both overlays start closed. */
    constructor (repository: Store)
      ensures this.repository == repository
      ensures listings.None? && filteredListings.None?
      ensures showSortOverlay == Some(false) && showFilterOverlay == Some(false)
    {
      this.repository := repository;
      listings := None;
      filteredListings := None;
      showSortOverlay := Some(false);
      showFilterOverlay := Some(false);
    }

    method FilterListings(currentCategory: Option<Category>, currentCondition: Option<Condition>)
      modifies this
      ensures filteredListings == Some(Filtered(repository.rows, currentCategory, currentCondition))
      ensures listings == old(listings)
      ensures showSortOverlay == old(showSortOverlay) && showFilterOverlay == old(showFilterOverlay)
    {
      var all := repository.GetAllListings();
      if currentCategory.None? && currentCondition.None? {
        filteredListings := Some(all);
      } else {
        filteredListings := Some(Filter(all, (l: Listing) => Matches(l, currentCategory, currentCondition)));
      }
    }

    /** Sorting re-reads the whole table, so an active filter is dropped. */
    method SortListings(ascending: bool)
      modifies this
      ensures filteredListings == Some(SortedByPrice(repository.rows, ascending))
      ensures listings == old(listings)
      ensures showSortOverlay == old(showSortOverlay) && showFilterOverlay == old(showFilterOverlay)
    {
      var all := repository.GetAllListings();
      filteredListings := Some(SortedByPrice(all, ascending));
    }

    method ToggleSortOverlay()
      modifies this
      ensures showSortOverlay == Some(Toggled(old(showSortOverlay)))
      ensures showFilterOverlay == old(showFilterOverlay)
      ensures listings == old(listings) && filteredListings == old(filteredListings)
    {
      showSortOverlay := Some(Toggled(showSortOverlay));
    }

    method ToggleFilterOverlay()
      modifies this
      ensures showFilterOverlay == Some(Toggled(old(showFilterOverlay)))
      ensures showSortOverlay == old(showSortOverlay)
      ensures listings == old(listings) && filteredListings == old(filteredListings)
    {
      showFilterOverlay := Some(Toggled(showFilterOverlay));
    }

    method LoadListings()
      modifies this
      ensures listings == Some(repository.rows) && filteredListings == listings
      ensures showSortOverlay == old(showSortOverlay) && showFilterOverlay == old(showFilterOverlay)
    {
      var all := repository.GetAllListings();
      listings := Some(all);
      filteredListings := listings;
    }

    /** `addListing(listing)`: insert, then reload. */
    method AddListing(listing: Listing)
      requires repository.Valid()
      modifies this, repository
      ensures repository.Valid() && repository.rows == Upsert(old(repository.rows), listing)
      ensures listings == Some(repository.rows) && filteredListings == listings
      ensures showSortOverlay == old(showSortOverlay) && showFilterOverlay == old(showFilterOverlay)
    {
      repository.AddListing(listing);
      LoadListings();
    }

    /** `populateDatabase()`: insert the five samples in order, then reload. */
    method PopulateDatabase()
      requires repository.Valid()
      modifies this, repository
      ensures repository.Valid() && repository.rows == AddAll(old(repository.rows), SampleListings())
      ensures forall k :: 0 <= k < |SampleListings()| ==> SampleListings()[k] in repository.rows
      ensures listings == Some(repository.rows) && filteredListings == listings
      ensures showSortOverlay == old(showSortOverlay) && showFilterOverlay == old(showFilterOverlay)
    {
      var samples := SampleListings();
      for i := 0 to |samples|
        invariant repository.Valid()
        invariant repository.rows == AddAll(old(repository.rows), samples[..i])
        invariant showSortOverlay == old(showSortOverlay) && showFilterOverlay == old(showFilterOverlay)
      {
        assert samples[..i + 1][..i] == samples[..i];
        repository.AddListing(samples[i]);
      }
      assert samples[..|samples|] == samples;
      AddAllStoresEach(old(repository.rows), samples);
      LoadListings();
    }
  }
}
