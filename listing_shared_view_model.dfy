/** Selection state shared between screens: the listing, category and
    condition last chosen, and the recently seen listings, most recent first.
    Listings are matched by whole-value equality (Kotlin data-class `equals`),
    not by id. */
module ListingSharedViewModel {
  import opened Wrappers
  import opened Market

  /** `indexOf`: the first position holding `x`, or -1. */
  function IndexOf(s: seq<Listing>, x: Listing): (r: int)
    ensures r == -1 <==> x !in s
    ensures r != -1 ==> 0 <= r < |s| && s[r] == x && x !in s[..r]
  {
    if s == [] then -1
    else if s[0] == x then 0
    else
      var k := IndexOf(s[1..], x);
      assert s == [s[0]] + s[1..];
      if k == -1 then -1
      else
        assert s[..k + 1] == [s[0]] + s[1..][..k];
        k + 1
  }

  /** `removeAt(i)`. */
  function RemoveAt(s: seq<Listing>, i: nat): (r: seq<Listing>)
    requires i < |s|
    ensures |r| == |s| - 1
    ensures forall k :: 0 <= k < i ==> r[k] == s[k]
    ensures forall k :: i <= k < |r| ==> r[k] == s[k + 1]
    ensures multiset(r) == multiset(s) - multiset{s[i]}
  {
    assert s == s[..i] + [s[i]] + s[i + 1..];
    s[..i] + s[i + 1..]
  }

  /** `remove(x)`: drop the first element equal to `x`, if any. */
  function RemoveFirst(s: seq<Listing>, x: Listing): (r: seq<Listing>)
  {
    var i := IndexOf(s, x);
    if i == -1 then s else RemoveAt(s, i)
  }

  /** The recently-seen list after viewing `listing`. */
  function MoveToFront(s: seq<Listing>, listing: Listing): (r: seq<Listing>)
  {
    [listing] + RemoveFirst(s, listing)
  }

  /** All elements other than `x`, in order. */
  function Others(s: seq<Listing>, x: Listing): (r: seq<Listing>)
    ensures x !in r
  {
    if s == [] then []
    else (if s[0] == x then [] else [s[0]]) + Others(s[1..], x)
  }

  lemma {:induction false} OthersConcat(a: seq<Listing>, b: seq<Listing>, x: Listing)
    ensures Others(a + b, x) == Others(a, x) + Others(b, x)
    decreases |a|
  {
    if a != [] {
      OthersConcat(a[1..], b, x);
      assert (a + b)[1..] == a[1..] + b;
    } else {
      assert a + b == b;
    }
  }

  ghost predicate NoDuplicates(s: seq<Listing>) {
    forall i, j :: 0 <= i < j < |s| ==> s[i] != s[j]
  }

  /** Removing `x` drops exactly one copy of it when present and nothing otherwise. */
  lemma RemoveFirstCount(s: seq<Listing>, x: Listing)
    ensures x !in s ==> RemoveFirst(s, x) == s
    ensures x in s ==>
      var i := IndexOf(s, x);
      && 0 <= i < |s| && s[i] == x && x !in s[..i]
      && RemoveFirst(s, x) == s[..i] + s[i + 1..]
    ensures x in s ==> |RemoveFirst(s, x)| == |s| - 1
    ensures multiset(RemoveFirst(s, x)) == multiset(s) - multiset{x}
  {
    if x !in s {
      assert multiset(s)[x] == 0;
      assert multiset(s) - multiset{x} == multiset(s);
    }
  }

  /** ... and leaves every other element in its order. */
  lemma RemoveFirstKeepsOthers(s: seq<Listing>, x: Listing)
    ensures Others(RemoveFirst(s, x), x) == Others(s, x)
  {
    var i := IndexOf(s, x);
    if i != -1 {
      var pre, post := s[..i], s[i + 1..];
      var tail := [x] + post;
      assert s == pre + tail;
      assert tail[1..] == post;
      assert Others(tail, x) == Others(post, x);
      OthersConcat(pre, tail, x);
      OthersConcat(pre, post, x);
      assert RemoveFirst(s, x) == pre + post;
    }
  }

  /** The viewed listing is first; it is counted once; the length grows only
      for a listing not seen before; everything else keeps its order. */
  lemma MoveToFrontSpec(s: seq<Listing>, listing: Listing)
    ensures MoveToFront(s, listing)[0] == listing
    ensures |MoveToFront(s, listing)| == if listing in s then |s| else |s| + 1
    ensures multiset(MoveToFront(s, listing)) == (multiset(s) - multiset{listing}) + multiset{listing}
    ensures Others(MoveToFront(s, listing), listing) == Others(s, listing)
  {
    RemoveFirstCount(s, listing);
    RemoveFirstKeepsOthers(s, listing);
    OthersConcat([listing], RemoveFirst(s, listing), listing);
    assert Others([listing], listing) == [];
  }

  /** A duplicate-free list stays duplicate-free. */
  lemma MoveToFrontKeepsNoDuplicates(s: seq<Listing>, listing: Listing)
    requires NoDuplicates(s)
    ensures NoDuplicates(MoveToFront(s, listing))
  {
    var r := MoveToFront(s, listing);
    var rest := RemoveFirst(s, listing);
    assert listing !in rest by {
      if listing in s {
        var i := IndexOf(s, listing);
        assert rest == s[..i] + s[i + 1..];
        forall k | 0 <= k < |rest| ensures rest[k] != listing {
          if k < i { assert rest[k] == s[k]; } else { assert rest[k] == s[k + 1]; }
        }
      }
    }
    forall i, j | 0 <= i < j < |r| ensures r[i] != r[j] {
      if i > 0 {
        if listing in s {
          var m := IndexOf(s, listing);
          var a := if i - 1 < m then i - 1 else i;
          var b := if j - 1 < m then j - 1 else j;
          assert r[i] == s[a] && r[j] == s[b] && a < b;
        }
      } else {
        assert r[j] == rest[j - 1];
      }
    }
  }

  /** Removing from a duplicate-free list keeps it duplicate-free, and then no
      copy of the removed listing is left. */
  lemma RemoveFirstKeepsNoDuplicates(s: seq<Listing>, x: Listing)
    requires NoDuplicates(s)
    ensures NoDuplicates(RemoveFirst(s, x))
    ensures x !in RemoveFirst(s, x)
  {
    var r := RemoveFirst(s, x);
    var i := IndexOf(s, x);
    if i != -1 {
      forall a, b | 0 <= a < b < |r| ensures r[a] != r[b] {
        var a', b' := if a < i then a else a + 1, if b < i then b else b + 1;
        assert r[a] == s[a'] && r[b] == s[b'];
      }
      forall k | 0 <= k < |r| ensures r[k] != x {
        if k < i { assert r[k] == s[k]; } else { assert r[k] == s[k + 1]; }
      }
    }
  }

  class ListingSharedViewModel {
    var selectedListing: Option<Listing>
    var selectedCategory: Option<Category>
    var selectedCondition: Option<Condition>
    /** None while the LiveData has never been set. */
    var recentlySeenListings: Option<seq<Listing>>

    /** The recently-seen list never holds the same listing twice. */
    ghost predicate Valid()
      reads this
    {
      recentlySeenListings.Some? ==> NoDuplicates(recentlySeenListings.value)
    }

    constructor ()
      ensures selectedListing.None? && selectedCategory.None? && selectedCondition.None?
      ensures recentlySeenListings.None?
      ensures Valid()
    {
      selectedListing := None;
      selectedCategory := None;
      selectedCondition := None;
      recentlySeenListings := None;
    }

    method SelectListing(listing: Listing)
      modifies this
      ensures selectedListing == Some(listing)
      ensures selectedCategory == old(selectedCategory) && selectedCondition == old(selectedCondition)
      ensures recentlySeenListings == old(recentlySeenListings)
    {
      selectedListing := Some(listing);
    }

    method SelectCategory(category: Option<Category>)
      modifies this
      ensures selectedCategory == category
      ensures selectedListing == old(selectedListing) && selectedCondition == old(selectedCondition)
      ensures recentlySeenListings == old(recentlySeenListings)
    {
      selectedCategory := category;
    }

    method SelectCondition(condition: Option<Condition>)
      modifies this
      ensures selectedCondition == condition
      ensures selectedListing == old(selectedListing) && selectedCategory == old(selectedCategory)
      ensures recentlySeenListings == old(recentlySeenListings)
    {
      selectedCondition := condition;
    }

    /** `addRecentlySeenListing`: an unset list counts as empty. */
    method AddRecentlySeenListing(listing: Listing)
      requires Valid()
      modifies this
      ensures Valid()
      ensures recentlySeenListings == Some(MoveToFront(old(recentlySeenListings).GetOr([]), listing))
      ensures selectedListing == old(selectedListing)
      ensures selectedCategory == old(selectedCategory) && selectedCondition == old(selectedCondition)
    {
      var currentList := recentlySeenListings.GetOr([]);
      var existingIndex := IndexOf(currentList, listing);
      if existingIndex != -1 {
        currentList := RemoveAt(currentList, existingIndex);
      }
      currentList := [listing] + currentList;
      MoveToFrontKeepsNoDuplicates(old(recentlySeenListings).GetOr([]), listing);
      recentlySeenListings := Some(currentList);
    }

    method ClearRecentlySeenListings()
      requires Valid()
      modifies this
      ensures Valid()
      ensures recentlySeenListings == Some([])
      ensures selectedListing == old(selectedListing)
      ensures selectedCategory == old(selectedCategory) && selectedCondition == old(selectedCondition)
    {
      recentlySeenListings := Some([]);
    }

    method RemoveRecentlySeenListing(listing: Listing)
      requires Valid()
      modifies this
      ensures Valid()
      ensures recentlySeenListings == Some(RemoveFirst(old(recentlySeenListings).GetOr([]), listing))
      ensures selectedListing == old(selectedListing)
      ensures selectedCategory == old(selectedCategory) && selectedCondition == old(selectedCondition)
    {
      var currentList := recentlySeenListings.GetOr([]);
      RemoveFirstKeepsNoDuplicates(currentList, listing);
      currentList := RemoveFirst(currentList, listing);
      recentlySeenListings := Some(currentList);
    }
  }
}
