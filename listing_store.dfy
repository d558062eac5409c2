/** The listing repository the view models talk to, as the Room DAO presents it:
    a table of rows read back whole by `getAllListings`. Inserting with
    `OnConflictStrategy.REPLACE` overwrites the row holding the same id;
    `addListingReturnId` hands out an id no row uses yet. */
module ListingStore {
  import opened Wrappers
  import opened Market

  predicate HasId(rows: seq<Listing>, id: int) {
    exists i :: 0 <= i < |rows| && rows[i].id == id
  }

  /** No two rows share an id (the table's primary key). */
  ghost predicate UniqueIds(rows: seq<Listing>) {
    forall i, j :: 0 <= i < j < |rows| ==> rows[i].id != rows[j].id
  }

  /** `@Update`: the row with the listing's id takes its value; without such a row nothing changes. */
  function ReplaceById(rows: seq<Listing>, listing: Listing): (r: seq<Listing>)
    ensures |r| == |rows|
    ensures forall i :: 0 <= i < |rows| ==> r[i] == (if rows[i].id == listing.id then listing else rows[i])
  {
    seq(|rows|, i requires 0 <= i < |rows| => if rows[i].id == listing.id then listing else rows[i])
  }

  /** `@Insert(onConflict = REPLACE)`: overwrite the row with the same id, or append. */
  function Upsert(rows: seq<Listing>, listing: Listing): (r: seq<Listing>)
    ensures listing in r
    ensures forall x :: x in rows && x.id != listing.id ==> x in r
    ensures forall x :: x in r ==> x == listing || x in rows
    ensures UniqueIds(rows) ==> UniqueIds(r)
  {
    if HasId(rows, listing.id) then
      var r := ReplaceById(rows, listing);
      var i :| 0 <= i < |rows| && rows[i].id == listing.id;
      assert r[i] == listing;
      r
    else rows + [listing]
  }

  /** The largest id in use, 0 for an empty table. */
  function MaxId(rows: seq<Listing>): (m: int)
    ensures forall i :: 0 <= i < |rows| ==> rows[i].id <= m
    ensures m >= 0
  {
    if rows == [] then 0
    else
      var rest := MaxId(rows[1..]);
      if rows[0].id > rest then rows[0].id else rest
  }

  function FindById(rows: seq<Listing>, id: int): (r: Option<Listing>)
    ensures r.Some? <==> HasId(rows, id)
    ensures r.Some? ==> r.value in rows && r.value.id == id
  {
    if rows == [] then None
    else if rows[0].id == id then Some(rows[0])
    else
      var r := FindById(rows[1..], id);
      assert HasId(rows[1..], id) ==> HasId(rows, id) by {
        if HasId(rows[1..], id) {
          var i :| 0 <= i < |rows[1..]| && rows[1..][i].id == id;
          assert rows[i + 1].id == id;
        }
      }
      r
  }

  class Store {
    var rows: seq<Listing>

    ghost predicate Valid()
      reads this
    {
      UniqueIds(rows)
    }

    constructor (initial: seq<Listing>)
      requires UniqueIds(initial)
      ensures Valid() && rows == initial
    {
      rows := initial;
    }

    /** `getAllListings()`: the whole table. */
    method GetAllListings() returns (all: seq<Listing>)
      ensures all == rows
    {
      all := rows;
    }

    /** `getListingById(id)`: null when no row has the id; with unique ids the
        row returned is the only one under it. */
    method GetListingById(id: int) returns (found: Option<Listing>)
      ensures found.Some? <==> HasId(rows, id)
      ensures found.Some? ==> found.value in rows && found.value.id == id
      ensures Valid() && found.Some? ==> forall k :: 0 <= k < |rows| && rows[k].id == id ==> rows[k] == found.value
    {
      found := FindById(rows, id);
      if found.Some? && Valid() {
        forall k | 0 <= k < |rows| && rows[k].id == id ensures rows[k] == found.value {
          var j :| 0 <= j < |rows| && rows[j] == found.value;
          assert rows[j].id == rows[k].id;
        }
      }
    }

    /** `addListing(listing)`. */
    method AddListing(listing: Listing)
      requires Valid()
      modifies this
      ensures Valid() && rows == Upsert(old(rows), listing)
    {
      rows := Upsert(rows, listing);
    }

    /** `addListingReturnId(listing)`: the row is stored under a fresh id, which is returned. */
    method AddListingReturnId(listing: Listing) returns (id: int)
      requires Valid()
      modifies this
      ensures Valid()
      ensures id > 0 && !HasId(old(rows), id)
      ensures rows == old(rows) + [listing.(id := id)]
      ensures FindById(rows, id) == Some(listing.(id := id))
    {
      id := MaxId(rows) + 1;
      FindAfterAppend(rows, listing.(id := id));
      rows := rows + [listing.(id := id)];
    }

    /** `updateListing(listing)`. */
    method UpdateListing(listing: Listing)
      requires Valid()
      modifies this
      ensures Valid() && rows == ReplaceById(old(rows), listing)
    {
      rows := ReplaceById(rows, listing);
    }
  }

  /** A row appended under an id no other row has is the one found under that id. */
  lemma {:induction false} FindAfterAppend(rows: seq<Listing>, listing: Listing)
    requires !HasId(rows, listing.id)
    ensures FindById(rows + [listing], listing.id) == Some(listing)
    decreases |rows|
  {
    if rows != [] {
      assert (rows + [listing])[1..] == rows[1..] + [listing];
      FindAfterAppend(rows[1..], listing);
    }
  }
}
