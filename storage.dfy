/** The browser-side listing store: one `localStorage` item holding the listings as
    JSON. The item is the field `item` of `ListingStore`; `JSON.parse` followed by
    `Array.isArray` is the parameter `decode`, and `JSON.stringify` is `encode`. The
    elements of a stored array are taken to be listings, as the source's cast asserts:
    nothing checks them one by one. */
module Storage {
  import opened Wrappers
  import opened Listing

  /** The `localStorage` key of the listings. */
  const StorageKey: string := "termsplain_exit_listings_v1"

  /** What `JSON.parse` gives for the stored text, as `loadListings` tells it apart;
      the elements of an array are read as listings without being checked. */
  datatype Decoded = NotAList | List(items: seq<ExitListing>)

  /** `JSON.parse` then `Array.isArray`, the elements cast to listings; `None` where
      the parse throws. */
  type Decoder = string -> Option<Decoded>

  /** `JSON.stringify` of a list of listings. */
  type Encoder = seq<ExitListing> -> string

  /** The list `loadListings` returns: empty without a window, without a stored item,
      for an empty item, for text that does not parse and for a value that is not a
      list. */
  function Loaded(hasWindow: bool, item: Option<string>, decode: Decoder): (r: seq<ExitListing>)
    ensures !hasWindow || item.None? || item == Some("") ==> r == []
    ensures r != [] ==> decode(item.value) == Some(List(r))
  {
    if !hasWindow || item.None? || item.value == "" then []
    else
      match decode(item.value)
      case Some(List(items)) => items
      case _ => []
  }

  /** The stored item after `loadListings`: removed when it does not parse. */
  function ItemAfterLoad(hasWindow: bool, item: Option<string>, decode: Decoder): (r: Option<string>)
    ensures r == item || r == None
  {
    if hasWindow && item.Some? && item.value != "" && decode(item.value).None? then None else item
  }

  /** `existing.filter((listing) => listing.id !== id)`. */
  function Without(listings: seq<ExitListing>, id: string): (r: seq<ExitListing>)
    ensures |r| <= |listings|
    ensures forall x :: x in r <==> x in listings && x.id != id
  {
    if |listings| == 0 then []
    else
      var rest := Without(listings[1..], id);
      assert forall x :: x in listings <==> x == listings[0] || x in listings[1..];
      if listings[0].id != id then [listings[0]] + rest else rest
  }

  /** `listings.find((listing) => listing.id === id) || null`. */
  function FindById(listings: seq<ExitListing>, id: string): (r: Option<ExitListing>)
    ensures r.Some? ==> r.value in listings && r.value.id == id
    ensures r.None? <==> forall x :: x in listings ==> x.id != id
  {
    if |listings| == 0 then None
    else if listings[0].id == id then Some(listings[0])
    else
      assert forall x :: x in listings <==> x == listings[0] || x in listings[1..];
      FindById(listings[1..], id)
  }

  /** The store: whether a browser window exists, whether the storage accepts writes,
      and the stored item. */
  class ListingStore {
    const hasWindow: bool
    var writable: bool
    var item: Option<string>

    constructor (hasWindow: bool, writable: bool, item: Option<string>)
      ensures this.hasWindow == hasWindow && this.writable == writable && this.item == item
    {
      this.hasWindow := hasWindow;
      this.writable := writable;
      this.item := item;
    }

    /** `loadListings()`. */
    method Load(decode: Decoder) returns (listings: seq<ExitListing>)
      modifies this
      ensures listings == Loaded(hasWindow, old(item), decode)
      ensures item == ItemAfterLoad(hasWindow, old(item), decode) && writable == old(writable)
    {
      if !hasWindow {
        return [];
      }
      var raw := item;
      if raw.None? || raw.value == "" {
        return [];
      }
      var parsed := decode(raw.value);
      if parsed.None? {
        item := None;
        return [];
      }
      listings := if parsed.value.List? then parsed.value.items else [];
    }

    /** `saveListings(listings)`: nothing happens without a window, and a write the
        storage refuses is dropped. */
    method Save(listings: seq<ExitListing>, encode: Encoder)
      modifies this
      ensures item == (if hasWindow && writable then Some(encode(listings)) else old(item))
      ensures writable == old(writable)
    {
      if !hasWindow {
        return;
      }
      if writable {
        item := Some(encode(listings));
      }
    }

    /** `addListing(listing)`: the new listing first, then the stored ones; no check
        for a listing with the same id. */
    method Add(listing: ExitListing, decode: Decoder, encode: Encoder) returns (next: seq<ExitListing>)
      modifies this
      ensures next == [listing] + Loaded(hasWindow, old(item), decode)
      ensures item == (if hasWindow && writable then Some(encode(next)) else ItemAfterLoad(hasWindow, old(item), decode))
      ensures writable == old(writable)
    {
      var existing := Load(decode);
      next := [listing] + existing;
      Save(next, encode);
    }

    /** `deleteListing(id)`: every listing with the id goes, the rest keep their order. */
    method Delete(id: string, decode: Decoder, encode: Encoder) returns (next: seq<ExitListing>)
      modifies this
      ensures next == Without(Loaded(hasWindow, old(item), decode), id)
      ensures item == (if hasWindow && writable then Some(encode(next)) else ItemAfterLoad(hasWindow, old(item), decode))
      ensures writable == old(writable)
    {
      var existing := Load(decode);
      next := Without(existing, id);
      Save(next, encode);
    }

    /** `getListing(id)`. */
    method Get(id: string, decode: Decoder) returns (r: Option<ExitListing>)
      modifies this
      ensures r == FindById(Loaded(hasWindow, old(item), decode), id)
      ensures item == ItemAfterLoad(hasWindow, old(item), decode) && writable == old(writable)
    {
      var listings := Load(decode);
      r := FindById(listings, id);
    }
  }

  // ------------------------------------------------------------------ lemmas

  /** Text that does not parse yields no listings and the item is removed. */
  lemma ParseFailureClears(item: string, decode: Decoder)
    requires item != "" && decode(item).None?
    ensures Loaded(true, Some(item), decode) == []
    ensures ItemAfterLoad(true, Some(item), decode) == None
  {
  }

  /** A stored value that is not a list yields no listings and is kept. */
  lemma NotAListIgnored(item: string, decode: Decoder)
    requires item != "" && decode(item) == Some(NotAList)
    ensures Loaded(true, Some(item), decode) == []
    ensures ItemAfterLoad(true, Some(item), decode) == Some(item)
  {
  }

  /** With a codec whose parse undoes its stringify, what was saved is loaded back. */
  lemma SavedIsLoaded(listings: seq<ExitListing>, decode: Decoder, encode: Encoder)
    requires encode(listings) != "" && decode(encode(listings)) == Some(List(listings))
    ensures Loaded(true, Some(encode(listings)), decode) == listings
    ensures ItemAfterLoad(true, Some(encode(listings)), decode) == Some(encode(listings))
  {
  }

  /** Removing by id distributes over concatenation, so the kept listings stay in
      their order. */
  lemma {:induction false} WithoutAppend(a: seq<ExitListing>, b: seq<ExitListing>, id: string)
    ensures Without(a + b, id) == Without(a, id) + Without(b, id)
  {
    if |a| > 0 {
      assert (a + b)[1..] == a[1..] + b;
      WithoutAppend(a[1..], b, id);
    } else {
      assert a + b == b;
    }
  }

  /** A list without the id is left as it is. */
  lemma {:induction false} WithoutAbsent(listings: seq<ExitListing>, id: string)
    requires forall i :: 0 <= i < |listings| ==> listings[i].id != id
    ensures Without(listings, id) == listings
  {
    if |listings| > 0 {
      WithoutAbsent(listings[1..], id);
      assert listings == [listings[0]] + listings[1..];
    }
  }

  /** `getListing` finds the first listing with the id. */
  lemma {:induction false} FindByIdIsFirst(listings: seq<ExitListing>, id: string) returns (i: nat)
    requires FindById(listings, id).Some?
    ensures i < |listings| && listings[i] == FindById(listings, id).value
    ensures forall j :: 0 <= j < i ==> listings[j].id != id
  {
    if listings[0].id == id {
      i := 0;
    } else {
      var k := FindByIdIsFirst(listings[1..], id);
      i := k + 1;
    }
  }

  /** After a successful delete, getting the id finds nothing. */
  lemma GetAfterDelete(listings: seq<ExitListing>, id: string)
    ensures FindById(Without(listings, id), id) == None
  {
  }

  /** Adding puts the listing first and keeps every stored one, duplicates included. */
  lemma AddKeepsExisting(listing: ExitListing, existing: seq<ExitListing>)
    ensures ([listing] + existing)[0] == listing && ([listing] + existing)[1..] == existing
    ensures FindById([listing] + existing, listing.id) == Some(listing)
  {
    assert ([listing] + existing)[1..] == existing;
  }
}
