/** The Exit Board's list view: the listings are filtered by city, maximum rent and
    housing type, then a copy is sorted in place by one of four orders. `Number(...)`
    is the parameter `number` (`None` for `NaN`), and `new Date(...).getTime()` is the
    parameter `time`. */
module ExitBoard {
  import opened Wrappers
  import opened Text
  import opened Listing

  datatype SortOption = RentLow | RentHigh | MoveIn | LeaseEnd

  /** `Number(text)`: a whole number, or `None` for `NaN`. */
  type NumberParser = string -> Option<int>

  /** `new Date(text).getTime()`. */
  type Clock = string -> int

  /** `xs.filter(p)`. */
  function Filter<T(!new)>(xs: seq<T>, p: T -> bool): (r: seq<T>)
    ensures |r| <= |xs|
    ensures forall x :: multiset(r)[x] == if p(x) then multiset(xs)[x] else 0
  {
    if |xs| == 0 then []
    else
      var init := Filter(xs[..|xs| - 1], p);
      assert xs == xs[..|xs| - 1] + [xs[|xs| - 1]];
      if p(xs[|xs| - 1]) then init + [xs[|xs| - 1]] else init
  }

  /** The city filter's query, when it is active. */
  function CityQuery(cityFilter: string): Option<string> {
    if Trim(cityFilter) != [] then Some(Lower(Trim(cityFilter))) else None
  }

  /** The rent bound, when the filter is active: a non-empty input that is a number. */
  function RentBound(maxRent: string, number: NumberParser): Option<int> {
    if maxRent != [] && number(maxRent).Some? then number(maxRent) else None
  }

  /** A listing passes every active filter. */
  predicate Passes(l: ExitListing, cityFilter: string, maxRent: string, housingFilter: string, number: NumberParser) {
    && (CityQuery(cityFilter).Some? ==> Includes(Lower(l.city), CityQuery(cityFilter).value))
    && (RentBound(maxRent, number).Some? ==> l.rent <= RentBound(maxRent, number).value)
    && (housingFilter != [] ==> HousingName(l.housingType) == housingFilter)
  }

  /** The filter chain of `filteredAndSortedListings`, one filter after the other. */
  function Filtered(listings: seq<ExitListing>, cityFilter: string, maxRent: string, housingFilter: string, number: NumberParser): seq<ExitListing> {
    var byCity :=
      if CityQuery(cityFilter).Some? then
        Filter(listings, (l: ExitListing) => Includes(Lower(l.city), CityQuery(cityFilter).value))
      else listings;
    var byRent :=
      if RentBound(maxRent, number).Some? then
        Filter(byCity, (l: ExitListing) => l.rent <= RentBound(maxRent, number).value)
      else byCity;
    if housingFilter != [] then Filter(byRent, (l: ExitListing) => HousingName(l.housingType) == housingFilter)
    else byRent
  }

  /** The sort key of each order; `rent-high` compares `b.rent - a.rent`, which is
      ascending order of the negated rent. */
  function SortKey(sortBy: SortOption, time: Clock): ExitListing -> int {
    match sortBy
    case RentLow => (l: ExitListing) => l.rent
    case RentHigh => (l: ExitListing) => -l.rent
    case MoveIn => (l: ExitListing) => time(l.earliestMoveInDate)
    case LeaseEnd => (l: ExitListing) => time(l.leaseEndDate)
  }

  predicate SortedBy(s: seq<ExitListing>, key: ExitListing -> int) {
    forall p, q :: 0 <= p < q < |s| ==> key(s[p]) <= key(s[q])
  }

  /** The listings of `s` whose key is `k`, in their order in `s`. */
  function KeyClass(s: seq<ExitListing>, key: ExitListing -> int, k: int): seq<ExitListing> {
    if |s| == 0 then []
    else KeyClass(s[..|s| - 1], key, k) + (if key(s[|s| - 1]) == k then [s[|s| - 1]] else [])
  }

  /** `t` holds, for every key, the same listings as `s` in the same order: the order
      a stable sort keeps among equal keys. */
  ghost predicate SameKeyOrder(s: seq<ExitListing>, t: seq<ExitListing>, key: ExitListing -> int) {
    forall k :: KeyClass(s, key, k) == KeyClass(t, key, k)
  }

  /** `sorted.sort(compare)` on the copied array: an insertion sort by `key`. */
  method SortInPlace(a: array<ExitListing>, key: ExitListing -> int)
    modifies a
    ensures SortedBy(a[..], key)
    ensures multiset(a[..]) == multiset(old(a[..]))
    ensures SameKeyOrder(a[..], old(a[..]), key)
  {
    for i := 0 to a.Length
      invariant SortedBy(a[..i], key)
      invariant multiset(a[..]) == multiset(old(a[..]))
      invariant SameKeyOrder(a[..], old(a[..]), key)
    {
      Insert(a, i, key);
    }
    assert a[..a.Length] == a[..];
  }

  /** One step of the insertion sort: `a[i]` moves left past the larger keys. */
  method Insert(a: array<ExitListing>, i: nat, key: ExitListing -> int)
    requires i < a.Length && SortedBy(a[..i], key)
    modifies a
    ensures SortedBy(a[..i + 1], key)
    ensures multiset(a[..]) == multiset(old(a[..]))
    ensures SameKeyOrder(a[..], old(a[..]), key)
  {
    var j := i;
    while j > 0 && key(a[j - 1]) > key(a[j])
      invariant 0 <= j <= i
      invariant forall p, q :: 0 <= p < q <= i && p != j && q != j ==> key(a[p]) <= key(a[q])
      invariant forall q :: j < q <= i ==> key(a[j]) <= key(a[q])
      invariant multiset(a[..]) == multiset(old(a[..]))
      invariant SameKeyOrder(a[..], old(a[..]), key)
    {
      SwapDown(a, j, key, old(a[..]));
      j := j - 1;
    }
  }

  /** Exchanges `a[j - 1]` and `a[j]`. */
  method Swap(a: array<ExitListing>, j: nat)
    requires 0 < j < a.Length
    modifies a
    ensures a[j - 1] == old(a[j]) && a[j] == old(a[j - 1])
    ensures forall k :: 0 <= k < a.Length && k != j - 1 && k != j ==> a[k] == old(a[k])
    ensures multiset(a[..]) == multiset(old(a[..]))
  {
    a[j - 1], a[j] := a[j], a[j - 1];
  }

  /** The swap of an insertion step: `a[j - 1]` has the larger key, so the exchange
      keeps the order within every key. */
  method SwapDown(a: array<ExitListing>, j: nat, key: ExitListing -> int, ghost original: seq<ExitListing>)
    requires 0 < j < a.Length && key(a[j - 1]) > key(a[j])
    requires SameKeyOrder(a[..], original, key)
    modifies a
    ensures a[j - 1] == old(a[j]) && a[j] == old(a[j - 1])
    ensures forall k :: 0 <= k < a.Length && k != j - 1 && k != j ==> a[k] == old(a[k])
    ensures multiset(a[..]) == multiset(old(a[..]))
    ensures SameKeyOrder(a[..], original, key)
  {
    ghost var before := a[..];
    Swap(a, j);
    assert a[..] == before[j - 1 := before[j]][j := before[j - 1]];
    SwapKeepsKeyOrder(before, j, key);
    SameKeyOrderTrans(a[..], before, original, key);
  }

  /** `filteredAndSortedListings`: the listings passing the active filters, sorted by
      the chosen order. The input is a value, so it is left as it was. */
  method FilterAndSort(listings: seq<ExitListing>, cityFilter: string, maxRent: string, housingFilter: string,
                       sortBy: SortOption, number: NumberParser, time: Clock) returns (result: seq<ExitListing>)
    ensures multiset(result) == multiset(Filtered(listings, cityFilter, maxRent, housingFilter, number))
    ensures SortedBy(result, SortKey(sortBy, time))
    ensures SameKeyOrder(result, Filtered(listings, cityFilter, maxRent, housingFilter, number), SortKey(sortBy, time))
  {
    var filtered := Filtered(listings, cityFilter, maxRent, housingFilter, number);
    var sorted := new ExitListing[|filtered|](i requires 0 <= i < |filtered| => filtered[i]);
    assert sorted[..] == filtered;
    SortInPlace(sorted, SortKey(sortBy, time));
    result := sorted[..];
  }

  // ------------------------------------------------------------------ lemmas

  /** Taking a key's listings distributes over concatenation. */
  lemma {:induction false} KeyClassAppend(xs: seq<ExitListing>, ys: seq<ExitListing>, key: ExitListing -> int, k: int)
    ensures KeyClass(xs + ys, key, k) == KeyClass(xs, key, k) + KeyClass(ys, key, k)
    decreases |ys|
  {
    if |ys| > 0 {
      var init := ys[..|ys| - 1];
      assert (xs + ys)[..|xs + ys| - 1] == xs + init;
      assert (xs + ys)[|xs + ys| - 1] == ys[|ys| - 1];
      KeyClassAppend(xs, init, key, k);
    } else {
      assert xs + ys == xs;
    }
  }

  /** Two neighbours with different keys can be exchanged without changing any key's
      listings. */
  lemma SwapKeyClass(pre: seq<ExitListing>, x: ExitListing, y: ExitListing, post: seq<ExitListing>,
                     key: ExitListing -> int, k: int)
    requires key(x) != key(y)
    ensures KeyClass(pre + [x, y] + post, key, k) == KeyClass(pre + [y, x] + post, key, k)
  {
    KeyClassAppend(pre + [x, y], post, key, k);
    KeyClassAppend(pre, [x, y], key, k);
    KeyClassAppend(pre + [y, x], post, key, k);
    KeyClassAppend(pre, [y, x], key, k);
    assert [x, y][..1] == [x];
    assert [y, x][..1] == [y];
  }

  lemma SameKeyOrderTrans(r: seq<ExitListing>, s: seq<ExitListing>, t: seq<ExitListing>, key: ExitListing -> int)
    requires SameKeyOrder(r, s, key) && SameKeyOrder(s, t, key)
    ensures SameKeyOrder(r, t, key)
  {
  }

  /** Exchanging two neighbours with different keys keeps the order within every key,
      which is why the insertion sort is stable. */
  lemma SwapKeepsKeyOrder(s: seq<ExitListing>, j: nat, key: ExitListing -> int)
    requires 0 < j < |s| && key(s[j - 1]) != key(s[j])
    ensures SameKeyOrder(s[j - 1 := s[j]][j := s[j - 1]], s, key)
  {
    var t := s[j - 1 := s[j]][j := s[j - 1]];
    var pre, post := s[..j - 1], s[j + 1..];
    assert s == pre + [s[j - 1], s[j]] + post;
    assert t == pre + [s[j], s[j - 1]] + post;
    forall k
      ensures KeyClass(t, key, k) == KeyClass(s, key, k)
    {
      SwapKeyClass(pre, s[j - 1], s[j], post, key, k);
    }
  }

  /** The filter chain keeps exactly the listings passing every active filter, each as
      often as it occurs in the input. */
  lemma FilteredIsPassing(listings: seq<ExitListing>, cityFilter: string, maxRent: string, housingFilter: string,
                          number: NumberParser, l: ExitListing)
    ensures multiset(Filtered(listings, cityFilter, maxRent, housingFilter, number))[l] ==
              if Passes(l, cityFilter, maxRent, housingFilter, number) then multiset(listings)[l] else 0
  {
  }

  /** An inactive filter keeps everything: a blank city query, an empty or non-numeric
      rent bound and an empty housing type. */
  lemma InactiveFiltersKeepAll(listings: seq<ExitListing>, cityFilter: string, maxRent: string, number: NumberParser)
    requires Trim(cityFilter) == []
    requires maxRent == [] || number(maxRent).None?
    ensures Filtered(listings, cityFilter, maxRent, "", number) == listings
  {
  }

  /** What each order means for the sorted list. */
  lemma SortOrders(s: seq<ExitListing>, sortBy: SortOption, time: Clock)
    requires SortedBy(s, SortKey(sortBy, time))
    ensures sortBy == RentLow ==> forall p, q :: 0 <= p < q < |s| ==> s[p].rent <= s[q].rent
    ensures sortBy == RentHigh ==> forall p, q :: 0 <= p < q < |s| ==> s[p].rent >= s[q].rent
    ensures sortBy == MoveIn ==>
              forall p, q :: 0 <= p < q < |s| ==> time(s[p].earliestMoveInDate) <= time(s[q].earliestMoveInDate)
    ensures sortBy == LeaseEnd ==>
              forall p, q :: 0 <= p < q < |s| ==> time(s[p].leaseEndDate) <= time(s[q].leaseEndDate)
  {
    var key := SortKey(sortBy, time);
    forall p, q | 0 <= p < q < |s|
      ensures key(s[p]) <= key(s[q])
    {
    }
  }

  /** The rent bound is inclusive: a listing at exactly the bound stays. */
  lemma RentBoundInclusive(l: ExitListing, maxRent: string, number: NumberParser)
    requires maxRent != [] && number(maxRent) == Some(l.rent)
    ensures Passes(l, "", maxRent, "", number)
  {
  }
}
