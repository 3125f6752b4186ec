/**
 * The establishment list: the four orderings offered by the sort bar, the
 * memoised sorted copy of the input, and the selected sort key.
 */
module EstablishmentList {

  import opened Wrappers
  import opened Types
  import opened StableSort

  /** The slots of a list that are still bookable, in their order. */
  function AvailableSlots(slots: seq<TimeSlot>): (r: seq<TimeSlot>)
    ensures |r| <= |slots|
    ensures forall t :: t in r <==> t in slots && t.available
    ensures forall t :: multiset(r)[t] == if t.available then multiset(slots)[t] else 0
  {
    if slots == [] then []
    else
      var rest := AvailableSlots(slots[1..]);
      assert slots == [slots[0]] + slots[1..];
      assert forall t :: t in slots <==> t == slots[0] || t in slots[1..];
      if slots[0].available then [slots[0]] + rest else rest
  }

  /** `a.availableSlots.filter(slot => slot.available).length`. */
  function AvailableCount(e: Establishment): nat {
    |AvailableSlots(e.availableSlots)|
  }

  /** `a.distance || 0`: a missing distance counts as zero. */
  function DistanceOrZero(e: Establishment): (d: real)
    ensures e.distance.None? ==> d == 0.0
    ensures e.distance.Some? ==> d == e.distance.value
  {
    match e.distance
    case Some(km) => km
    case None => 0.0
  }

  /** The `priceOrder` table. */
  function PriceOrder(p: PriceRange): int {
    match p
    case Budget => 1
    case Moderate => 2
    case Expensive => 3
    case VeryExpensive => 4
  }

  /** The comparator handed to `sort` for each sort key: negative puts `a` first. */
  function Compare(sort: SortOption, a: Establishment, b: Establishment): (c: real) {
    match sort
    case Distance => DistanceOrZero(a) - DistanceOrZero(b)
    case Rating => b.rating - a.rating
    case Price => (PriceOrder(a.priceRange) - PriceOrder(b.priceRange)) as real
    case Availability => (AvailableCount(b) - AvailableCount(a)) as real
  }

  /**
   * The number whose ascending order each comparator sorts by: every
   * comparator is the difference of this key, so the sort is a key sort.
   */
  function SortKey(sort: SortOption, e: Establishment): real {
    match sort
    case Distance => DistanceOrZero(e)
    case Rating => -e.rating
    case Price => PriceOrder(e.priceRange) as real
    case Availability => -(AvailableCount(e) as real)
  }

  function KeyFor(sort: SortOption): Establishment -> real {
    e => SortKey(sort, e)
  }

  /** Each comparator is `key(a) - key(b)` for the key of its sort option. */
  lemma CompareIsKeyDifference(sort: SortOption, a: Establishment, b: Establishment)
    ensures Compare(sort, a, b) == KeyFor(sort)(a) - KeyFor(sort)(b)
  {
  }

  /** The price table is strictly increasing from `$` to `$$$$`. */
  lemma PriceOrderIncreasing()
    ensures PriceOrder(Budget) < PriceOrder(Moderate) < PriceOrder(Expensive) < PriceOrder(VeryExpensive)
  {
  }

  /**
   * `sortedEstablishments`: copies the list and sorts the copy in place with the
   * comparator of `currentSort`. The input array is not modified (the method
   * may not write to it). The result is a permutation of the input, ordered
   * by the selected key, with ties in input order.
   */
  method SortedEstablishments(establishments: array<Establishment>, currentSort: SortOption)
    returns (sorted: seq<Establishment>)
    ensures sorted == SortBy(establishments[..], KeyFor(currentSort))
    ensures multiset(sorted) == multiset(establishments[..])
    ensures forall i, j :: 0 <= i < j < |sorted| ==> Compare(currentSort, sorted[i], sorted[j]) <= 0.0
    ensures forall k :: KeyClass(sorted, KeyFor(currentSort), k)
                        == KeyClass(establishments[..], KeyFor(currentSort), k)
    ensures currentSort == Distance ==>
              forall i, j :: 0 <= i < j < |sorted| ==> DistanceOrZero(sorted[i]) <= DistanceOrZero(sorted[j])
    ensures currentSort == Rating ==>
              forall i, j :: 0 <= i < j < |sorted| ==> sorted[i].rating >= sorted[j].rating
    ensures currentSort == Price ==>
              forall i, j :: 0 <= i < j < |sorted| ==>
                PriceOrder(sorted[i].priceRange) <= PriceOrder(sorted[j].priceRange)
    ensures currentSort == Availability ==>
              forall i, j :: 0 <= i < j < |sorted| ==> AvailableCount(sorted[i]) >= AvailableCount(sorted[j])
  {
    var input := establishments[..];
    var copy := new Establishment[|input|](i requires 0 <= i < |input| => input[i]);
    assert copy[..] == input;
    SortInPlace(copy, KeyFor(currentSort));
    sorted := copy[..];
    SortBySpec(input, KeyFor(currentSort));
  }

  /** The list screen's selected sort key. */
  class EstablishmentListView {
    var currentSort: SortOption

    /** The list opens sorted by distance. */
    constructor ()
      ensures currentSort == Distance
    {
      currentSort := Distance;
    }

    /** `handleSortChange`: the sort bar replaces the key. */
    method HandleSortChange(sort: SortOption)
      modifies this
      ensures currentSort == sort
    {
      currentSort := sort;
    }
  }
}
