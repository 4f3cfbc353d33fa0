/** The passenger "nearby buses" screen: the route-number filter and the
    sort by distance from the user. `Array.prototype.sort` is stable, so
    with the comparator `a.distanceFromUser - b.distanceFromUser` the result
    is the filtered list ordered by distance, equal distances keeping their
    order; it is modelled as a stable insertion sort. The sort runs on the
    fresh array `filter` returns, so the screen's `buses` list is never
    reordered: here both are values. */
module NearbyBuses {
  import opened Seqs

  datatype CrowdLevel = Low | Medium | High

  datatype NearbyBus = NearbyBus(
    id: string, routeNumber: string, direction: string, distanceFromUser: real,
    crowdLevel: CrowdLevel, arrivalTime: string, latitude: real, longitude: real)

  const AllRoutes := "all"

  predicate OnRoute(b: NearbyBus, routeNumber: string) { b.routeNumber == routeNumber }

  /** `filteredBuses`: every bus for 'all', otherwise the buses whose route number is the filter. */
  function FilterBuses(buses: seq<NearbyBus>, selectedFilter: string): (r: seq<NearbyBus>)
    ensures |r| <= |buses|
    ensures selectedFilter != AllRoutes ==> forall i :: 0 <= i < |r| ==> r[i].routeNumber == selectedFilter
  {
    if selectedFilter == AllRoutes then buses else Filter(buses, b => OnRoute(b, selectedFilter))
  }

  lemma FilterBusesExactly(buses: seq<NearbyBus>, selectedFilter: string, b: NearbyBus)
    ensures selectedFilter == AllRoutes ==> FilterBuses(buses, selectedFilter) == buses
    ensures selectedFilter != AllRoutes ==>
      (b in FilterBuses(buses, selectedFilter) <==> b in buses && b.routeNumber == selectedFilter)
    ensures IsSubsequence(FilterBuses(buses, selectedFilter), buses)
  {
    FilterMembership(buses, x => OnRoute(x, selectedFilter), b);
    FilterIsSubsequence(buses, x => OnRoute(x, selectedFilter));
    if selectedFilter == AllRoutes {
      SubsequenceOfItself(buses);
    }
  }

  // ---------------------------------------------------------------------------
  // Sorting by distance

  predicate SortedByDistance(s: seq<NearbyBus>) {
    forall i, j :: 0 <= i < j < |s| ==> s[i].distanceFromUser <= s[j].distanceFromUser
  }

  /** Puts `b` before the first bus that is not strictly closer, i.e. ahead of equal distances. */
  function Insert(b: NearbyBus, sorted: seq<NearbyBus>): (r: seq<NearbyBus>)
    ensures |r| == |sorted| + 1
    ensures multiset(r) == multiset(sorted) + multiset{b}
  {
    if sorted == [] || b.distanceFromUser <= sorted[0].distanceFromUser then [b] + sorted
    else
      assert sorted == [sorted[0]] + sorted[1..];
      [sorted[0]] + Insert(b, sorted[1..])
  }

  /** The `sort` call on the filtered list; it neither adds nor drops a bus. */
  function SortByDistance(s: seq<NearbyBus>): (r: seq<NearbyBus>)
    ensures |r| == |s|
    ensures multiset(r) == multiset(s)
  {
    if s == [] then [] else
      assert s == [s[0]] + s[1..];
      Insert(s[0], SortByDistance(s[1..]))
  }

  lemma {:induction false} InsertSorted(b: NearbyBus, sorted: seq<NearbyBus>)
    requires SortedByDistance(sorted)
    ensures SortedByDistance(Insert(b, sorted))
    ensures multiset(Insert(b, sorted)) == multiset(sorted) + multiset{b}
  {
    if sorted != [] && b.distanceFromUser > sorted[0].distanceFromUser {
      InsertSorted(b, sorted[1..]);
      var rest := Insert(b, sorted[1..]);
      assert sorted == [sorted[0]] + sorted[1..];
      forall j | 0 <= j < |rest| ensures sorted[0].distanceFromUser <= rest[j].distanceFromUser {
        assert rest[j] in multiset(rest);
        assert rest[j] in multiset(sorted[1..]) + multiset{b};
        if rest[j] != b {
          assert rest[j] in sorted[1..];
        }
      }
    }
  }

  /** `sortedBuses` is ordered by non-decreasing distance and holds exactly the filtered buses. */
  lemma {:induction false} SortByDistanceCorrect(s: seq<NearbyBus>)
    ensures SortedByDistance(SortByDistance(s))
    ensures multiset(SortByDistance(s)) == multiset(s)
    ensures |SortByDistance(s)| == |s|
  {
    if s != [] {
      SortByDistanceCorrect(s[1..]);
      InsertSorted(s[0], SortByDistance(s[1..]));
      assert s == [s[0]] + s[1..];
    }
    assert |multiset(SortByDistance(s))| == |SortByDistance(s)|;
  }

  predicate IsAt(b: NearbyBus, d: real) { b.distanceFromUser == d }

  /** The buses at one distance. */
  function AtDistance(s: seq<NearbyBus>, d: real): seq<NearbyBus> {
    Filter(s, b => IsAt(b, d))
  }

  lemma {:induction false} InsertStable(b: NearbyBus, sorted: seq<NearbyBus>, d: real)
    requires SortedByDistance(sorted)
    ensures AtDistance(Insert(b, sorted), d) == AtDistance([b] + sorted, d)
  {
    if sorted != [] && b.distanceFromUser > sorted[0].distanceFromUser {
      var p := (x: NearbyBus) => IsAt(x, d);
      var head := sorted[0];
      var tail := sorted[1..];
      InsertStable(b, tail, d);
      var keepHead := if p(head) then [head] else [];
      var keepB := if p(b) then [b] else [];
      assert ([head] + Insert(b, tail))[1..] == Insert(b, tail);
      assert AtDistance(Insert(b, sorted), d) == keepHead + AtDistance(Insert(b, tail), d);
      assert ([b] + tail)[1..] == tail;
      assert AtDistance([b] + tail, d) == keepB + AtDistance(tail, d);
      assert AtDistance(sorted, d) == keepHead + AtDistance(tail, d);
      assert ([b] + sorted)[1..] == sorted;
      assert AtDistance([b] + sorted, d) == keepB + AtDistance(sorted, d);
      // head is strictly closer than b, so at most one of them is at distance d
      assert keepHead == [] || keepB == [];
    }
  }

  /** The sort is stable: the buses at any one distance keep their filtered order. */
  lemma {:induction false} SortByDistanceStable(s: seq<NearbyBus>, d: real)
    ensures AtDistance(SortByDistance(s), d) == AtDistance(s, d)
  {
    if s != [] {
      SortByDistanceStable(s[1..], d);
      SortByDistanceCorrect(s[1..]);
      InsertStable(s[0], SortByDistance(s[1..]), d);
      assert ([s[0]] + SortByDistance(s[1..]))[1..] == SortByDistance(s[1..]);
    }
  }

  /** `sortedBuses` for a filter choice: never more buses than the screen holds. */
  function SortedBuses(buses: seq<NearbyBus>, selectedFilter: string): (r: seq<NearbyBus>)
    ensures |r| <= |buses|
    ensures selectedFilter == AllRoutes ==> |r| == |buses|
    ensures multiset(r) == multiset(FilterBuses(buses, selectedFilter))
    ensures selectedFilter == AllRoutes ==> multiset(r) == multiset(buses)
  {
    SortByDistance(FilterBuses(buses, selectedFilter))
  }

  /** The screen's list: nearest first, holding exactly the buses the
      filter keeps (each as often as there), with buses at equal distance
      in the order the full list has them. */
  lemma SortedBusesCorrect(buses: seq<NearbyBus>, selectedFilter: string, b: NearbyBus, d: real)
    ensures SortedByDistance(SortedBuses(buses, selectedFilter))
    ensures multiset(SortedBuses(buses, selectedFilter)) == multiset(FilterBuses(buses, selectedFilter))
    ensures selectedFilter != AllRoutes ==>
      (b in SortedBuses(buses, selectedFilter) <==> b in buses && b.routeNumber == selectedFilter)
    ensures selectedFilter == AllRoutes ==> multiset(SortedBuses(buses, selectedFilter)) == multiset(buses)
    ensures AtDistance(SortedBuses(buses, selectedFilter), d) == AtDistance(FilterBuses(buses, selectedFilter), d)
  {
    var shown := FilterBuses(buses, selectedFilter);
    SortByDistanceCorrect(shown);
    SortByDistanceStable(shown, d);
    FilterBusesExactly(buses, selectedFilter, b);
    assert b in SortedBuses(buses, selectedFilter) <==> b in multiset(SortedBuses(buses, selectedFilter));
    assert b in shown <==> b in multiset(shown);
  }
}
