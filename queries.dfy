/**
 * The query and aggregation helpers of utils/storage.ts over lists of
 * shelters: filtering by criteria, text search, sorting by distance,
 * grouping by city and summary statistics.
 */
module Queries {
  import opened Wrappers
  import opened Text
  import opened ShelterTypes
  import opened Seqs
  import opened Normalizer

  // ---------- filterShelters ----------

  /** A text criterion is applied only when it is given and non-empty (truthy). */
  predicate Applies(criterion: Option<string>)
  {
    criterion.Some? && criterion.value != ""
  }

  /** `filters.maxDistance && shelter.distance && shelter.distance > filters.maxDistance`. */
  predicate TooFar(s: Shelter, maxDistance: Option<real>)
  {
    && maxDistance.Some? && maxDistance.value != 0.0
    && s.distance.Some? && s.distance.value != 0.0
    && s.distance.value > maxDistance.value
  }

  predicate MatchesFilters(f: SearchFilters, s: Shelter)
  {
    && !TooFar(s, f.maxDistance)
    && (Applies(f.shelterType) ==> s.shelterType == f.shelterType.value)
    && (Applies(f.category) ==> s.category == f.category.value)
    && (Applies(f.city) ==> s.city == f.city.value)
  }

  /** The callback handed to `filter`. */
  function Matcher(f: SearchFilters): Shelter -> bool
  {
    (s: Shelter) => MatchesFilters(f, s)
  }

  /**
   * `filterShelters`: the shelters meeting every applied criterion, in their
   * order; a given type, category or city must match exactly.
   */
  function FilterShelters(shelters: seq<Shelter>, f: SearchFilters): (r: seq<Shelter>)
    ensures Sublist(r, shelters)
    ensures forall s :: s in r <==> s in shelters && MatchesFilters(f, s)
    ensures forall s :: s in r && Applies(f.shelterType) ==> s.shelterType == f.shelterType.value
    ensures forall s :: s in r && Applies(f.city) ==> s.city == f.city.value
  {
    Filter(Matcher(f), shelters)
  }

  /** Every copy of a matching shelter is kept, and no copy of any other. */
  lemma FilterSheltersCount(shelters: seq<Shelter>, f: SearchFilters, s: Shelter)
    ensures multiset(FilterShelters(shelters, f))[s] == if MatchesFilters(f, s) then multiset(shelters)[s] else 0
  {
    FilterCount(Matcher(f), shelters, s);
  }

  /** With no maximum distance (or 0) the distances play no part. */
  lemma FalsyMaxDistanceIgnored(shelters: seq<Shelter>, f: SearchFilters)
    requires f.maxDistance.None? || f.maxDistance.value == 0.0
    ensures forall s :: s in shelters ==> (s in FilterShelters(shelters, f) <==> s in FilterShelters(shelters, f.(maxDistance := None)))
    ensures FilterShelters(shelters, f) == FilterShelters(shelters, f.(maxDistance := None))
  {
    FilterAgree(Matcher(f), Matcher(f.(maxDistance := None)), shelters);
  }

  /** A shelter without a distance (or at distance 0) is never dropped for being too far. */
  lemma NoDistanceNeverTooFar(shelters: seq<Shelter>, f: SearchFilters, s: Shelter)
    requires s in shelters
    requires s.distance.None? || s.distance.value == 0.0
    ensures s in FilterShelters(shelters, f) <==> s in FilterShelters(shelters, f.(maxDistance := None))
  {
  }

  /** Empty filters keep every shelter. */
  lemma {:induction false} NoFiltersKeepAll(shelters: seq<Shelter>)
    ensures FilterShelters(shelters, SearchFilters(None, None, None, None)) == shelters
  {
    FilterAll(Matcher(SearchFilters(None, None, None, None)), shelters);
  }

  // ---------- searchShelters ----------

  /** `query.toLowerCase().trim()`. */
  function NormalizedQuery(query: string): string
  {
    Trim(Lower(query))
  }

  /** Some searched field, lower-cased, contains the normalised query. */
  predicate MatchesQuery(s: Shelter, q: string)
  {
    || Contains(Lower(s.name), q) || Contains(Lower(s.address), q)
    || Contains(Lower(s.city), q) || Contains(Lower(s.operator), q)
  }

  /**
   * `searchShelters`: a blank query returns the list itself; otherwise the
   * shelters whose name, address, city or operator contains the query,
   * ignoring case, in their order.
   */
  function SearchShelters(shelters: seq<Shelter>, query: string): (r: seq<Shelter>)
    ensures NormalizedQuery(query) == "" ==> r == shelters
    ensures Sublist(r, shelters)
    ensures NormalizedQuery(query) != "" ==>
              forall s :: s in r <==> s in shelters && MatchesQuery(s, NormalizedQuery(query))
  {
    var q := NormalizedQuery(query);
    if q == "" then
      SublistOfSelf(shelters);
      shelters
    else
      Filter((s: Shelter) => MatchesQuery(s, q), shelters)
  }

  /** A search keeps every copy of a matching shelter, and no copy of any other. */
  lemma SearchSheltersCount(shelters: seq<Shelter>, query: string, s: Shelter)
    requires NormalizedQuery(query) != ""
    ensures multiset(SearchShelters(shelters, query))[s]
            == if MatchesQuery(s, NormalizedQuery(query)) then multiset(shelters)[s] else 0
  {
    var q := NormalizedQuery(query);
    FilterCount((x: Shelter) => MatchesQuery(x, q), shelters, s);
  }

  /** The search ignores the case of the query. */
  lemma SearchIgnoresQueryCase(shelters: seq<Shelter>, query: string)
    ensures SearchShelters(shelters, Lower(query)) == SearchShelters(shelters, query)
  {
    LowerIdempotent(query);
  }

  /** Searching for a shelter's own name, in any case and with spaces around, finds it. */
  lemma SearchFindsOwnName(shelters: seq<Shelter>, s: Shelter, query: string)
    requires s in shelters
    requires NormalizedQuery(query) == Lower(s.name) != ""
    ensures s in SearchShelters(shelters, query)
  {
    assert OccursAt(Lower(s.name), Lower(s.name), 0);
  }

  // ---------- sortSheltersByDistance ----------

  /** `shelter.distance || 0`. */
  function DistanceKey(s: Shelter): real
  {
    match s.distance
    case Some(d) => d
    case None => 0.0
  }

  predicate SortedByDistance(s: seq<Shelter>)
  {
    forall i, j :: 0 <= i < j < |s| ==> DistanceKey(s[i]) <= DistanceKey(s[j])
  }

  /** Puts `x` after every element of `s` whose key is not greater than its own. */
  function InsertLast(s: seq<Shelter>, x: Shelter): (r: seq<Shelter>)
    ensures |r| == |s| + 1
  {
    if s == [] || DistanceKey(s[|s| - 1]) <= DistanceKey(x) then s + [x]
    else InsertLast(s[..|s| - 1], x) + [s[|s| - 1]]
  }

  /** The stable ascending order of `s` by distance, as insertion from the left builds it. */
  function SortByDistance(s: seq<Shelter>): (r: seq<Shelter>)
    ensures |r| == |s|
  {
    if s == [] then [] else InsertLast(SortByDistance(s[..|s| - 1]), s[|s| - 1])
  }

  /** The elements of `s` with key `k`, in their order. */
  function WithKey(k: real, s: seq<Shelter>): seq<Shelter>
  {
    if s == [] then []
    else WithKey(k, s[..|s| - 1]) + if DistanceKey(s[|s| - 1]) == k then [s[|s| - 1]] else []
  }

  /** Insertion adds `x` to the multiset of elements. */
  lemma {:induction false} InsertLastPermutes(s: seq<Shelter>, x: Shelter)
    ensures multiset(InsertLast(s, x)) == multiset(s) + multiset{x}
  {
    if s != [] && DistanceKey(s[|s| - 1]) > DistanceKey(x) {
      var init := s[..|s| - 1];
      InsertLastPermutes(init, x);
      assert s == init + [s[|s| - 1]];
    }
  }

  /** Insertion into a sorted sequence keeps it sorted. */
  lemma {:induction false} InsertLastSorted(s: seq<Shelter>, x: Shelter)
    requires SortedByDistance(s)
    ensures SortedByDistance(InsertLast(s, x))
  {
    if s != [] && DistanceKey(s[|s| - 1]) > DistanceKey(x) {
      var init := s[..|s| - 1];
      var last := s[|s| - 1];
      InsertLastSorted(init, x);
      InsertLastPermutes(init, x);
      var r := InsertLast(init, x);
      forall i | 0 <= i < |r|
        ensures DistanceKey(r[i]) <= DistanceKey(last)
      {
        assert r[i] in multiset(r);
        assert r[i] in init || r[i] == x;
      }
      assert InsertLast(s, x) == r + [last];
    }
  }

  /** Inserting `x` appends it to its own key's run and leaves every other run alone. */
  lemma {:induction false} InsertLastStable(s: seq<Shelter>, x: Shelter, k: real)
    ensures WithKey(k, InsertLast(s, x)) == WithKey(k, s) + if DistanceKey(x) == k then [x] else []
  {
    if s == [] || DistanceKey(s[|s| - 1]) <= DistanceKey(x) {
      assert (s + [x])[..|s|] == s;
    } else {
      var init := s[..|s| - 1];
      var last := s[|s| - 1];
      InsertLastStable(init, x, k);
      var r := InsertLast(init, x) + [last];
      assert r[..|r| - 1] == InsertLast(init, x);
      if DistanceKey(x) == k {
        assert DistanceKey(last) != k;
      }
    }
  }

  /** The sort yields a non-decreasing permutation of its input. */
  lemma {:induction false} SortByDistanceSorted(s: seq<Shelter>)
    ensures SortedByDistance(SortByDistance(s))
    ensures multiset(SortByDistance(s)) == multiset(s)
  {
    if s != [] {
      var init := s[..|s| - 1];
      SortByDistanceSorted(init);
      InsertLastSorted(SortByDistance(init), s[|s| - 1]);
      InsertLastPermutes(SortByDistance(init), s[|s| - 1]);
      assert s == init + [s[|s| - 1]];
    }
  }

  /** The sort is stable: shelters at equal distance keep their relative order. */
  lemma {:induction false} SortByDistanceStable(s: seq<Shelter>, k: real)
    ensures WithKey(k, SortByDistance(s)) == WithKey(k, s)
  {
    if s != [] {
      var init := s[..|s| - 1];
      SortByDistanceStable(init, k);
      InsertLastStable(SortByDistance(init), s[|s| - 1], k);
    }
  }

  /**
   * Where `InsertLast` puts `x`: after the prefix up to `j` when everything
   * from `j` on has a greater key and the element before `j` does not.
   */
  lemma {:induction false} InsertLastAt(sorted: seq<Shelter>, j: nat, x: Shelter)
    requires j <= |sorted|
    requires j == 0 || DistanceKey(sorted[j - 1]) <= DistanceKey(x)
    requires forall k :: j <= k < |sorted| ==> DistanceKey(sorted[k]) > DistanceKey(x)
    ensures InsertLast(sorted, x) == sorted[..j] + [x] + sorted[j..]
    decreases |sorted| - j
  {
    if j < |sorted| {
      var init := sorted[..|sorted| - 1];
      InsertLastAt(init, j, x);
      assert init[..j] == sorted[..j];
      assert sorted[j..] == init[j..] + [sorted[|sorted| - 1]];
    } else {
      assert sorted[..j] == sorted;
    }
  }

  /** The array contents after the shift and the final store. */
  lemma Assembled(arr: seq<Shelter>, sorted: seq<Shelter>, j: nat, x: Shelter)
    requires j <= |sorted| < |arr|
    requires forall k :: 0 <= k < j ==> arr[k] == sorted[k]
    requires arr[j] == x
    requires forall k :: j < k <= |sorted| ==> arr[k] == sorted[k - 1]
    ensures arr[..|sorted| + 1] == sorted[..j] + [x] + sorted[j..]
  {
  }

  /**
   * One step of the insertion sort: `a[i]` moves left past every earlier
   * element with a greater key; what lies beyond `i` is untouched.
   */
  method InsertInto(a: array<Shelter>, i: nat)
    requires i < a.Length
    modifies a
    ensures a[..i + 1] == InsertLast(old(a[..i]), old(a[i]))
    ensures a[i + 1..] == old(a[i + 1..])
  {
    ghost var sorted := a[..i];
    var x := a[i];
    var j := i;
    while j > 0 && DistanceKey(a[j - 1]) > DistanceKey(x)
      invariant 0 <= j <= i
      invariant forall k :: 0 <= k < j ==> a[k] == sorted[k]
      invariant forall k :: j < k <= i ==> a[k] == sorted[k - 1]
      invariant forall k :: j <= k < i ==> DistanceKey(sorted[k]) > DistanceKey(x)
      invariant a[i + 1..] == old(a[i + 1..])
      decreases j
    {
      a[j] := a[j - 1];
      j := j - 1;
    }
    a[j] := x;
    InsertLastAt(sorted, j, x);
    Assembled(a[..], sorted, j, x);
  }

  /**
   * `sortSheltersByDistance`: sorts the array in place, stably and
   * ascending by distance with a missing distance read as 0, and returns
   * the same array.
   */
  method SortSheltersByDistance(a: array<Shelter>) returns (b: array<Shelter>)
    modifies a
    ensures b == a
    ensures a[..] == SortByDistance(old(a[..]))
  {
    ghost var s := a[..];
    for i := 0 to a.Length
      invariant a[..i] == SortByDistance(s[..i])
      invariant a[i..] == s[i..]
    {
      assert a[i] == s[i];
      InsertInto(a, i);
      assert s[..i + 1][..i] == s[..i];
    }
    assert s[..a.Length] == s;
    b := a;
  }

  // ---------- groupSheltersByCity ----------

  /** `shelter.city || 'Неизвестен град'`. */
  function CityKey(s: Shelter): string
  {
    if s.city == "" then UnknownCity else s.city
  }

  function CityKeys(shelters: seq<Shelter>): (r: seq<string>)
    ensures |r| == |shelters|
    ensures forall i :: 0 <= i < |shelters| ==> r[i] == CityKey(shelters[i])
  {
    if shelters == [] then [] else CityKeys(shelters[..|shelters| - 1]) + [CityKey(shelters[|shelters| - 1])]
  }

  /** The group of city `c`: its shelters in their order. */
  function InCity(shelters: seq<Shelter>, c: string): seq<Shelter>
  {
    Filter((s: Shelter) => CityKey(s) == c, shelters)
  }

  /** One more shelter joins the group of its own city and no other. */
  lemma InCitySnoc(shelters: seq<Shelter>, x: Shelter, c: string)
    ensures InCity(shelters + [x], c) == InCity(shelters, c) + if CityKey(x) == c then [x] else []
  {
    FilterSnoc((s: Shelter) => CityKey(s) == c, shelters, x);
  }

  lemma CityKeysSnoc(shelters: seq<Shelter>, x: Shelter)
    ensures multiset(CityKeys(shelters + [x])) == multiset(CityKeys(shelters)) + multiset{CityKey(x)}
  {
    assert (shelters + [x])[..|shelters|] == shelters;
    assert CityKeys(shelters + [x]) == CityKeys(shelters) + [CityKey(x)];
  }

  /** A group is as large as the number of shelters with that city. */
  lemma {:induction false} InCityCount(shelters: seq<Shelter>, c: string)
    ensures |InCity(shelters, c)| == multiset(CityKeys(shelters))[c]
  {
    if shelters != [] {
      var init := shelters[..|shelters| - 1];
      var last := shelters[|shelters| - 1];
      assert shelters == init + [last];
      InCityCount(init, c);
      InCitySnoc(init, last, c);
      CityKeysSnoc(init, last);
    }
  }

  /** `groups` holds one group per city that occurs in `shelters`, with exactly that city's shelters. */
  ghost predicate IsGrouping(shelters: seq<Shelter>, groups: map<string, seq<Shelter>>)
  {
    && (forall c :: c in groups <==> c in CityKeys(shelters))
    && (forall c :: c in groups ==> groups[c] == InCity(shelters, c))
  }

  /** `(groups[city] ||= []).push(shelter)` keeps the grouping exact for one more shelter. */
  lemma GroupJoin(shelters: seq<Shelter>, x: Shelter, groups: map<string, seq<Shelter>>)
    requires IsGrouping(shelters, groups)
    ensures var city := CityKey(x);
            IsGrouping(shelters + [x], groups[city := (if city in groups then groups[city] else []) + [x]])
  {
    var city := CityKey(x);
    var next := groups[city := (if city in groups then groups[city] else []) + [x]];
    CityKeysJoin(shelters, x);
    forall c | c in next
      ensures next[c] == InCity(shelters + [x], c)
    {
      GroupEntryJoin(shelters, x, groups, c);
    }
  }

  lemma CityKeysJoin(shelters: seq<Shelter>, x: Shelter)
    ensures CityKeys(shelters + [x]) == CityKeys(shelters) + [CityKey(x)]
  {
    assert (shelters + [x])[..|shelters|] == shelters;
  }

  /** One group after the push: its own city's group gains the shelter, any other is unchanged. */
  lemma GroupEntryJoin(shelters: seq<Shelter>, x: Shelter, groups: map<string, seq<Shelter>>, c: string)
    requires IsGrouping(shelters, groups)
    requires c in groups || c == CityKey(x)
    ensures var city := CityKey(x);
            groups[city := (if city in groups then groups[city] else []) + [x]][c] == InCity(shelters + [x], c)
  {
    InCitySnoc(shelters, x, c);
    if c !in groups {
      InCityCount(shelters, c);
    }
  }

  function GroupSizes(groups: map<string, seq<Shelter>>): (r: map<string, nat>)
    ensures r.Keys == groups.Keys
  {
    map c | c in groups :: |groups[c]|
  }

  /**
   * `groupSheltersByCity`: one group per city that occurs (a missing city
   * counts as the unknown city), holding that city's shelters in their
   * order; the group sizes add up to the number of shelters.
   */
  method GroupSheltersByCity(shelters: seq<Shelter>) returns (groups: map<string, seq<Shelter>>)
    ensures forall c :: c in groups <==> c in CityKeys(shelters)
    ensures forall c :: c in groups ==> groups[c] == InCity(shelters, c)
    ensures MapSum(GroupSizes(groups)) == |shelters|
  {
    groups := map[];
    for i := 0 to |shelters|
      invariant IsGrouping(shelters[..i], groups)
    {
      var city := CityKey(shelters[i]);
      GroupJoin(shelters[..i], shelters[i], groups);
      assert shelters[..i + 1] == shelters[..i] + [shelters[i]];
      if city !in groups {
        groups := groups[city := []];
      }
      groups := groups[city := groups[city] + [shelters[i]]];
    }
    assert shelters[..|shelters|] == shelters;
    GroupSizesTotal(shelters, groups);
  }

  /** Groups that hold exactly each city's shelters partition the list: their sizes add up to its length. */
  lemma GroupSizesTotal(shelters: seq<Shelter>, groups: map<string, seq<Shelter>>)
    requires forall c :: c in groups <==> c in CityKeys(shelters)
    requires forall c :: c in groups ==> groups[c] == InCity(shelters, c)
    ensures MapSum(GroupSizes(groups)) == |shelters|
  {
    var keys := CityKeys(shelters);
    var sizes := GroupSizes(groups);
    var counts := Tally(keys);
    TallyCounts(keys);
    forall c | c in sizes
      ensures c in counts && sizes[c] == counts[c]
    {
      InCityCount(shelters, c);
    }
    MapSumSame(sizes, counts);
    TallyTotal(keys);
  }

  // ---------- getShelterStatistics ----------

  datatype Statistics = Statistics(
    total: nat,
    byType: map<string, nat>,
    byCategory: map<string, nat>,
    byCity: map<string, nat>,
    withCoordinates: nat,
    averageConfidence: real)

  function TypeOf(s: Shelter): string { s.shelterType }
  function CategoryOf(s: Shelter): string { s.category }
  function CityOf(s: Shelter): string { s.city }

  /** `shelters.map(field)`. */
  function Project(shelters: seq<Shelter>, field: Shelter -> string): (r: seq<string>)
    ensures |r| == |shelters|
    ensures forall i :: 0 <= i < |shelters| ==> r[i] == field(shelters[i])
  {
    if shelters == [] then []
    else Project(shelters[..|shelters| - 1], field) + [field(shelters[|shelters| - 1])]
  }

  function CountWithCoordinates(shelters: seq<Shelter>): (r: nat)
    ensures r <= |shelters|
  {
    if shelters == [] then 0
    else CountWithCoordinates(shelters[..|shelters| - 1])
         + if shelters[|shelters| - 1].hasCoordinates then 1 else 0
  }

  function ConfidenceSum(shelters: seq<Shelter>): real
  {
    if shelters == [] then 0.0
    else ConfidenceSum(shelters[..|shelters| - 1]) + shelters[|shelters| - 1].confidence
  }

  /** The running figures of the `forEach` in `getShelterStatistics`. */
  datatype Tallies = Tallies(
    byType: map<string, nat>,
    byCategory: map<string, nat>,
    byCity: map<string, nat>,
    withCoordinates: nat,
    totalConfidence: real)

  /** The figures after the first shelters, one `forEach` step at a time. */
  function CountAll(shelters: seq<Shelter>): Tallies
  {
    if shelters == [] then Tallies(map[], map[], map[], 0, 0.0)
    else
      var t := CountAll(shelters[..|shelters| - 1]);
      var s := shelters[|shelters| - 1];
      Tallies(TallyAdd(t.byType, s.shelterType), TallyAdd(t.byCategory, s.category),
              TallyAdd(t.byCity, s.city),
              t.withCoordinates + if s.hasCoordinates then 1 else 0,
              t.totalConfidence + s.confidence)
  }

  /** The running figures are the tallies of each field, the coordinate count and the confidence sum. */
  lemma {:induction false} CountAllFields(shelters: seq<Shelter>)
    ensures CountAll(shelters).byType == Tally(Project(shelters, TypeOf))
    ensures CountAll(shelters).byCategory == Tally(Project(shelters, CategoryOf))
    ensures CountAll(shelters).byCity == Tally(Project(shelters, CityOf))
    ensures CountAll(shelters).withCoordinates == CountWithCoordinates(shelters)
    ensures CountAll(shelters).totalConfidence == ConfidenceSum(shelters)
  {
    if shelters != [] {
      var init := shelters[..|shelters| - 1];
      CountAllFields(init);
      assert Project(shelters, TypeOf)[..|shelters| - 1] == Project(init, TypeOf);
      assert Project(shelters, CategoryOf)[..|shelters| - 1] == Project(init, CategoryOf);
      assert Project(shelters, CityOf)[..|shelters| - 1] == Project(init, CityOf);
    }
  }

  /** Each of the three tallies counts every shelter once. */
  lemma StatisticsTotals(shelters: seq<Shelter>)
    ensures MapSum(Tally(Project(shelters, TypeOf))) == |shelters|
    ensures MapSum(Tally(Project(shelters, CategoryOf))) == |shelters|
    ensures MapSum(Tally(Project(shelters, CityOf))) == |shelters|
  {
    TallyTotal(Project(shelters, TypeOf));
    TallyTotal(Project(shelters, CategoryOf));
    TallyTotal(Project(shelters, CityOf));
  }

  /**
   * `getShelterStatistics`: counts per type, category and city (each adding
   * up to the total), the number of shelters with coordinates, and the mean
   * confidence, 0 for no shelters.
   */
  method GetShelterStatistics(shelters: seq<Shelter>) returns (st: Statistics)
    ensures st.total == |shelters|
    ensures st.byType == Tally(Project(shelters, TypeOf)) && MapSum(st.byType) == st.total
    ensures st.byCategory == Tally(Project(shelters, CategoryOf)) && MapSum(st.byCategory) == st.total
    ensures st.byCity == Tally(Project(shelters, CityOf)) && MapSum(st.byCity) == st.total
    ensures st.withCoordinates == CountWithCoordinates(shelters) <= st.total
    ensures st.averageConfidence
            == if |shelters| > 0 then ConfidenceSum(shelters) / (|shelters| as real) else 0.0
  {
    var byType: map<string, nat> := map[];
    var byCategory: map<string, nat> := map[];
    var byCity: map<string, nat> := map[];
    var withCoordinates: nat := 0;
    var totalConfidence: real := 0.0;
    for i := 0 to |shelters|
      invariant Tallies(byType, byCategory, byCity, withCoordinates, totalConfidence)
                == CountAll(shelters[..i])
    {
      assert shelters[..i + 1][..i] == shelters[..i];
      var s := shelters[i];
      byType := TallyAdd(byType, s.shelterType);
      byCategory := TallyAdd(byCategory, s.category);
      byCity := TallyAdd(byCity, s.city);
      if s.hasCoordinates {
        withCoordinates := withCoordinates + 1;
      }
      totalConfidence := totalConfidence + s.confidence;
    }
    assert shelters[..|shelters|] == shelters;
    CountAllFields(shelters);
    StatisticsTotals(shelters);
    var average := if |shelters| > 0 then totalConfidence / (|shelters| as real) else 0.0;
    st := Statistics(|shelters|, byType, byCategory, byCity, withCoordinates, average);
  }

  /** The confidences lie between bounds, so does their sum scaled by the count. */
  lemma {:induction false} ConfidenceSumBounds(shelters: seq<Shelter>, lo: real, hi: real)
    requires forall i :: 0 <= i < |shelters| ==> lo <= shelters[i].confidence <= hi
    ensures lo * (|shelters| as real) <= ConfidenceSum(shelters) <= hi * (|shelters| as real)
  {
    if shelters != [] {
      ConfidenceSumBounds(shelters[..|shelters| - 1], lo, hi);
    }
  }

  /** The mean confidence lies within any bounds that hold for every shelter. */
  lemma AverageConfidenceBounds(shelters: seq<Shelter>, lo: real, hi: real)
    requires |shelters| > 0
    requires forall i :: 0 <= i < |shelters| ==> lo <= shelters[i].confidence <= hi
    ensures lo <= ConfidenceSum(shelters) / (|shelters| as real) <= hi
  {
    ConfidenceSumBounds(shelters, lo, hi);
    var n := |shelters| as real;
    assert ConfidenceSum(shelters) / n * n == ConfidenceSum(shelters);
  }
}
