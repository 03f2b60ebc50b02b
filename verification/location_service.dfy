/**
 * The location directory (src/services/locationService.ts): a constant
 * table of places, a nearest-entry lookup and a substring search.
 */
module LocationService {
  import opened Types

  /** The directory, in source order: 57 entries in six groups; London is entry 12. */
  const MockLocations: seq<LocationData> := Americas + Europe + Asia + Africa + Oceania + MoreCities

  /** Major cities of the Americas. */
  const Americas: seq<LocationData> := [
      LocationData("New York", "United States", "US", "America/New_York", 40.7128, -74.0060),
      LocationData("Los Angeles", "United States", "US", "America/Los_Angeles", 34.0522, -118.2437),
      LocationData("Chicago", "United States", "US", "America/Chicago", 41.8781, -87.6298),
      LocationData("Miami", "United States", "US", "America/New_York", 25.7617, -80.1918),
      LocationData("Toronto", "Canada", "CA", "America/Toronto", 43.6532, -79.3832),
      LocationData("Vancouver", "Canada", "CA", "America/Vancouver", 49.2827, -123.1207),
      LocationData("Mexico City", "Mexico", "MX", "America/Mexico_City", 19.4326, -99.1332),
      LocationData("São Paulo", "Brazil", "BR", "America/Sao_Paulo", -23.5505, -46.6333),
      LocationData("Rio de Janeiro", "Brazil", "BR", "America/Sao_Paulo", -22.9068, -43.1729),
      LocationData("Buenos Aires", "Argentina", "AR", "America/Argentina/Buenos_Aires", -34.6118, -58.3960),
      LocationData("Lima", "Peru", "PE", "America/Lima", -12.0464, -77.0428),
      LocationData("Bogotá", "Colombia", "CO", "America/Bogota", 4.7110, -74.0721)
    ]

  /** Europe. */
  const Europe: seq<LocationData> := [
      LocationData("London", "United Kingdom", "GB", "Europe/London", 51.5074, -0.1278),
      LocationData("Paris", "France", "FR", "Europe/Paris", 48.8566, 2.3522),
      LocationData("Berlin", "Germany", "DE", "Europe/Berlin", 52.5200, 13.4050),
      LocationData("Madrid", "Spain", "ES", "Europe/Madrid", 40.4168, -3.7038),
      LocationData("Rome", "Italy", "IT", "Europe/Rome", 41.9028, 12.4964),
      LocationData("Amsterdam", "Netherlands", "NL", "Europe/Amsterdam", 52.3676, 4.9041),
      LocationData("Stockholm", "Sweden", "SE", "Europe/Stockholm", 59.3293, 18.0686),
      LocationData("Moscow", "Russia", "RU", "Europe/Moscow", 55.7558, 37.6173),
      LocationData("Istanbul", "Turkey", "TR", "Europe/Istanbul", 41.0082, 28.9784),
      LocationData("Athens", "Greece", "GR", "Europe/Athens", 37.9755, 23.7348),
      LocationData("Vienna", "Austria", "AT", "Europe/Vienna", 48.2082, 16.3738),
      LocationData("Prague", "Czech Republic", "CZ", "Europe/Prague", 50.0755, 14.4378)
    ]

  /** Asia. */
  const Asia: seq<LocationData> := [
      LocationData("Tokyo", "Japan", "JP", "Asia/Tokyo", 35.6762, 139.6503),
      LocationData("Seoul", "South Korea", "KR", "Asia/Seoul", 37.5665, 126.9780),
      LocationData("Beijing", "China", "CN", "Asia/Shanghai", 39.9042, 116.4074),
      LocationData("Shanghai", "China", "CN", "Asia/Shanghai", 31.2304, 121.4737),
      LocationData("Hong Kong", "Hong Kong", "HK", "Asia/Hong_Kong", 22.3193, 114.1694),
      LocationData("Singapore", "Singapore", "SG", "Asia/Singapore", 1.3521, 103.8198),
      LocationData("Bangkok", "Thailand", "TH", "Asia/Bangkok", 13.7563, 100.5018),
      LocationData("Mumbai", "India", "IN", "Asia/Kolkata", 19.0760, 72.8777),
      LocationData("Delhi", "India", "IN", "Asia/Kolkata", 28.7041, 77.1025),
      LocationData("Dubai", "United Arab Emirates", "AE", "Asia/Dubai", 25.2048, 55.2708),
      LocationData("Tel Aviv", "Israel", "IL", "Asia/Jerusalem", 32.0853, 34.7818),
      LocationData("Riyadh", "Saudi Arabia", "SA", "Asia/Riyadh", 24.7136, 46.6753),
      LocationData("Jakarta", "Indonesia", "ID", "Asia/Jakarta", -6.2088, 106.8456),
      LocationData("Manila", "Philippines", "PH", "Asia/Manila", 14.5995, 120.9842)
    ]

  /** Africa. */
  const Africa: seq<LocationData> := [
      LocationData("Cairo", "Egypt", "EG", "Africa/Cairo", 30.0444, 31.2357),
      LocationData("Lagos", "Nigeria", "NG", "Africa/Lagos", 6.5244, 3.3792),
      LocationData("Johannesburg", "South Africa", "ZA", "Africa/Johannesburg", -26.2041, 28.0473),
      LocationData("Cape Town", "South Africa", "ZA", "Africa/Johannesburg", -33.9249, 18.4241),
      LocationData("Nairobi", "Kenya", "KE", "Africa/Nairobi", -1.2921, 36.8219),
      LocationData("Casablanca", "Morocco", "MA", "Africa/Casablanca", 33.5731, -7.5898)
    ]

  /** Oceania. */
  const Oceania: seq<LocationData> := [
      LocationData("Sydney", "Australia", "AU", "Australia/Sydney", -33.8688, 151.2093),
      LocationData("Melbourne", "Australia", "AU", "Australia/Melbourne", -37.8136, 144.9631),
      LocationData("Perth", "Australia", "AU", "Australia/Perth", -31.9505, 115.8605),
      LocationData("Auckland", "New Zealand", "NZ", "Pacific/Auckland", -36.8485, 174.7633),
      LocationData("Wellington", "New Zealand", "NZ", "Pacific/Auckland", -41.2865, 174.7762)
    ]

  /** Additional major cities. */
  const MoreCities: seq<LocationData> := [
      LocationData("Zurich", "Switzerland", "CH", "Europe/Zurich", 47.3769, 8.5417),
      LocationData("Oslo", "Norway", "NO", "Europe/Oslo", 59.9139, 10.7522),
      LocationData("Helsinki", "Finland", "FI", "Europe/Helsinki", 60.1699, 24.9384),
      LocationData("Copenhagen", "Denmark", "DK", "Europe/Copenhagen", 55.6761, 12.5683),
      LocationData("Brussels", "Belgium", "BE", "Europe/Brussels", 50.8503, 4.3517),
      LocationData("Lisbon", "Portugal", "PT", "Europe/Lisbon", 38.7223, -9.1393),
      LocationData("Warsaw", "Poland", "PL", "Europe/Warsaw", 52.2297, 21.0122),
      LocationData("Budapest", "Hungary", "HU", "Europe/Budapest", 47.4979, 19.0402)
    ]

  /** Index of London in the directory. */
  const LondonIndex: nat := 12

  /** The directory has 57 entries, New York first, London at LondonIndex and Budapest last. */
  lemma DirectoryShape()
    ensures |MockLocations| == 57
    ensures MockLocations[0].name == "New York" && MockLocations[LondonIndex].name == "London"
    ensures MockLocations[56].name == "Budapest"
  {
    assert MockLocations[LondonIndex] == Europe[0];
  }

  // ---------------------------------------------------------------------
  // getLocationFromCoords
  // ---------------------------------------------------------------------

  /** Number.MAX_VALUE, (2^53 - 1) * 2^971, the initial minimum distance. */
  const MaxValue: real := 179769313486231570814527423731704356798070567525844996598917476803157260780028538760589558632766878171540458953514382464234321326889464182768467546703537516986049910576551282076245490090389328944075868508455133942304583236903222948165808559332123348274797826204144723168738177180919299881250404026184124858368.0

  /**
   * Squared raw-degree distance. The source compares square roots; since
   * the square root is monotone on non-negative reals, comparing squares
   * (against MaxValue squared) picks the same entry.
   */
  function SqDistance(loc: LocationData, lat: real, lon: real): (d: real)
    ensures d >= 0.0
  {
    (loc.lat - lat) * (loc.lat - lat) + (loc.lon - lon) * (loc.lon - lon)
  }

  /**
   * Entry `k` of `table` is what the nearest-entry loop picks: the first
   * entry of minimal distance, or entry 0 when no distance is below
   * MAX_VALUE.
   */
  ghost predicate IsClosest(table: seq<LocationData>, k: nat, lat: real, lon: real)
  {
    k < |table| &&
    ((SqDistance(table[k], lat, lon) < MaxValue * MaxValue &&
      (forall j | 0 <= j < |table| :: SqDistance(table[k], lat, lon) <= SqDistance(table[j], lat, lon)) &&
      (forall j | 0 <= j < k :: SqDistance(table[j], lat, lon) > SqDistance(table[k], lat, lon))) ||
     (k == 0 && forall j | 0 <= j < |table| :: SqDistance(table[j], lat, lon) >= MaxValue * MaxValue))
  }

  /** getLocationFromCoords: the nearest directory entry to the coordinates. */
  method GetLocationFromCoords(lat: real, lon: real) returns (r: LocationData)
    ensures exists k: nat :: IsClosest(MockLocations, k, lat, lon) && r == MockLocations[k]
  {
    r := NearestEntry(MockLocations, lat, lon);
  }

  /**
   * The scan of getLocationFromCoords over a non-empty table: it keeps
   * the entry with the strictly smallest distance seen so far, starting
   * from entry 0 and a minimum of MAX_VALUE.
   */
  method NearestEntry(table: seq<LocationData>, lat: real, lon: real) returns (r: LocationData)
    requires |table| > 0
    ensures exists k: nat :: IsClosest(table, k, lat, lon) && r == table[k]
  {
    var maxSq := MaxValue * MaxValue;
    ghost var k: nat := 0;
    r := table[0];
    var minSq := maxSq;
    var i := 0;
    while i < |table|
      invariant 0 <= i <= |table|
      invariant k < |table| && r == table[k]
      invariant minSq <= maxSq
      invariant forall j | 0 <= j < i :: minSq <= SqDistance(table[j], lat, lon)
      invariant minSq < maxSq ==>
        k < i && minSq == SqDistance(table[k], lat, lon) &&
        forall j | 0 <= j < k :: SqDistance(table[j], lat, lon) > minSq
      invariant minSq == maxSq ==> k == 0
    {
      var d := SqDistance(table[i], lat, lon);
      if d < minSq {
        minSq := d;
        r, k := table[i], i;
      }
      i := i + 1;
    }
    assert IsClosest(table, k, lat, lon);
  }

  /** At most one entry satisfies IsClosest, so the lookup is a function of the query. */
  lemma ClosestIsUnique(table: seq<LocationData>, k1: nat, k2: nat, lat: real, lon: real)
    requires IsClosest(table, k1, lat, lon) && IsClosest(table, k2, lat, lon)
    ensures k1 == k2
  {
  }

  /** London's own coordinates give the London entry. */
  lemma LondonCoordinatesGiveLondon(k: nat)
    requires IsClosest(MockLocations, k, 51.5074, -0.1278)
    ensures k == LondonIndex && MockLocations[k].name == "London"
  {
    assert MockLocations[LondonIndex] == Europe[0];
    assert SqDistance(MockLocations[LondonIndex], 51.5074, -0.1278) == 0.0;
    forall j | 0 <= j < LondonIndex
      ensures SqDistance(MockLocations[j], 51.5074, -0.1278) > 0.0
    {
      assert MockLocations[j] == Americas[j];
      assert Americas[j].lat != 51.5074;
    }
  }

  // ---------------------------------------------------------------------
  // searchLocations
  // ---------------------------------------------------------------------

  /** toLowerCase on one character (ASCII letters only). */
  function LowerChar(c: char): char
  {
    if 'A' <= c <= 'Z' then (c as int + 32) as char else c
  }

  function Lower(s: string): string
  {
    seq(|s|, i requires 0 <= i < |s| => LowerChar(s[i]))
  }

  /** String.prototype.includes. */
  predicate Contains(hay: string, needle: string)
  {
    exists i | 0 <= i <= |hay| - |needle| :: OccursAt(hay, needle, i)
  }

  /** `needle` appears in `hay` starting at position `i`. */
  predicate OccursAt(hay: string, needle: string, i: nat)
  {
    i + |needle| <= |hay| && hay[i..i + |needle|] == needle
  }

  /** The search test of one entry: the query, lower-cased, inside the lower-cased name or country. */
  predicate Matches(loc: LocationData, query: string)
  {
    Contains(Lower(loc.name), Lower(query)) || Contains(Lower(loc.country), Lower(query))
  }

  /** Array.prototype.filter with the search test. */
  function Filter(s: seq<LocationData>, query: string): (r: seq<LocationData>)
    ensures |r| <= |s|
    ensures forall i | 0 <= i < |r| :: Matches(r[i], query)
  {
    if s == [] then []
    else (if Matches(s[0], query) then [s[0]] else []) + Filter(s[1..], query)
  }

  /**
   * The filter keeps exactly the matching entries, in order. Membership
   * stands for multiplicity here because the directory has no repeated
   * entry; the subsequence clause fixes the order and the copies.
   */
  lemma {:induction false} FilterProperties(s: seq<LocationData>, query: string)
    ensures IsSubsequence(Filter(s, query), s)
    ensures forall x :: x in Filter(s, query) <==> x in s && Matches(x, query)
  {
    if s != [] {
      FilterProperties(s[1..], query);
      var rest := Filter(s[1..], query);
      assert s == [s[0]] + s[1..];
      if Matches(s[0], query) {
        assert Filter(s, query) == [s[0]] + rest;
        assert Filter(s, query)[1..] == rest;
      } else {
        assert Filter(s, query) == rest;
        SubsequenceOfTail(rest, s);
      }
    }
  }

  /** Filtering a concatenation filters each part. */
  lemma {:induction false} FilterAppend(a: seq<LocationData>, b: seq<LocationData>, query: string)
    ensures Filter(a + b, query) == Filter(a, query) + Filter(b, query)
  {
    if a != [] {
      assert (a + b)[1..] == a[1..] + b;
      FilterAppend(a[1..], b, query);
    } else {
      assert a + b == b;
    }
  }

  /**
   * searchLocations: the matching entries in table order, cut to the
   * first 8.
   */
  function SearchLocations(query: string): (r: seq<LocationData>)
    ensures |r| <= 8
    ensures IsSubsequence(r, MockLocations)
    ensures forall x | x in r :: Matches(x, query)
  {
    var found := Filter(MockLocations, query);
    FilterProperties(MockLocations, query);
    if |found| <= 8 then found
    else
      PrefixOfSubsequence(found, MockLocations, 8);
      found[..8]
  }

  /**
   * No match is skipped: the matches among the first `j` table entries,
   * when there are at most 8 of them, open the result in the same order.
   */
  lemma SearchKeepsEarliestMatches(query: string, j: nat)
    requires j <= |MockLocations|
    requires |Filter(MockLocations[..j], query)| <= 8
    ensures Filter(MockLocations[..j], query) <= SearchLocations(query)
  {
    FilterSplit(MockLocations, j, query);
  }

  /** The filter of a table is the filter of its first `j` entries followed by the rest's. */
  lemma FilterSplit(s: seq<LocationData>, j: nat, query: string)
    requires j <= |s|
    ensures Filter(s, query) == Filter(s[..j], query) + Filter(s[j..], query)
  {
    assert s == s[..j] + s[j..];
    FilterAppend(s[..j], s[j..], query);
  }

  /** With fewer than 8 results, every matching entry is among them. */
  lemma SearchCompleteBelowCap(query: string, x: LocationData)
    requires |SearchLocations(query)| < 8
    requires x in MockLocations && Matches(x, query)
    ensures x in SearchLocations(query)
  {
    FilterProperties(MockLocations, query);
  }

  /** The empty query matches every entry. */
  lemma {:induction false} FilterEmptyQuery(s: seq<LocationData>)
    ensures Filter(s, "") == s
  {
    if s != [] {
      assert OccursAt(Lower(s[0].name), Lower(""), 0);
      FilterEmptyQuery(s[1..]);
      assert s == [s[0]] + s[1..];
    }
  }

  /** The empty query returns the first 8 entries, New York through São Paulo. */
  lemma EmptyQueryGivesFirstEight()
    ensures SearchLocations("") == MockLocations[..8]
    ensures SearchLocations("")[0].name == "New York" && SearchLocations("")[7].name == "São Paulo"
  {
    FilterEmptyQuery(MockLocations);
  }

  /** Two queries that agree up to ASCII case. */
  predicate SameIgnoringCase(a: string, b: string)
  {
    |a| == |b| && forall i | 0 <= i < |a| :: LowerChar(a[i]) == LowerChar(b[i])
  }

  /** Search is case-insensitive. */
  lemma SearchIgnoresCase(a: string, b: string)
    requires SameIgnoringCase(a, b)
    ensures SearchLocations(a) == SearchLocations(b)
  {
    assert Lower(a) == Lower(b);
    assert forall loc :: Matches(loc, a) == Matches(loc, b);
    FilterSameQuery(MockLocations, a, b);
  }

  /** Queries with the same lower-case form filter alike. */
  lemma {:induction false} FilterSameQuery(s: seq<LocationData>, a: string, b: string)
    requires Lower(a) == Lower(b)
    ensures Filter(s, a) == Filter(s, b)
  {
    if s != [] {
      FilterSameQuery(s[1..], a, b);
    }
  }
}
