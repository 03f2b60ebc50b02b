/** Record shapes shared by the dashboard (src/types/index.ts), plus Option. */
module Types {

  /** Some/None, used for values the source keeps as `T | null`. */
  datatype Option<+T> = None | Some(value: T)

  /** A weather snapshot; the model never looks inside it. */
  datatype WeatherData = WeatherData(temperature: int, condition: string, icon: string, description: string)

  /** Device coordinates, in degrees. */
  datatype Coordinates = Coordinates(latitude: real, longitude: real)

  /** An entry of the location directory. */
  datatype LocationData = LocationData(
    name: string,
    country: string,
    countryCode: string,
    timezone: string,
    lat: real,
    lon: real)

  /** A location card of the session. */
  datatype Location = Location(
    id: string,
    name: string,
    country: string,
    countryCode: string,
    timezone: string,
    lat: real,
    lon: real,
    weather: Option<WeatherData>,
    isPrimary: bool)

  /** `s` can be obtained from `t` by deleting elements, keeping the order of the rest. */
  predicate IsSubsequence<T(==)>(s: seq<T>, t: seq<T>)
    decreases |t|
  {
    if s == [] then true
    else if t == [] then false
    else (s[0] == t[0] && IsSubsequence(s[1..], t[1..])) || IsSubsequence(s, t[1..])
  }

  /** A subsequence of the tail is a subsequence of the whole. */
  lemma SubsequenceOfTail<T>(s: seq<T>, t: seq<T>)
    requires t != [] && IsSubsequence(s, t[1..])
    ensures IsSubsequence(s, t)
  {
  }

  /** A prefix of a subsequence is still a subsequence. */
  lemma {:induction false} PrefixOfSubsequence<T>(s: seq<T>, t: seq<T>, k: nat)
    requires IsSubsequence(s, t) && k <= |s|
    ensures IsSubsequence(s[..k], t)
  {
    if k > 0 && t != [] {
      if s[0] == t[0] && IsSubsequence(s[1..], t[1..]) {
        PrefixOfSubsequence(s[1..], t[1..], k - 1);
        assert s[..k][1..] == s[1..][..k - 1];
      } else {
        PrefixOfSubsequence(s, t[1..], k);
      }
    }
  }
}
