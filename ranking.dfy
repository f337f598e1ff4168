/** The discovery page's result records (frontend/src/App.jsx): the
    deterministic pseudo-rating, the mapping from raw point-of-interest
    features to places, and the status label shown above the results.
    Ratings and distances are integer tenths (4.2 is 42, 3.1 km is 31). */
module Ranking {
  import opened JsText

  // ---------------------------------------------------------------- rating

  /** Lowest and highest rating, in tenths: 3.7 and 4.9. */
  const MinRating: int := 37
  const MaxRating: int := 49

  /** The `reduce` of generateRealRating: the sum of charCodeAt over every
      UTF-16 code unit of the string, taken left to right. */
  function CodeSum(s: string): nat {
    if s == [] then 0 else CodeSum(s[..|s| - 1]) + UnitSum(s[|s| - 1])
  }

  /** The seed is the sum of the string's UTF-16 code units, the numbers
      `split('')` and `charCodeAt(0)` hand to the `reduce`. */
  lemma {:induction false} CodeSumIsUnitSum(s: string)
    ensures CodeSum(s) == Sum(Utf16(s))
    decreases |s|
  {
    if s != [] {
      var front, last := s[..|s| - 1], s[|s| - 1];
      CodeSumIsUnitSum(front);
      SumAppend(Utf16(front), CharUnits(last));
    }
  }

  /** generateRealRating(id) for String(id) == key, in tenths:
      3.7 + (seed % 13) / 10, printed with one decimal. */
  function RatingOf(key: string): (r: int)
    ensures MinRating <= r <= MaxRating
  {
    MinRating + CodeSum(key) % 13
  }

  /** The seed of a concatenation is the sum of the seeds. */
  lemma {:induction false} CodeSumAppend(a: string, b: string)
    ensures CodeSum(a + b) == CodeSum(a) + CodeSum(b)
    decreases |b|
  {
    if b == [] {
      assert a + b == a;
    } else {
      var b' := b[..|b| - 1];
      assert (a + b)[..|a + b| - 1] == a + b';
      CodeSumAppend(a, b');
    }
  }

  /** Taking one character out of a string takes its code units out of
      the seed. */
  lemma CodeSumRemove(t: string, j: int)
    requires 0 <= j < |t|
    ensures CodeSum(t) == CodeSum(t[..j] + t[j + 1..]) + UnitSum(t[j])
  {
    assert t == (t[..j] + [t[j]]) + t[j + 1..];
    CodeSumAppend(t[..j] + [t[j]], t[j + 1..]);
    assert (t[..j] + [t[j]])[..j] == t[..j];
    CodeSumAppend(t[..j], t[j + 1..]);
  }

  /** Removing one occurrence of the last character of s from t keeps the
      two multisets equal. */
  lemma MultisetRemove(s: string, t: string, j: int)
    requires s != [] && multiset(s) == multiset(t)
    requires 0 <= j < |t| && t[j] == s[|s| - 1]
    ensures multiset(s[..|s| - 1]) == multiset(t[..j] + t[j + 1..])
  {
    var c := s[|s| - 1];
    var s', t' := s[..|s| - 1], t[..j] + t[j + 1..];
    assert s == s' + [c];
    assert multiset(s) == multiset(s') + multiset{c};
    assert t == t[..j] + [c] + t[j + 1..];
    assert multiset(t) == multiset(t[..j]) + multiset{c} + multiset(t[j + 1..]);
    assert multiset(t') == multiset(t[..j]) + multiset(t[j + 1..]);
    assert multiset(s') + multiset{c} == multiset(t') + multiset{c};
    forall x ensures multiset(s')[x] == multiset(t')[x] {
      assert (multiset(s') + multiset{c})[x] == (multiset(t') + multiset{c})[x];
    }
  }

  /** The seed only depends on which characters occur, not on their order. */
  lemma {:induction false} CodeSumOfPermutation(s: string, t: string)
    requires multiset(s) == multiset(t)
    ensures CodeSum(s) == CodeSum(t)
    decreases |s|
  {
    if s == [] {
      assert |t| == |multiset(t)| == 0;
    } else {
      var c := s[|s| - 1];
      assert c in multiset(s);
      var j :| 0 <= j < |t| && t[j] == c;
      MultisetRemove(s, t, j);
      CodeSumOfPermutation(s[..|s| - 1], t[..j] + t[j + 1..]);
      CodeSumRemove(t, j);
    }
  }

  /** Equal ids give equal ratings, and so do ids that are rearrangements
      of one another ("123" and "321"). */
  lemma RatingDependsOnCharactersOnly(s: string, t: string)
    requires multiset(s) == multiset(t)
    ensures RatingOf(s) == RatingOf(t)
  {
    CodeSumOfPermutation(s, t);
  }

  /** Every rating from 3.7 to 4.9 is the rating of some `String(osm_id)`:
      the ids 4 to 12 give 3.7 to 4.5 and the ids 0 to 3 give 4.6 to 4.9. */
  lemma EveryRatingOccurs(r: int)
    requires MinRating <= r <= MaxRating
    ensures exists id: nat :: RatingOf(DecimalString(id)) == r
  {
    var k := r - MinRating;
    var id: nat := if k <= 8 then k + 4 else k - 9;
    var key := DecimalString(id);
    if id < 10 {
      assert key == [DigitChar(id)];
      assert key[..0] == [];
      assert CodeSum(key) == '0' as int + id;
    } else {
      var tens, ones := DigitChar(1), DigitChar(id - 10);
      assert key == [tens, ones];
      assert key[..1] == [tens] && [tens][..0] == [];
      assert CodeSum(key) == 2 * ('0' as int) + 1 + (id - 10);
    }
    assert RatingOf(key) == r;
  }

  // ---------------------------------------------------------------- places

  /** `p.osm_id || Math.random()`: the random fallback is not modelled. */
  datatype PlaceId = OsmId(n: nat) | RandomId

  /** One result card: id, name, address, type, description, coordinates,
      rating and distance from the fixed anchor (tenths of a km), image. */
  datatype Place = Place(
    id: PlaceId,
    name: string,
    address: string,
    kind: string,
    description: string,
    lat: real,
    lon: real,
    rating: int,
    distance: nat,
    image: string)

  /** `properties` of one raw feature; every field may be absent. */
  datatype Properties = Properties(
    osmId: Option<nat>,
    name: Option<string>,
    city: Option<string>,
    district: Option<string>,
    kind: Option<string>)

  /** A raw feature: its properties and `geometry.coordinates` ([lon, lat]). */
  datatype Feature = Feature(properties: Properties, lon: real, lat: real)

  /** `f.properties.name` is truthy. */
  predicate Named(f: Feature) {
    Truthy(f.properties.name)
  }

  /** `p.osm_id` is truthy (present and not 0). */
  predicate HasOsmId(p: Properties) {
    p.osmId.Some? && p.osmId.value != 0
  }

  /** String(p.osm_id || p.name): the key the rating is computed from. */
  function RatingKey(p: Properties): (key: string)
    requires Truthy(p.name)
    ensures key != ""
    ensures HasOsmId(p) ==> (forall i :: 0 <= i < |key| ==> IsDigit(key[i])) && DigitsValue(key) == p.osmId.value
    ensures !HasOsmId(p) ==> key == p.name.value
  {
    if HasOsmId(p) then DecimalString(p.osmId.value) else p.name.value
  }

  /** The text of the placeholder image for a category. */
  function ImageUrl(category: string): string {
    "https://placehold.co/600x400/1e293b/ffffff?text=" + Upper(category)
  }

  /** The record built for one named feature. `distanceTo(lat, lon)` is the
      haversine distance from the fixed anchor, rounded to tenths. */
  function ToPlace(f: Feature, category: string, cityName: string,
                   distanceTo: (real, real) -> nat): (p: Place)
    requires Named(f)
    ensures p.name == f.properties.name.value && p.name != ""
    ensures p.address == Or(f.properties.city, Or(f.properties.district, cityName))
    ensures p.kind == Or(f.properties.kind, category)
    ensures MinRating <= p.rating <= MaxRating
  {
    var props := f.properties;
    Place(
      if HasOsmId(props) then OsmId(props.osmId.value) else RandomId,
      props.name.value,
      Or(props.city, Or(props.district, cityName)),
      Or(props.kind, category),
      props.name.value + " is a verified " + category + " located in " + cityName + ".",
      f.lat,
      f.lon,
      RatingOf(RatingKey(props)),
      distanceTo(f.lat, f.lon),
      ImageUrl(category))
  }

  /** `features.filter(f => f.properties.name).map(...)`: every place has a
      name and a rating in range, there are never more places than
      features, and no address is empty when the searched name is not. */
  function ToPlaces(features: seq<Feature>, category: string, cityName: string,
                    distanceTo: (real, real) -> nat): (ps: seq<Place>)
    ensures |ps| <= |features|
    ensures forall i :: 0 <= i < |ps| ==> ps[i].name != "" && MinRating <= ps[i].rating <= MaxRating
    ensures cityName != "" ==> forall i :: 0 <= i < |ps| ==> ps[i].address != ""
    ensures category != "" ==> forall i :: 0 <= i < |ps| ==> ps[i].kind != ""
  {
    if features == [] then []
    else
      var rest := ToPlaces(features[1..], category, cityName, distanceTo);
      if Named(features[0]) then [ToPlace(features[0], category, cityName, distanceTo)] + rest
      else rest
  }

  /** The named features, in their original order (the `filter`). */
  function NamedFeatures(features: seq<Feature>): (named: seq<Feature>)
    ensures forall i :: 0 <= i < |named| ==> Named(named[i])
  {
    if features == [] then []
    else if Named(features[0]) then [features[0]] + NamedFeatures(features[1..])
    else NamedFeatures(features[1..])
  }

  /** The places are exactly the images of the named features, one for one
      and in order: nameless features are dropped and nothing else is. */
  lemma {:induction false} ToPlacesIsFilterThenMap(features: seq<Feature>, category: string,
                                                   cityName: string, distanceTo: (real, real) -> nat)
    ensures var ps := ToPlaces(features, category, cityName, distanceTo);
            var named := NamedFeatures(features);
            |ps| == |named| &&
            forall i :: 0 <= i < |ps| ==> ps[i] == ToPlace(named[i], category, cityName, distanceTo)
  {
    if features != [] {
      var rest := features[1..];
      ToPlacesIsFilterThenMap(rest, category, cityName, distanceTo);
      var ps, named := ToPlaces(rest, category, cityName, distanceTo), NamedFeatures(rest);
      if Named(features[0]) {
        var p := ToPlace(features[0], category, cityName, distanceTo);
        assert ToPlaces(features, category, cityName, distanceTo) == [p] + ps;
        assert NamedFeatures(features) == [features[0]] + named;
      }
    }
  }

  /** A feature with a truthy osm_id is rated by that id alone, whatever its
      name; one without is rated by its name. */
  lemma RatingFollowsIdentity(f: Feature, g: Feature, category: string, cityName: string,
                              distanceTo: (real, real) -> nat)
    requires Named(f) && Named(g)
    requires (HasOsmId(f.properties) && HasOsmId(g.properties) && f.properties.osmId == g.properties.osmId)
             || (!HasOsmId(f.properties) && !HasOsmId(g.properties) && f.properties.name == g.properties.name)
    ensures ToPlace(f, category, cityName, distanceTo).rating == ToPlace(g, category, cityName, distanceTo).rating
  {
  }

  // ---------------------------------------------------------------- label

  /** `category.charAt(0).toUpperCase() + category.slice(1)`. */
  function Capitalize(category: string): (r: string)
    ensures |r| == |category|
    ensures category != [] ==> r[0] == UpperChar(category[0]) && r[1..] == category[1..]
    ensures category != [] && IsLowerAscii(category[0]) ==> IsUpperAscii(r[0])
  {
    if category == [] then [] else [UpperChar(category[0])] + category[1..]
  }

  /** The status line "<Category>s in <city>": the category with its first
      letter upper-cased and the rest as it is, then "s in ", then the
      searched name. */
  function StatusLabel(category: string, cityName: string): (text: string)
    ensures |text| == |category| + 5 + |cityName|
    ensures text[|category|..] == "s in " + cityName
    ensures category != [] ==> text[0] == UpperChar(category[0]) && text[1..|category|] == category[1..]
    ensures category == [] ==> text == "s in " + cityName
  {
    var text := Capitalize(category) + "s in " + cityName;
    assert text[..|category|] == Capitalize(category);
    text
  }
}
