/** The ordering of the result list (frontend/src/App.jsx, the sort effect):
    the three-way comparator on rating, name and distance, and the stable
    sort that Array.prototype.sort performs with it (ECMA-262 requires the
    sort to be stable since the 2019 edition; section 23.1.3.30 in the 2023
    edition). The sort is given here as an insertion sort on sequences and
    proved to be the one and only stable, sorted rearrangement. */
module PlaceSort {
  import opened JsText
  import opened Ranking

  /** The comparator: `b.rating - a.rating` for "rating",
      `a.name.localeCompare(b.name)` for "name", `a.distance - b.distance`
      for "distance", and 0 for any other key. Negative means a goes first. */
  function Compare(key: string, a: Place, b: Place): int {
    if key == "rating" then b.rating - a.rating
    else if key == "name" then CompareNames(a.name, b.name)
    else if key == "distance" then a.distance - b.distance
    else 0
  }

  /** What the comparator's sign means for each key: the higher rating, the
      earlier name and the nearer place go first; equal values, equal names
      and any other key tie. */
  lemma CompareMeaning(key: string, a: Place, b: Place)
    ensures key == "rating" ==> (Compare(key, a, b) < 0 <==> a.rating > b.rating)
                                && (Compare(key, a, b) == 0 <==> a.rating == b.rating)
    ensures key == "name" ==> (Compare(key, a, b) == 0 <==> a.name == b.name)
                              && (a.name < b.name ==> Compare(key, a, b) < 0)
    ensures key == "distance" ==> (Compare(key, a, b) < 0 <==> a.distance < b.distance)
                                  && (Compare(key, a, b) == 0 <==> a.distance == b.distance)
    ensures key != "rating" && key != "name" && key != "distance" ==> Compare(key, a, b) == 0
  {
    CompareNamesFlip(a.name, b.name);
    CompareNamesMeaning(a.name, b.name);
  }

  /** a may stand before b. */
  predicate Le(key: string, a: Place, b: Place) {
    Compare(key, a, b) <= 0
  }

  /** Swapping the arguments negates the comparison. */
  lemma CompareFlip(key: string, a: Place, b: Place)
    ensures Compare(key, a, b) == -Compare(key, b, a)
  {
    if key == "name" {
      CompareNamesFlip(a.name, b.name);
    }
  }

  /** The comparator is a consistent total preorder: Le is transitive. */
  lemma CompareTransitive(key: string, a: Place, b: Place, c: Place)
    requires Le(key, a, b) && Le(key, b, c)
    ensures Le(key, a, c)
  {
    if key == "name" {
      CompareNamesTransitive(a.name, b.name, c.name);
    }
  }

  /** Two places that each tie with a third tie with each other. */
  lemma TiesAreEquivalent(key: string, a: Place, b: Place, p: Place)
    requires Compare(key, a, p) == 0 && Compare(key, b, p) == 0
    ensures Compare(key, a, b) == 0
  {
    CompareFlip(key, a, p);
    CompareFlip(key, b, p);
    CompareFlip(key, a, b);
    CompareTransitive(key, a, p, b);
    CompareTransitive(key, b, p, a);
  }

  /** Every earlier place may stand before every later one. */
  predicate SortedBy(key: string, s: seq<Place>) {
    forall i, j :: 0 <= i < j < |s| ==> Le(key, s[i], s[j])
  }

  /** The places of s that compare equal to p, in their order in s. A sort
      is stable when it keeps every such group as it was. */
  function Ties(key: string, s: seq<Place>, p: Place): (group: seq<Place>)
    ensures |group| <= |s|
    ensures forall i :: 0 <= i < |group| ==> group[i] in s && Compare(key, group[i], p) == 0
  {
    if s == [] then []
    else (if Compare(key, s[0], p) == 0 then [s[0]] else []) + Ties(key, s[1..], p)
  }

  /** Inserts x into a sorted list in front of the first place it may
      stand before, that is, behind every place strictly smaller. */
  function Insert(key: string, x: Place, s: seq<Place>): (r: seq<Place>)
    ensures multiset(r) == multiset(s) + multiset{x}
  {
    if s == [] then [x]
    else if Le(key, x, s[0]) then [x] + s
    else
      assert s == [s[0]] + s[1..];
      [s[0]] + Insert(key, x, s[1..])
  }

  /** `[...places].sort(comparator)`: a rearrangement of the same places. */
  function SortPlaces(key: string, s: seq<Place>): (r: seq<Place>)
    ensures multiset(r) == multiset(s) && |r| == |s|
  {
    if s == [] then []
    else
      assert s == [s[0]] + s[1..];
      Insert(key, s[0], SortPlaces(key, s[1..]))
  }

  lemma {:induction false} InsertSorted(key: string, x: Place, s: seq<Place>)
    requires SortedBy(key, s)
    ensures SortedBy(key, Insert(key, x, s))
  {
    if s != [] {
      if Le(key, x, s[0]) {
        forall j | 0 < j < |s| ensures Le(key, x, s[j]) {
          CompareTransitive(key, x, s[0], s[j]);
        }
      } else {
        var rest := Insert(key, x, s[1..]);
        InsertSorted(key, x, s[1..]);
        CompareFlip(key, x, s[0]);
        forall j | 0 <= j < |rest| ensures Le(key, s[0], rest[j]) {
          assert rest[j] in multiset(rest);
          if rest[j] != x {
            assert rest[j] in multiset(s[1..]);
            var k :| 0 <= k < |s[1..]| && s[1..][k] == rest[j];
            assert s[k + 1] == rest[j];
          }
        }
      }
    }
  }

  /** The tie group of a list with a known first place. */
  lemma TiesCons(key: string, a: Place, t: seq<Place>, p: Place)
    ensures Ties(key, [a] + t, p) == (if Compare(key, a, p) == 0 then [a] else []) + Ties(key, t, p)
  {
    assert ([a] + t)[1..] == t;
  }

  /** Inserting x adds x to its tie group in front of the members already
      there, since it goes behind every place strictly smaller. */
  lemma {:induction false} InsertTies(key: string, x: Place, s: seq<Place>, p: Place)
    ensures Ties(key, Insert(key, x, s), p)
            == (if Compare(key, x, p) == 0 then [x] else []) + Ties(key, s, p)
  {
    if s == [] {
      TiesCons(key, x, s, p);
      assert [x] + s == [x];
    } else if Le(key, x, s[0]) {
      TiesCons(key, x, s, p);
    } else {
      var rest := Insert(key, x, s[1..]);
      assert Insert(key, x, s) == [s[0]] + rest;
      InsertTies(key, x, s[1..], p);
      TiesCons(key, s[0], rest, p);
      assert s == [s[0]] + s[1..];
      TiesCons(key, s[0], s[1..], p);
      TieHeadsCommute(key, x, s[0], p, Ties(key, s[1..], p));
    }
  }

  /** When x may not stand before a, x and a do not both tie with p, so
      their tie-group heads can be written in either order. */
  lemma TieHeadsCommute(key: string, x: Place, a: Place, p: Place, tail: seq<Place>)
    requires !Le(key, x, a)
    ensures var hx := if Compare(key, x, p) == 0 then [x] else [];
            var ha := if Compare(key, a, p) == 0 then [a] else [];
            ha + (hx + tail) == hx + (ha + tail)
  {
    if Compare(key, x, p) == 0 && Compare(key, a, p) == 0 {
      TiesAreEquivalent(key, x, a, p);
      assert false;
    }
  }

  /** The sort returns its input sorted by the comparator, as a
      permutation, and keeps tied places in their previous relative order. */
  lemma {:induction false} SortPlacesCorrect(key: string, s: seq<Place>)
    ensures SortedBy(key, SortPlaces(key, s))
    ensures multiset(SortPlaces(key, s)) == multiset(s)
    ensures forall p :: Ties(key, SortPlaces(key, s), p) == Ties(key, s, p)
  {
    if s != [] {
      var rest := SortPlaces(key, s[1..]);
      SortPlacesCorrect(key, s[1..]);
      InsertSorted(key, s[0], rest);
      forall p ensures Ties(key, SortPlaces(key, s), p) == Ties(key, s, p) {
        InsertTies(key, s[0], rest, p);
      }
    }
  }

  /** A place always ties with itself. */
  lemma TiesWithItself(key: string, a: Place)
    ensures Compare(key, a, a) == 0
  {
    CompareFlip(key, a, a);
  }

  /** The first place of a list is in its own tie group. */
  lemma FirstTiesWithItself(key: string, s: seq<Place>)
    requires s != []
    ensures Ties(key, s, s[0]) != [] && Ties(key, s, s[0])[0] == s[0]
  {
    TiesWithItself(key, s[0]);
  }

  /** Two sorted lists with the same tie groups are the same list: a stable
      sort has exactly one possible result. */
  lemma {:induction false} StableSortIsUnique(key: string, t1: seq<Place>, t2: seq<Place>)
    requires SortedBy(key, t1) && SortedBy(key, t2)
    requires forall p :: Ties(key, t1, p) == Ties(key, t2, p)
    ensures t1 == t2
    decreases |t1|
  {
    if t1 == [] || t2 == [] {
      if t1 != [] {
        FirstTiesWithItself(key, t1);
        assert false;
      }
      if t2 != [] {
        FirstTiesWithItself(key, t2);
        assert false;
      }
    } else {
      var a, b := t1[0], t2[0];
      TiesWithItself(key, a);
      TiesWithItself(key, b);
      assert Ties(key, t1, a)[0] == a;
      assert a in t2;
      assert Ties(key, t2, b)[0] == b;
      assert b in t1;
      assert Le(key, b, a) && Le(key, a, b);
      CompareFlip(key, b, a);
      assert Ties(key, t2, a)[0] == b;
      assert a == b;
      forall p ensures Ties(key, t1[1..], p) == Ties(key, t2[1..], p) {
        var head := if Compare(key, a, p) == 0 then [a] else [];
        assert Ties(key, t1, p) == head + Ties(key, t1[1..], p);
        assert Ties(key, t2, p) == head + Ties(key, t2[1..], p);
        assert Ties(key, t1[1..], p) == Ties(key, t1, p)[|head|..];
        assert Ties(key, t2[1..], p) == Ties(key, t2, p)[|head|..];
      }
      StableSortIsUnique(key, t1[1..], t2[1..]);
      assert t1 == [a] + t1[1..] && t2 == [b] + t2[1..];
    }
  }

  /** Any list that a stable sort of s could return, that is, any sorted
      list with the same tie groups as s, is SortPlaces(key, s). */
  lemma StableSortAgrees(key: string, s: seq<Place>, t: seq<Place>)
    requires SortedBy(key, t)
    requires forall p :: Ties(key, t, p) == Ties(key, s, p)
    ensures t == SortPlaces(key, s)
  {
    SortPlacesCorrect(key, s);
    StableSortIsUnique(key, t, SortPlaces(key, s));
  }

  /** With a key the comparator does not know, every pair ties and the
      sort leaves the list as it was. */
  lemma {:induction false} UnknownKeyKeepsOrder(key: string, s: seq<Place>)
    requires key != "rating" && key != "name" && key != "distance"
    ensures SortPlaces(key, s) == s
  {
    if s != [] {
      UnknownKeyKeepsOrder(key, s[1..]);
      assert s == [s[0]] + s[1..];
    }
  }

  /** What the sorted list looks like for each key the page offers:
      ratings non-increasing, distances non-decreasing, names in order. */
  lemma SortedResultOrder(key: string, s: seq<Place>)
    ensures var r := SortPlaces(key, s);
            && (key == "rating" ==> forall i, j :: 0 <= i < j < |r| ==> r[i].rating >= r[j].rating)
            && (key == "distance" ==> forall i, j :: 0 <= i < j < |r| ==> r[i].distance <= r[j].distance)
            && (key == "name" ==> forall i, j :: 0 <= i < j < |r| ==> CompareNames(r[i].name, r[j].name) <= 0)
  {
    SortPlacesCorrect(key, s);
  }
}
