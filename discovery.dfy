/** The state of the discovery page (frontend/src/App.jsx) and the steps
    that update it: typing a city, the autocomplete timer, choosing a
    category or a sort key, handleSearch, and React's render-and-effect
    pass in which the sort effect re-orders the results.

    Every network answer is an input of the step that awaits it. Each step
    runs to completion before the next begins: two searches never
    interleave in this model. */
module Discovery {
  import opened JsText
  import opened Ranking
  import opened PlaceSort

  /** One autocomplete entry: the geocoder hit's `display_name`. */
  datatype Suggestion = Suggestion(displayName: string)

  /** The part of the first geocoder hit that the search uses. */
  datatype GeoHit = GeoHit(lat: real, lon: real)

  /** A `fetch` followed by `json()`: the parsed body, or the message of the
      error it threw. */
  datatype Fetched<T> = Received(body: T) | Failed(message: string)

  /** What one render shows: the result cards, the spinner, the status line. */
  datatype View = View(places: seq<Place>, isSearching: bool, searchStatus: string)

  /** The fixed anchor the map starts on and distances are measured from. */
  const Anchor: (real, real) := (12.8916, 74.9872)

  /** Autocomplete asks the geocoder only from this many code units on. */
  const SuggestionThreshold: nat := 4

  const LocationNotFound: string := "Location not found"

  /** The message handleSearch alerts for a pair of answers, if any: the
      geocoder's error, "Location not found" for an empty hit list, or the
      point-of-interest service's error. */
  function SearchError(geocode: Fetched<seq<GeoHit>>, poi: Fetched<seq<Feature>>): Option<string> {
    match geocode
    case Failed(m) => Some(m)
    case Received(hits) =>
      if hits == [] then Some(LocationNotFound)
      else if poi.Failed? then Some(poi.message)
      else None
  }

  /** Every shown rating lies between 3.7 and 4.9. */
  ghost predicate RatingsInRange(ps: seq<Place>) {
    forall p | p in ps :: MinRating <= p.rating <= MaxRating
  }

  /** Rearranging places keeps their ratings in range. */
  lemma RatingsInRangeKept(a: seq<Place>, b: seq<Place>)
    requires RatingsInRange(a) && multiset(a) == multiset(b)
    ensures RatingsInRange(b)
  {
    forall p | p in b ensures MinRating <= p.rating <= MaxRating {
      assert p in multiset(b);
    }
  }

  class DiscoveryPage {
    var city: string
    var suggestions: seq<Suggestion>
    var category: string
    var sortBy: string
    var places: seq<Place>
    var isSearching: bool
    var mapCenter: (real, real)
    var searchStatus: string
    /** Messages passed to `alert`, oldest first. */
    var alerts: seq<string>
    /** The sort effect's dependencies [sortBy, places.length] as of its
        last run; React runs it again only when one of them has changed. */
    var sortDeps: (string, int)
    /** Every view rendered so far, oldest first. */
    ghost var views: seq<View>

    /** Between steps: no search is running, the effect has seen the
        current dependencies, and the cards are in the selected order. */
    ghost predicate Valid()
      reads this
    {
      && !isSearching
      && sortDeps == (sortBy, |places|)
      && SortedBy(sortBy, places)
      && RatingsInRange(places)
    }

    /** The first render: the initial state of every `useState`. */
    constructor ()
      ensures Valid()
      ensures city == "" && suggestions == [] && category == "hospital" && sortBy == "rating"
      ensures places == [] && !isSearching && mapCenter == Anchor && searchStatus == "" && alerts == []
      ensures views == [View([], false, "")]
    {
      city, suggestions, category, sortBy := "", [], "hospital", "rating";
      places, isSearching, mapCenter, searchStatus, alerts := [], false, Anchor, "", [];
      sortDeps := ("rating", 0);
      views := [View([], false, "")];
    }

    /** A render followed by the sort effect of lines 109-119: the effect
        body runs only when [sortBy, places.length] differs from its last
        run, and then replaces a non-empty list by a sorted copy, which is
        rendered once more. A list the effect has already seen stays sorted. */
    method Commit()
      requires sortDeps == (sortBy, |places|) ==> SortedBy(sortBy, places)
      modifies this`places, this`sortDeps, this`views
      ensures var runs := (sortBy, |old(places)|) != old(sortDeps) && |old(places)| > 0;
              && places == (if runs then SortPlaces(sortBy, old(places)) else old(places))
              && views == (if runs then old(views) + [View(old(places), isSearching, searchStatus),
                                                      View(places, isSearching, searchStatus)]
                           else old(views) + [View(old(places), isSearching, searchStatus)])
      ensures sortDeps == (sortBy, |places|)
      ensures SortedBy(sortBy, places)
      ensures multiset(places) == multiset(old(places))
    {
      var shown := View(places, isSearching, searchStatus);
      if (sortBy, |places|) != sortDeps && |places| > 0 {
        SortPlacesCorrect(sortBy, places);
        places := SortPlaces(sortBy, places);
        views := views + [shown, View(places, isSearching, searchStatus)];
      } else {
        views := views + [shown];
      }
      sortDeps := (sortBy, |places|);
    }

    /** `onChange` of the city input. */
    method TypeCity(value: string)
      requires Valid()
      modifies this`city, this`places, this`sortDeps, this`views
      ensures Valid()
      ensures city == value && places == old(places)
    {
      city := value;
      Commit();
    }

    /** The debounced autocomplete callback, once its 300 ms have passed:
        from four code units on the geocoder's answer replaces the list
        (a failed request rejects unhandled and changes nothing); below
        that the list is emptied. */
    method SuggestionTimerFires(answer: Fetched<seq<Suggestion>>)
      requires Valid()
      modifies this`suggestions, this`places, this`sortDeps, this`views
      ensures Valid()
      ensures JsLength(city) < SuggestionThreshold ==> suggestions == []
      ensures JsLength(city) >= SuggestionThreshold && answer.Received? ==> suggestions == answer.body
      ensures JsLength(city) >= SuggestionThreshold && answer.Failed? ==> suggestions == old(suggestions)
      ensures places == old(places)
    {
      if JsLength(city) >= SuggestionThreshold {
        match answer
        case Received(data) => suggestions := data;
        case Failed(_) =>
      } else {
        suggestions := [];
      }
      Commit();
    }

    /** `onChange` of the category selector; the shown results stay. */
    method ChooseCategory(value: string)
      requires Valid()
      modifies this`category, this`places, this`sortDeps, this`views
      ensures Valid()
      ensures category == value && places == old(places)
    {
      category := value;
      Commit();
    }

    /** `onChange` of the sort selector: the shown places are re-ordered
        by the new key without a new search; the same places remain. */
    method ChooseSortKey(value: string)
      requires Valid()
      modifies this`sortBy, this`places, this`sortDeps, this`views
      ensures Valid()
      ensures sortBy == value
      ensures places == (if value != old(sortBy) && |old(places)| > 0 then SortPlaces(value, old(places)) else old(places))
      ensures multiset(places) == multiset(old(places))
    {
      sortBy := value;
      ghost var before := places;
      Commit();
      RatingsInRangeKept(before, places);
    }

    /** handleSearch(name). An empty name only empties the suggestions.
        Otherwise the cards are emptied and the spinner shown before the
        geocoder is asked (the first view rendered); a failure alerts its
        message and leaves no cards; a success centres the map on the first
        hit, sets the status line and shows the named features as places,
        sorted by the current key. The spinner is off at the end. */
    method HandleSearch(name: string, geocode: Fetched<seq<GeoHit>>, poi: Fetched<seq<Feature>>,
                        distanceTo: (real, real) -> nat)
      requires Valid()
      modifies this`suggestions, this`isSearching, this`places, this`mapCenter,
               this`searchStatus, this`alerts, this`sortDeps, this`views
      ensures Valid()
      ensures suggestions == []
      ensures name == "" ==> places == old(places) && searchStatus == old(searchStatus)
                             && alerts == old(alerts) && mapCenter == old(mapCenter)
      ensures name != "" ==> |views| > |old(views)| && views[|old(views)|] == View([], true, old(searchStatus))
      ensures name != "" && SearchError(geocode, poi).Some? ==>
                places == [] && searchStatus == old(searchStatus)
                && alerts == old(alerts) + [SearchError(geocode, poi).value]
      ensures name != "" && SearchError(geocode, poi).None? ==>
                places == SortPlaces(sortBy, ToPlaces(poi.body, category, name, distanceTo))
                && searchStatus == StatusLabel(category, name) && alerts == old(alerts)
      ensures name != "" && geocode.Received? && geocode.body != [] ==>
                mapCenter == (geocode.body[0].lat, geocode.body[0].lon)
      ensures !(name != "" && geocode.Received? && geocode.body != []) ==> mapCenter == old(mapCenter)
    {
      suggestions := [];
      if name == "" {
        Commit();
        return;
      }
      StartSearch();
      ghost var first := |old(views)|;
      assert views[first] == View([], true, old(searchStatus));
      ReceiveAnswers(name, geocode, poi, distanceTo);
      FinishSearch();
      assert views[first] == View([], true, old(searchStatus));
    }

    /** The spinner goes on and the cards are emptied; the render shows that
        before the geocoder is asked. */
    method StartSearch()
      modifies this`isSearching, this`places, this`sortDeps, this`views
      ensures isSearching && places == [] && sortDeps == (sortBy, 0)
      ensures views == old(views) + [View([], true, searchStatus)]
    {
      isSearching := true;
      places := [];
      Commit();
    }

    /** The `finally` of handleSearch: the spinner goes off and the new
        places, if any, are sorted by the effect. */
    method FinishSearch()
      requires sortDeps == (sortBy, 0) && RatingsInRange(places)
      modifies this`isSearching, this`places, this`sortDeps, this`views
      ensures Valid()
      ensures places == SortPlaces(sortBy, old(places))
      ensures |views| >= |old(views)| && views[..|old(views)|] == old(views)
    {
      isSearching := false;
      ghost var results := places;
      Commit();
      assert places == SortPlaces(sortBy, results) by {
        assert |results| == 0 ==> results == [];
      }
      RatingsInRangeKept(results, places);
    }

    /** The part of handleSearch after its first await: alert on a failed or
        empty geocoder answer; otherwise centre the map (rendered while the
        point-of-interest request is pending), then alert on its failure or
        set the status line and the places built from its features. */
    method ReceiveAnswers(name: string, geocode: Fetched<seq<GeoHit>>, poi: Fetched<seq<Feature>>,
                          distanceTo: (real, real) -> nat)
      requires places == [] && sortDeps == (sortBy, 0)
      modifies this`places, this`mapCenter, this`searchStatus, this`alerts, this`sortDeps, this`views
      ensures SearchError(geocode, poi).Some? ==>
                places == [] && searchStatus == old(searchStatus)
                && alerts == old(alerts) + [SearchError(geocode, poi).value]
      ensures SearchError(geocode, poi).None? ==>
                places == ToPlaces(poi.body, category, name, distanceTo)
                && searchStatus == StatusLabel(category, name) && alerts == old(alerts)
      ensures geocode.Received? && geocode.body != [] ==> mapCenter == (geocode.body[0].lat, geocode.body[0].lon)
      ensures !(geocode.Received? && geocode.body != []) ==> mapCenter == old(mapCenter)
      ensures sortDeps == (sortBy, 0) && RatingsInRange(places)
      ensures |views| >= |old(views)| && views[..|old(views)|] == old(views)
    {
      match geocode {
        case Failed(m) =>
          alerts := alerts + [m];
        case Received(hits) =>
          if hits == [] {
            alerts := alerts + [LocationNotFound];
          } else {
            mapCenter := (hits[0].lat, hits[0].lon);
            Commit();
            match poi {
              case Failed(m) =>
                alerts := alerts + [m];
              case Received(features) =>
                searchStatus := StatusLabel(category, name);
                places := ToPlaces(features, category, name, distanceTo);
            }
          }
      }
    }

    /** A click on a suggestion: the input takes its text and that text is
        searched for, exactly as HandleSearch does with it as the name. The
        category and the sort key stay as they are. */
    method ChooseSuggestion(index: nat, geocode: Fetched<seq<GeoHit>>, poi: Fetched<seq<Feature>>,
                            distanceTo: (real, real) -> nat)
      requires Valid()
      requires index < |suggestions|
      modifies this`city, this`suggestions, this`isSearching, this`places, this`mapCenter,
               this`searchStatus, this`alerts, this`sortDeps, this`views
      ensures Valid()
      ensures city == old(suggestions[index].displayName)
      ensures category == old(category) && sortBy == old(sortBy)
      ensures suggestions == []
      ensures city == "" ==> places == old(places) && searchStatus == old(searchStatus)
                             && alerts == old(alerts) && mapCenter == old(mapCenter)
      ensures city != "" ==> |views| > |old(views)| && views[|old(views)|] == View([], true, old(searchStatus))
      ensures city != "" && SearchError(geocode, poi).Some? ==>
                places == [] && searchStatus == old(searchStatus)
                && alerts == old(alerts) + [SearchError(geocode, poi).value]
      ensures city != "" && SearchError(geocode, poi).None? ==>
                places == SortPlaces(sortBy, ToPlaces(poi.body, category, city, distanceTo))
                && searchStatus == StatusLabel(category, city) && alerts == old(alerts)
      ensures city != "" && geocode.Received? && geocode.body != [] ==>
                mapCenter == (geocode.body[0].lat, geocode.body[0].lon)
      ensures !(city != "" && geocode.Received? && geocode.body != []) ==> mapCenter == old(mapCenter)
    {
      city := suggestions[index].displayName;
      HandleSearch(city, geocode, poi, distanceTo);
    }
  }
}
