/**
 * location_services.py: the budget filter, the two provider adapters and the aggregator
 * get_nearby_recommendations, as the step-by-step list building the source does.
 *
 * The HTTP calls are not modelled: each adapter returns the query it would send (None when it
 * sends nothing) and takes the provider's answer to that query as an input.
 */
module LocationServices {
  import opened Wrappers
  import opened Places
  import opened Ranking

  /** The search radius, in meters, used when the caller gives none. */
  const DefaultRadius := 5000
  /** Yelp's largest accepted search radius, in meters. */
  const YelpMaxRadius := 40000
  /** How many entries of each list the aggregator returns. */
  const TopCount := 15
  /** The activity categories, in the order in which they are queried. */
  const ActivityTypes: seq<string> :=
    ["tourist_attraction", "amusement_park", "museum", "park", "zoo", "shopping_mall"]

  /** A provider's answer: the request raised (transport error, timeout, non-2xx status), or a
      JSON body whose list of records (`businesses` / `results`) may be missing. */
  datatype Reply<R> = RequestFailed | Answered(records: Option<seq<R>>)

  /** `if not API_KEY`: an unset or empty key means no request is made. */
  predicate HasKey(apiKey: Option<string>)
    ensures HasKey(apiKey) <==> apiKey != None && apiKey != Some("")
  {
    apiKey.Some? && apiKey.value != ""
  }

  // ---------------------------------------------------------------------------------------
  // Budget filter

  /** filter_by_budget: keeps, in order, the places whose price level (1 when missing) the
      budget tier admits. */
  method FilterByBudget(places: seq<Place>, budget: string) returns (filtered: seq<Place>)
    ensures filtered == KeepAffordable(places, budget)
    ensures forall p :: p in filtered <==> p in places && PriceOf(p) in AllowedPrices(budget)
    ensures IsSubsequence(filtered, places) && |filtered| <= |places|
    ensures forall p :: multiset(filtered)[p] == if Affordable(p, budget) then multiset(places)[p] else 0
  {
    var allowed := AllowedPrices(budget);
    filtered := [];
    for i := 0 to |places|
      invariant filtered == KeepAffordable(places[..i], budget)
    {
      var price := PriceOf(places[i]);
      if price in allowed {
        filtered := filtered + [places[i]];
      }
      assert places[..i + 1][..i] == places[..i];
    }
    assert places[..|places|] == places;
    forall p ensures p in filtered <==> p in places && PriceOf(p) in AllowedPrices(budget) {
      KeepAffordableMembers(places, budget, p);
    }
    forall p ensures multiset(filtered)[p] == if Affordable(p, budget) then multiset(places)[p] else 0 {
      KeepAffordableCount(places, budget, p);
    }
    KeepAffordableSubsequence(places, budget);
  }

  // ---------------------------------------------------------------------------------------
  // Restaurant provider (Yelp)

  /** The query parameters of a Yelp business search. */
  datatype YelpQuery = YelpQuery(
    latitude: real,
    longitude: real,
    radius: int,
    categories: string,
    price: string,
    limit: nat,
    sortBy: string)

  /** Yelp's `price` parameter for a budget tier. */
  function YelpPriceFilter(budget: string): (price: string)
    ensures price in {"1,2", "2,3", "3,4", "1,2,3,4"}
  {
    var tier := Lower(budget);
    if tier == "low" then "1,2"
    else if tier == "medium" then "2,3"
    else if tier == "high" then "3,4"
    else "1,2,3,4"
  }

  /** The comma-separated list of price levels, as Yelp's `price` parameter spells it. */
  function JoinLevels(levels: seq<int>): string
    requires forall level :: level in levels ==> 0 <= level <= 9
  {
    if levels == [] then ""
    else
      assert levels[0] in levels;
      var digit := "0123456789"[levels[0]];
      if |levels| == 1 then [digit]
      else
        assert forall level :: level in levels[1..] ==> level in levels;
        [digit] + "," + JoinLevels(levels[1..])
  }

  /** Yelp is asked, server side, for exactly the price levels that the local filter admits. */
  lemma YelpPriceMatchesFilter(budget: string)
    ensures YelpPriceFilter(budget) == JoinLevels(AllowedPrices(budget))
  {
    var tier := Lower(budget);
    if tier == "low" {
      assert JoinLevels([1, 2]) == "1,2" by { assert [1, 2][1..] == [2]; }
    } else if tier == "medium" {
      assert JoinLevels([2, 3]) == "2,3" by { assert [2, 3][1..] == [3]; }
    } else if tier == "high" {
      assert JoinLevels([3, 4]) == "3,4" by { assert [3, 4][1..] == [4]; }
    } else {
      assert JoinLevels([1, 2, 3, 4]) == "1,2,3,4" by {
        assert [1, 2, 3, 4][1..] == [2, 3, 4];
        assert [2, 3, 4][1..] == [3, 4];
        assert [3, 4][1..] == [4];
      }
    }
  }

  /** The search sent to Yelp: the radius is capped at Yelp's maximum and otherwise unchanged,
      the tier becomes Yelp's price list, at most 20 results sorted by rating. */
  function YelpParams(latitude: real, longitude: real, budget: string, radius: int): (q: YelpQuery)
    ensures q.radius <= YelpMaxRadius
    ensures q.radius == radius || (radius > YelpMaxRadius && q.radius == YelpMaxRadius)
    ensures q.latitude == latitude && q.longitude == longitude
    ensures q.price == YelpPriceFilter(budget)
    ensures q.categories == "restaurants,food" && q.limit == 20 && q.sortBy == "rating"
  {
    YelpQuery(latitude, longitude, if radius < YelpMaxRadius then radius else YelpMaxRadius,
              "restaurants,food", YelpPriceFilter(budget), 20, "rating")
  }

  /** The restaurants the Yelp adapter returns: nothing without a key or when the request
      raises; otherwise every business, normalised, in the provider's order. */
  function YelpRestaurants(apiKey: Option<string>, reply: Reply<YelpBusiness>): (r: seq<Place>)
    ensures !HasKey(apiKey) || reply.RequestFailed? ==> r == []
    ensures HasKey(apiKey) && reply.Answered? ==>
              var businesses := reply.records.GetOr([]);
              |r| == |businesses| && forall i :: 0 <= i < |r| ==> r[i] == NormalizeYelp(businesses[i])
  {
    if !HasKey(apiKey) then []
    else match reply
      case RequestFailed => []
      case Answered(records) =>
        var businesses := records.GetOr([]);
        seq(|businesses|, i requires 0 <= i < |businesses| => NormalizeYelp(businesses[i]))
  }

  /** search_yelp_restaurants. */
  method SearchYelpRestaurants(apiKey: Option<string>, latitude: real, longitude: real,
                               budget: string, radius: int := DefaultRadius, reply: Reply<YelpBusiness>)
    returns (query: Option<YelpQuery>, restaurants: seq<Place>)
    ensures query == if HasKey(apiKey) then Some(YelpParams(latitude, longitude, budget, radius)) else None
    ensures restaurants == YelpRestaurants(apiKey, reply)
  {
    if !HasKey(apiKey) {
      return None, [];
    }
    query := Some(YelpParams(latitude, longitude, budget, radius));
    match reply {
      case RequestFailed =>
        restaurants := [];
      case Answered(records) =>
        var businesses := records.GetOr([]);
        restaurants := [];
        for i := 0 to |businesses|
          invariant |restaurants| == i
          invariant forall j :: 0 <= j < i ==> restaurants[j] == NormalizeYelp(businesses[j])
        {
          restaurants := restaurants + [NormalizeYelp(businesses[i])];
        }
    }
  }

  // ---------------------------------------------------------------------------------------
  // Activity provider (Google Places)

  /** The query parameters of a Google nearby search. The radius is sent unchanged. */
  datatype GoogleQuery = GoogleQuery(
    latitude: real,
    longitude: real,
    radius: int,
    placeType: string,
    key: string)

  /** Every place of the answer, normalised, in the provider's order. */
  function NormalizeAllGoogle(results: seq<GooglePlace>): (r: seq<Place>)
    ensures |r| == |results|
    ensures forall i :: 0 <= i < |r| ==> r[i] == NormalizeGoogle(results[i])
  {
    seq(|results|, i requires 0 <= i < |results| => NormalizeGoogle(results[i]))
  }

  /** The places the Google adapter returns: nothing without a key or when the request raises;
      otherwise the normalised places that the budget filter keeps. */
  function GooglePlaces(apiKey: Option<string>, budget: string, reply: Reply<GooglePlace>): (r: seq<Place>)
    ensures !HasKey(apiKey) || reply.RequestFailed? ==> r == []
    ensures HasKey(apiKey) && reply.Answered? ==>
              r == KeepAffordable(NormalizeAllGoogle(reply.records.GetOr([])), budget)
  {
    if !HasKey(apiKey) then []
    else match reply
      case RequestFailed => []
      case Answered(records) => KeepAffordable(NormalizeAllGoogle(records.GetOr([])), budget)
  }

  /** What the Google adapter returns is affordable and tagged as coming from Google. */
  lemma GooglePlacesAffordable(apiKey: Option<string>, budget: string, reply: Reply<GooglePlace>, p: Place)
    requires p in GooglePlaces(apiKey, budget, reply)
    ensures Affordable(p, budget) && p.source == GoogleSource && p.priceLevel.Some?
  {
    var results := reply.records.GetOr([]);
    KeepAffordableMembers(NormalizeAllGoogle(results), budget, p);
  }

  /** search_google_places. */
  method SearchGooglePlaces(apiKey: Option<string>, latitude: real, longitude: real,
                            placeType: string, budget: string, radius: int := DefaultRadius, reply: Reply<GooglePlace>)
    returns (query: Option<GoogleQuery>, places: seq<Place>)
    ensures query == if HasKey(apiKey) then Some(GoogleQuery(latitude, longitude, radius, placeType, apiKey.value)) else None
    ensures places == GooglePlaces(apiKey, budget, reply)
  {
    if !HasKey(apiKey) {
      return None, [];
    }
    query := Some(GoogleQuery(latitude, longitude, radius, placeType, apiKey.value));
    match reply {
      case RequestFailed =>
        places := [];
      case Answered(records) =>
        var results := records.GetOr([]);
        var normalized: seq<Place> := [];
        for i := 0 to |results|
          invariant |normalized| == i
          invariant forall j :: 0 <= j < i ==> normalized[j] == NormalizeGoogle(results[j])
        {
          normalized := normalized + [NormalizeGoogle(results[i])];
        }
        assert normalized == NormalizeAllGoogle(results);
        places := FilterByBudget(normalized, budget);
    }
  }

  // ---------------------------------------------------------------------------------------
  // Aggregator

  /** The environment of one call of get_nearby_recommendations: the two API keys and what each
      provider answers (Google's answer depends on the category asked for). */
  datatype Providers = Providers(
    yelpKey: Option<string>,
    googleKey: Option<string>,
    yelpReply: Reply<YelpBusiness>,
    googleReply: string -> Reply<GooglePlace>)

  /** The response envelope. */
  datatype Recommendations = Recommendations(
    latitude: real,
    longitude: real,
    radiusMeters: int,
    budget: string,
    restaurants: seq<Place>,
    activities: seq<Place>,
    totalRestaurants: nat,
    totalActivities: nat)

  /** The activities of the given categories, concatenated in the order of the categories. */
  function AllActivities(providers: Providers, budget: string, types: seq<string>): (activities: seq<Place>)
    ensures !HasKey(providers.googleKey) ==> activities == []
  {
    if types == [] then []
    else
      AllActivities(providers, budget, types[..|types| - 1])
      + GooglePlaces(providers.googleKey, budget, providers.googleReply(types[|types| - 1]))
  }

  /** An activity is collected exactly when the search of some category returned it. */
  lemma {:induction false} AllActivitiesMembers(providers: Providers, budget: string, types: seq<string>, p: Place)
    ensures p in AllActivities(providers, budget, types) <==>
            exists i :: 0 <= i < |types| && p in GooglePlaces(providers.googleKey, budget, providers.googleReply(types[i]))
  {
    if types != [] {
      var init := types[..|types| - 1];
      AllActivitiesMembers(providers, budget, init, p);
      var last := GooglePlaces(providers.googleKey, budget, providers.googleReply(types[|types| - 1]));
      if p in last {
        assert 0 <= |types| - 1 < |types|;
      } else if p in AllActivities(providers, budget, init) {
        var i :| 0 <= i < |init| && p in GooglePlaces(providers.googleKey, budget, providers.googleReply(init[i]));
        assert types[i] == init[i];
      } else {
        forall i | 0 <= i < |types|
          ensures p !in GooglePlaces(providers.googleKey, budget, providers.googleReply(types[i]))
        {
          if i < |init| {
            assert types[i] == init[i];
          }
        }
      }
    }
  }

  /** The Google searches the aggregator sends: one per category, in order, or none without a key. */
  function GoogleQueries(apiKey: Option<string>, latitude: real, longitude: real, radius: int,
                         types: seq<string>): (qs: seq<GoogleQuery>)
    ensures !HasKey(apiKey) ==> qs == []
    ensures HasKey(apiKey) ==> |qs| == |types|
    ensures HasKey(apiKey) ==>
              forall i :: 0 <= i < |qs| ==> qs[i] == GoogleQuery(latitude, longitude, radius, types[i], apiKey.value)
  {
    if !HasKey(apiKey) then []
    else seq(|types|, i requires 0 <= i < |types| => GoogleQuery(latitude, longitude, radius, types[i], apiKey.value))
  }

  /** get_nearby_recommendations as a function of its inputs: the exception raised by sorting
      unrated records, or the envelope with both lists sorted and cut to the top entries and the
      totals counted before the cut. */
  function Recommend(providers: Providers, latitude: real, longitude: real, budget: string,
                     radius: int): (r: Result<Recommendations, SortError>)
    ensures r.Success? ==> && r.value.latitude == latitude && r.value.longitude == longitude
                           && r.value.radiusMeters == radius && r.value.budget == budget
    ensures r.Success? ==> && |r.value.restaurants| <= TopCount && |r.value.restaurants| <= r.value.totalRestaurants
                           && |r.value.activities| <= TopCount && |r.value.activities| <= r.value.totalActivities
  {
    var restaurants := YelpRestaurants(providers.yelpKey, providers.yelpReply);
    var unique := FirstById(AllActivities(providers, budget, ActivityTypes));
    match SortedByRating(restaurants)
    case Failure(e) => Failure(e)
    case Success(sortedRestaurants) =>
      match SortedByRating(unique)
      case Failure(e) => Failure(e)
      case Success(sortedActivities) =>
        Success(Recommendations(latitude, longitude, radius, budget,
                                Top(sortedRestaurants, TopCount), Top(sortedActivities, TopCount),
                                |sortedRestaurants|, |sortedActivities|))
  }

  /** The duplicate-removal loop of get_nearby_recommendations: the first record of each id,
      in order of first appearance. */
  method RemoveDuplicateIds(activities: seq<Place>) returns (unique: seq<Place>)
    ensures unique == FirstById(activities)
    ensures DistinctIds(unique)
    ensures IdsOf(unique) == IdsOf(activities)
    ensures IsSubsequence(unique, activities)
    ensures forall k :: 0 <= k < |unique| ==>
              unique[k].id in IdsOf(activities) && unique[k] == FirstWithId(activities, unique[k].id)
    ensures forall i, j :: 0 <= i < j < |unique| ==> InFirstAppearanceOrder(activities, unique[i], unique[j])
  {
    unique := [];
    var seenIds: set<Option<string>> := {};
    for i := 0 to |activities|
      invariant unique == FirstById(activities[..i])
      invariant seenIds == IdsOf(unique)
    {
      var activity := activities[i];
      assert activities[..i + 1][..i] == activities[..i];
      if activity.id !in seenIds {
        IdsOfAppend(unique, activity);
        unique := unique + [activity];
        seenIds := seenIds + {activity.id};
      }
    }
    assert activities[..|activities|] == activities;
    FirstByIdDistinct(activities);
    FirstByIdKeepsIds(activities);
    FirstByIdSubsequence(activities);
    FirstByIdKeepsFirst(activities);
    FirstByIdInOrder(activities);
  }

  /** The category loop of get_nearby_recommendations: one Google search per category, in the
      order of the categories, with the results appended one list after another. */
  method CollectActivities(providers: Providers, latitude: real, longitude: real, budget: string, radius: int)
    returns (activities: seq<Place>, googleQueries: seq<GoogleQuery>)
    ensures activities == AllActivities(providers, budget, ActivityTypes)
    ensures googleQueries == GoogleQueries(providers.googleKey, latitude, longitude, radius, ActivityTypes)
  {
    activities := [];
    googleQueries := [];
    for i := 0 to |ActivityTypes|
      invariant activities == AllActivities(providers, budget, ActivityTypes[..i])
      invariant googleQueries == GoogleQueries(providers.googleKey, latitude, longitude, radius, ActivityTypes[..i])
    {
      var activityType := ActivityTypes[i];
      var query, places := SearchGooglePlaces(providers.googleKey, latitude, longitude, activityType,
                                              budget, radius, providers.googleReply(activityType));
      assert ActivityTypes[..i + 1] == ActivityTypes[..i] + [activityType];
      GoogleQueriesAppend(providers.googleKey, latitude, longitude, radius, ActivityTypes[..i], activityType);
      if query.Some? {
        googleQueries := googleQueries + [query.value];
      }
      activities := activities + places;
      assert ActivityTypes[..i + 1][..i] == ActivityTypes[..i];
    }
    assert ActivityTypes[..|ActivityTypes|] == ActivityTypes;
  }

  /** One more category adds its search at the end, when a key is set. */
  lemma GoogleQueriesAppend(apiKey: Option<string>, latitude: real, longitude: real, radius: int,
                            types: seq<string>, placeType: string)
    ensures GoogleQueries(apiKey, latitude, longitude, radius, types + [placeType])
            == GoogleQueries(apiKey, latitude, longitude, radius, types)
               + (if HasKey(apiKey) then [GoogleQuery(latitude, longitude, radius, placeType, apiKey.value)] else [])
  {
  }

  /** get_nearby_recommendations. Returns the envelope (or the exception the sort raises), and
      the searches it sends to each provider. */
  method GetNearbyRecommendations(providers: Providers, latitude: real, longitude: real,
                                  budget: string, radius: int := DefaultRadius)
    returns (result: Result<Recommendations, SortError>,
             yelpQuery: Option<YelpQuery>, googleQueries: seq<GoogleQuery>)
    ensures result == Recommend(providers, latitude, longitude, budget, radius)
    ensures yelpQuery == if HasKey(providers.yelpKey)
                         then Some(YelpParams(latitude, longitude, budget, radius)) else None
    ensures googleQueries == GoogleQueries(providers.googleKey, latitude, longitude, radius, ActivityTypes)
  {
    var restaurants;
    yelpQuery, restaurants := SearchYelpRestaurants(providers.yelpKey, latitude, longitude,
                                                    budget, radius, providers.yelpReply);
    var activities;
    activities, googleQueries := CollectActivities(providers, latitude, longitude, budget, radius);
    var unique := RemoveDuplicateIds(activities);
    var sortedRestaurants := SortedByRating(restaurants);
    if sortedRestaurants.Failure? {
      return Failure(sortedRestaurants.error), yelpQuery, googleQueries;
    }
    var sortedActivities := SortedByRating(unique);
    if sortedActivities.Failure? {
      return Failure(sortedActivities.error), yelpQuery, googleQueries;
    }
    var restaurantList, activityList := sortedRestaurants.value, sortedActivities.value;
    result := Success(Recommendations(latitude, longitude, radius, budget,
                                      Top(restaurantList, TopCount), Top(activityList, TopCount),
                                      |restaurantList|, |activityList|));
  }

  // ---------------------------------------------------------------------------------------
  // Properties of the aggregator

  /** Every activity collected is affordable and comes from the Google adapter. */
  lemma {:induction false} AllActivitiesFromGoogle(providers: Providers, budget: string,
                                                   types: seq<string>, p: Place)
    requires p in AllActivities(providers, budget, types)
    ensures Affordable(p, budget) && p.source == GoogleSource
  {
    var init := types[..|types| - 1];
    var last := providers.googleReply(types[|types| - 1]);
    if p in AllActivities(providers, budget, init) {
      AllActivitiesFromGoogle(providers, budget, init, p);
    } else {
      GooglePlacesAffordable(providers.googleKey, budget, last, p);
    }
  }

  /** One returned list: sorted highest-first, the first min(15, n) of the sorted records,
      drawn from the input, and never leaving out a record rated above one it shows. */
  lemma RankedAndCut(s: seq<Place>, sorted: seq<Place>)
    requires SortedByRating(s) == Success(sorted)
    ensures |sorted| == |s|
    ensures |Top(sorted, TopCount)| == if |s| < TopCount then |s| else TopCount
    ensures Descending(Top(sorted, TopCount))
    ensures forall p :: p in Top(sorted, TopCount) ==> p in s
    ensures forall p, q :: p in s && p !in Top(sorted, TopCount) && q in Top(sorted, TopCount) ==>
              RatedAtLeast(q, p)
  {
    var shown := Top(sorted, TopCount);
    assert |multiset(sorted)| == |multiset(s)|;
    TopDescending(sorted, TopCount);
    forall p | p in shown ensures p in s {
      assert p in multiset(sorted);
    }
    forall p, q | p in s && p !in shown && q in shown ensures RatedAtLeast(q, p) {
      assert p in multiset(s);
      TopIsBest(sorted, TopCount, p, q);
    }
  }

  /** The aggregator fails exactly when a list that has to be sorted holds two or more records
      and one of them has no rating; restaurants are sorted first. */
  lemma RecommendFails(providers: Providers, latitude: real, longitude: real, budget: string, radius: int)
    ensures var restaurants := YelpRestaurants(providers.yelpKey, providers.yelpReply);
            var unique := FirstById(AllActivities(providers, budget, ActivityTypes));
            Recommend(providers, latitude, longitude, budget, radius).Failure? <==>
              (|restaurants| >= 2 && !AllRated(restaurants)) || (|unique| >= 2 && !AllRated(unique))
  {
  }

  /** The restaurant half of the envelope. */
  lemma RecommendRestaurants(providers: Providers, latitude: real, longitude: real, budget: string, radius: int)
    requires Recommend(providers, latitude, longitude, budget, radius).Success?
    ensures var rec := Recommend(providers, latitude, longitude, budget, radius).value;
            var restaurants := YelpRestaurants(providers.yelpKey, providers.yelpReply);
            && rec.totalRestaurants == |restaurants|
            && |rec.restaurants| == (if |restaurants| < TopCount then |restaurants| else TopCount)
            && Descending(rec.restaurants)
            && (forall p :: p in rec.restaurants ==> p in restaurants && p.source == YelpSource)
            && (forall p, q :: p in restaurants && p !in rec.restaurants && q in rec.restaurants ==>
                  RatedAtLeast(q, p))
  {
    var restaurants := YelpRestaurants(providers.yelpKey, providers.yelpReply);
    RankedAndCut(restaurants, SortedByRating(restaurants).value);
    forall p | p in restaurants ensures p.source == YelpSource {
      var i :| 0 <= i < |restaurants| && restaurants[i] == p;
    }
  }

  /** The activity half of the envelope. */
  lemma RecommendActivities(providers: Providers, latitude: real, longitude: real, budget: string, radius: int)
    requires Recommend(providers, latitude, longitude, budget, radius).Success?
    ensures var rec := Recommend(providers, latitude, longitude, budget, radius).value;
            var all := AllActivities(providers, budget, ActivityTypes);
            var unique := FirstById(all);
            && rec.totalActivities == |unique|
            && |rec.activities| == (if |unique| < TopCount then |unique| else TopCount)
            && Descending(rec.activities)
            && DistinctIds(rec.activities)
            && (forall p :: p in rec.activities ==>
                  p in unique && Affordable(p, budget) && p.source == GoogleSource)
            && (forall p, q :: p in unique && p !in rec.activities && q in rec.activities ==>
                  RatedAtLeast(q, p))
  {
    var rec := Recommend(providers, latitude, longitude, budget, radius).value;
    var all := AllActivities(providers, budget, ActivityTypes);
    var unique := FirstById(all);
    var sorted := SortedByRating(unique).value;
    RankedAndCut(unique, sorted);
    FirstByIdSubsequence(all);
    SubsequenceLength(unique, all);
    forall p | p in rec.activities ensures Affordable(p, budget) && p.source == GoogleSource {
      AllActivitiesFromGoogle(providers, budget, ActivityTypes, p);
    }
    FirstByIdDistinct(all);
    DistinctAfterSortAndCut(unique, sorted);
  }

  /** Sorting and cutting a list with distinct ids keeps the ids distinct. */
  lemma DistinctAfterSortAndCut(unique: seq<Place>, sorted: seq<Place>)
    requires DistinctIds(unique) && multiset(sorted) == multiset(unique)
    ensures DistinctIds(Top(sorted, TopCount))
  {
    var shown := Top(sorted, TopCount);
    forall i, j | 0 <= i < j < |shown| ensures shown[i].id != shown[j].id {
      DistinctIdsAreDistinctRecords(unique, sorted, i, j);
    }
  }

  /** In a permutation of a list with distinct ids, two positions hold records with different ids. */
  lemma DistinctIdsAreDistinctRecords(unique: seq<Place>, sorted: seq<Place>, i: nat, j: nat)
    requires DistinctIds(unique) && multiset(sorted) == multiset(unique)
    requires i < j < |sorted|
    ensures sorted[i].id != sorted[j].id
  {
    var p, q := sorted[i], sorted[j];
    assert p in multiset(unique) && q in multiset(unique);
    var a :| 0 <= a < |unique| && unique[a] == p;
    var b :| 0 <= b < |unique| && unique[b] == q;
    // p occurs before position j, so if q were p it would occur twice in `sorted`.
    assert multiset(sorted)[p] >= 1 + (if q == p then 1 else 0) by {
      assert sorted == sorted[..j] + [q] + sorted[j + 1..];
      assert sorted[..j][i] == p;
    }
    OnlyOnce(unique, a);
    assert p != q;
    assert a != b;
  }

  /** In a list with distinct ids every record occurs once. */
  lemma OnlyOnce(s: seq<Place>, a: nat)
    requires DistinctIds(s) && a < |s|
    ensures multiset(s)[s[a]] == 1
  {
    var p := s[a];
    assert s == s[..a] + [p] + s[a + 1..];
    forall k | 0 <= k < a ensures s[..a][k] != p {
      assert s[k].id != s[a].id;
    }
    var after := s[a + 1..];
    forall k | 0 <= k < |after| ensures after[k] != p {
      assert after[k] == s[a + 1 + k];
    }
    assert p !in s[..a] && p !in s[a + 1..];
  }

  /** A requested radius of 999999 meters reaches Yelp as 40000; Google gets it unchanged. */
  lemma RadiusExample(providers: Providers, latitude: real, longitude: real, budget: string)
    requires HasKey(providers.yelpKey) && HasKey(providers.googleKey)
    ensures YelpParams(latitude, longitude, budget, 999999).radius == 40000
    ensures forall q :: q in GoogleQueries(providers.googleKey, latitude, longitude, 999999, ActivityTypes) ==>
              q.radius == 999999
  {
  }

  /** A call that gives no radius searches 5000 meters around the point, at Yelp and at Google. */
  method DefaultRadiusExample(providers: Providers, latitude: real, longitude: real, budget: string)
    returns (yelpQuery: Option<YelpQuery>, googleQueries: seq<GoogleQuery>)
    ensures HasKey(providers.yelpKey) <==> yelpQuery.Some?
    ensures yelpQuery.Some? ==> yelpQuery.value.radius == 5000
    ensures HasKey(providers.googleKey) ==> |googleQueries| == |ActivityTypes|
    ensures forall i :: 0 <= i < |googleQueries| ==> googleQueries[i].radius == 5000
  {
    var result;
    result, yelpQuery, googleQueries := GetNearbyRecommendations(providers, latitude, longitude, budget);
  }
}
