/**
 * Place records as the two provider adapters of location_services.py
 * normalise them, the budget tiers, and the budget filter's specification.
 */
module Places {
  import opened Wrappers

  /** A normalised place. Ratings are kept as integers (tenths of a star); only their order
      matters to the core. `rating` is None when the provider sent no rating (the record still
      carries the key). `priceLevel` is None only for a record that lacks the key altogether,
      which the adapters never produce but the budget filter accepts. The pass-through fields
      (address, phone, url, coordinates, photos, ...) are not modelled. */
  datatype Place = Place(
    id: Option<string>,
    name: Option<string>,
    rating: Option<int>,
    priceLevel: Option<int>,
    source: string)

  /** A business as the restaurant provider (Yelp) reports it: `price` is a string of '$' signs. */
  datatype YelpBusiness = YelpBusiness(
    id: Option<string>,
    name: Option<string>,
    rating: Option<int>,
    price: Option<string>)

  /** A place as the activity provider (Google Places) reports it. */
  datatype GooglePlace = GooglePlace(
    placeId: Option<string>,
    name: Option<string>,
    rating: Option<int>,
    priceLevel: Option<int>)

  const YelpSource := "yelp"
  const GoogleSource := "google_places"

  /** One Yelp business in the normalised shape: identity fields carried over, the price level
      is the number of symbols in the price string, and an absent price counts as one symbol. */
  function NormalizeYelp(b: YelpBusiness): (p: Place)
    ensures p.id == b.id && p.name == b.name && p.rating == b.rating
    ensures p.source == YelpSource
    ensures b.price.None? ==> p.priceLevel == Some(1)
    ensures b.price.Some? ==> p.priceLevel == Some(|b.price.value|)
  {
    Place(b.id, b.name, b.rating, Some(|b.price.GetOr("$")|), YelpSource)
  }

  /** One Google place in the normalised shape: `place_id` becomes `id`, and a missing price
      level becomes 1. */
  function NormalizeGoogle(g: GooglePlace): (p: Place)
    ensures p.id == g.placeId && p.name == g.name && p.rating == g.rating
    ensures p.source == GoogleSource
    ensures p.priceLevel.Some?
    ensures g.priceLevel.Some? ==> p.priceLevel == g.priceLevel
    ensures g.priceLevel.None? ==> p.priceLevel == Some(1)
  {
    Place(g.placeId, g.name, g.rating, Some(g.priceLevel.GetOr(1)), GoogleSource)
  }

  /** Yelp's two-symbol price "$$" is price level 2; a business without a price is level 1. */
  lemma YelpPriceSymbols(id: Option<string>, name: Option<string>, rating: Option<int>)
    ensures NormalizeYelp(YelpBusiness(id, name, rating, Some("$$"))).priceLevel == Some(2)
    ensures NormalizeYelp(YelpBusiness(id, name, rating, None)).priceLevel == Some(1)
  {
  }

  // ---------------------------------------------------------------------------------------
  // Budget tiers

  /** ASCII lower-casing of one character. */
  function LowerChar(c: char): char {
    if 'A' <= c <= 'Z' then (c as int + 32) as char else c
  }

  /** `str.lower()`, restricted to ASCII letters. */
  function Lower(s: string): (r: string)
    ensures |r| == |s|
    ensures forall i :: 0 <= i < |s| ==> r[i] == LowerChar(s[i])
  {
    seq(|s|, i requires 0 <= i < |s| => LowerChar(s[i]))
  }

  /** Lower-casing twice is lower-casing once. */
  lemma LowerIdempotent(s: string)
    ensures Lower(Lower(s)) == Lower(s)
  {
    var once := Lower(s);
    var twice := Lower(once);
    forall i | 0 <= i < |s| ensures twice[i] == once[i] {
      assert LowerChar(LowerChar(s[i])) == LowerChar(s[i]);
    }
  }

  /** The price levels a budget tier admits; an unrecognised tier admits every level. */
  function AllowedPrices(budget: string): (allowed: seq<int>)
    ensures allowed != []
    ensures forall level :: level in allowed ==> 1 <= level <= 4
  {
    var tier := Lower(budget);
    if tier == "low" then [1, 2]
    else if tier == "medium" then [2, 3]
    else if tier == "high" then [3, 4]
    else [1, 2, 3, 4]
  }

  /** The tier is looked up on the lower-cased budget, so spellings that differ only in the case
      of their letters admit the same price levels. */
  lemma AllowedPricesIgnoresCase(budget: string)
    ensures AllowedPrices(Lower(budget)) == AllowedPrices(budget)
  {
    LowerIdempotent(budget);
  }

  /** "LOW" is the low tier, and a tier nobody defined (here "cheap") admits all four levels. */
  lemma AllowedPricesExamples()
    ensures AllowedPrices("LOW") == AllowedPrices("low") == [1, 2]
    ensures AllowedPrices("Medium") == [2, 3]
    ensures AllowedPrices("high") == [3, 4]
    ensures AllowedPrices("cheap") == [1, 2, 3, 4]
  {
    assert Lower("LOW") == "low";
    assert Lower("Medium") == "medium";
    assert Lower("high") == "high";
    assert Lower("cheap")[0] == 'c';
  }

  /** The price level the filter reads: a missing `price_level` counts as 1. */
  function PriceOf(p: Place): (level: int)
    ensures p.priceLevel.Some? ==> level == p.priceLevel.value
    ensures p.priceLevel.None? ==> level == 1
  {
    p.priceLevel.GetOr(1)
  }

  /** The filter's test; whatever the tier, only levels 1 to 4 pass it. */
  predicate Affordable(p: Place, budget: string)
    ensures Affordable(p, budget) ==> 1 <= PriceOf(p) <= 4
  {
    PriceOf(p) in AllowedPrices(budget)
  }

  /** The budget filter's specification: the affordable places, in their original order. */
  function KeepAffordable(places: seq<Place>, budget: string): (kept: seq<Place>)
    ensures |kept| <= |places|
    ensures forall i :: 0 <= i < |kept| ==> Affordable(kept[i], budget)
  {
    if places == [] then []
    else
      var kept := KeepAffordable(places[..|places| - 1], budget);
      if Affordable(places[|places| - 1], budget) then kept + [places[|places| - 1]] else kept
  }

  /** A place survives the filter exactly when it is in the input and its level is admitted. */
  lemma {:induction false} KeepAffordableMembers(places: seq<Place>, budget: string, p: Place)
    ensures p in KeepAffordable(places, budget) <==> p in places && Affordable(p, budget)
  {
    if places != [] {
      var init := places[..|places| - 1];
      KeepAffordableMembers(init, budget, p);
      assert places == init + [places[|places| - 1]];
    }
  }

  /** The filter keeps every occurrence of a passing record and none of a failing one: it
      removes no repeats. */
  lemma {:induction false} KeepAffordableCount(places: seq<Place>, budget: string, x: Place)
    ensures multiset(KeepAffordable(places, budget))[x] == if Affordable(x, budget) then multiset(places)[x] else 0
  {
    if places != [] {
      var init := places[..|places| - 1];
      KeepAffordableCount(init, budget, x);
      assert places == init + [places[|places| - 1]];
    }
  }

  /** The filter keeps its input's order: its output is a subsequence of the input. */
  lemma {:induction false} KeepAffordableSubsequence(places: seq<Place>, budget: string)
    ensures IsSubsequence(KeepAffordable(places, budget), places)
    ensures |KeepAffordable(places, budget)| <= |places|
  {
    if places != [] {
      var init := places[..|places| - 1];
      KeepAffordableSubsequence(init, budget);
      var kept := KeepAffordable(init, budget);
      if Affordable(places[|places| - 1], budget) {
        assert (kept + [places[|places| - 1]])[..|kept|] == kept;
      }
    }
    SubsequenceLength(KeepAffordable(places, budget), places);
  }

  /** An unrecognised tier removes nothing from records whose levels lie between 1 and 4. */
  lemma KeepAffordableUnknownTier(places: seq<Place>, budget: string)
    requires Lower(budget) !in {"low", "medium", "high"}
    requires forall p :: p in places ==> 1 <= PriceOf(p) <= 4
    ensures KeepAffordable(places, budget) == places
  {
    UnknownTierAdmitsAll(budget);
    forall i | 0 <= i < |places| ensures Affordable(places[i], budget) {
      var level := PriceOf(places[i]);
      assert [1, 2, 3, 4][level - 1] == level;
    }
    KeepAffordableKeepsAll(places, budget);
  }

  /** Under an unrecognised tier, a record is kept exactly when it is in the input and its level
      lies between 1 and 4. */
  lemma KeepAffordableUnknownTierMembers(places: seq<Place>, budget: string, p: Place)
    requires Lower(budget) !in {"low", "medium", "high"}
    ensures p in KeepAffordable(places, budget) <==> p in places && 1 <= PriceOf(p) <= 4
  {
    UnknownTierAdmitsAll(budget);
    KeepAffordableMembers(places, budget, p);
    var level := PriceOf(p);
    if 1 <= level <= 4 {
      assert [1, 2, 3, 4][level - 1] == level;
    }
  }

  lemma UnknownTierAdmitsAll(budget: string)
    requires Lower(budget) !in {"low", "medium", "high"}
    ensures AllowedPrices(budget) == [1, 2, 3, 4]
  {
  }

  /** When every record passes the test, the filter returns its input unchanged. */
  lemma {:induction false} KeepAffordableKeepsAll(places: seq<Place>, budget: string)
    requires forall i :: 0 <= i < |places| ==> Affordable(places[i], budget)
    ensures KeepAffordable(places, budget) == places
  {
    if places != [] {
      var init := places[..|places| - 1];
      var last := places[|places| - 1];
      assert forall i :: 0 <= i < |init| ==> init[i] == places[i];
      KeepAffordableKeepsAll(init, budget);
      assert KeepAffordable(places, budget) == init + [last];
      assert places == init + [last];
    }
  }

  // ---------------------------------------------------------------------------------------
  // Subsequences

  /** `a` is `b` with some elements removed and the rest kept in order. */
  ghost predicate IsSubsequence<T>(a: seq<T>, b: seq<T>)
    decreases |b|
  {
    if b == [] then a == []
    else
      IsSubsequence(a, b[..|b| - 1])
      || (a != [] && a[|a| - 1] == b[|b| - 1] && IsSubsequence(a[..|a| - 1], b[..|b| - 1]))
  }

  lemma {:induction false} SubsequenceLength<T>(a: seq<T>, b: seq<T>)
    requires IsSubsequence(a, b)
    ensures |a| <= |b|
    ensures forall x :: x in a ==> x in b
    decreases |b|
  {
    if b != [] {
      if IsSubsequence(a, b[..|b| - 1]) {
        SubsequenceLength(a, b[..|b| - 1]);
      } else {
        SubsequenceLength(a[..|a| - 1], b[..|b| - 1]);
        assert a == a[..|a| - 1] + [a[|a| - 1]];
      }
    }
  }
}
