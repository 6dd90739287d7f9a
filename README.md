# Travel recommendations core: budget filter, provider adapters, aggregator and token gate

This project is a Dafny model of the core of a small travel-planning backend. It has two parts.

**Nearby recommendations** (`location_services.py`):
- `filter_by_budget` keeps the places whose price level (1 when missing) the budget tier admits:
  - `low` admits 1–2, `medium` 2–3 and `high` 3–4;
  - the tier is matched case-insensitively;
  - any other tier admits 1–4.
- The Yelp restaurant adapter:
  - sends nothing without an API key;
  - clamps the radius to 40000 m;
  - translates the tier into Yelp's price filter;
  - normalises each business, using the length of its price string as the price level (`"$$"` is 2).
- The Google Places activity adapter:
  - sends nothing without a key;
  - passes the radius through unchanged;
  - normalises each result, with a missing price level becoming 1;
  - filters the results by budget.
- `get_nearby_recommendations`:
  - queries six activity categories in a fixed order;
  - keeps the first record of every id;
  - sorts both lists by rating, highest first, with a stable sort;
  - returns the top 15 of each list together with the totals counted before the cut.

**Token authentication** (`auth.py`):
- Tokens are HS256 JSON Web Tokens (RFC 7519) carrying the user's id and name, `exp` = the first clock reading + 24 h, and `iat` = a second clock reading taken just after it.
- `verify_token` returns the payload of a well-signed token that has not expired, and None otherwise.
- The `token_required` gate takes the second space-separated field of the `Authorization` header as the token. It rejects with 401 and one of three messages:
  - "Token is missing";
  - "Invalid token format";
  - "Token is invalid or expired".
- When the gate admits a request, it stores the payload on the request and runs the handler once. `get_current_user` reads the stored payload back.

Modules:
- `Wrappers`: Option and Result.
- `Places`: records, normalisation, budget tiers, the filter's specification, and the subsequence relation.
- `Ranking`: first-by-id deduplication, the stable sort by rating, and the top-n cut.
- `LocationServices`: the adapters and the aggregator, written as methods with loops, each proved equal to a specification function.
- `Auth`: the token service, header parsing, the gate decision, and a `Request` class whose `TokenRequired` method updates the request state.

What the model does with the outside world:
- **Providers:** the HTTP calls become inputs. Each adapter returns the query it would send (None when it sends nothing) and takes the provider's reply to it as a parameter: failed, or answered with a list that may be missing.
- **Clock:** the clock becomes integer seconds passed in by the caller.
- **JWT library:** it becomes an abstract `Signer` (encode and decode functions). The token lemmas assume only what the predicates `RoundTrips`, `BoundToKey` and `Compact` say about it. `BoundToKey` idealises HMAC (see `Auth.VerifyOtherSecret` under "## Left out").

Two behaviours of the code worth knowing:
- **Ratings in the sort.** The code raises when it sorts a list of two or more records and one of them has no rating. The sort's key is `x.get('rating', 0)`, but every normalised record has a `rating` key, so an unrated record contributes None, not 0, and comparing None raises `TypeError`. `Ranking.SortedByRating` and `LocationServices.Recommend` model this as `Failure(RatingNotComparable)`.
- **The scheme word.** The gate never checks that the first word of the header is `Bearer`.

## Model

| member | source | states |
|---|---|---|
| Places.NormalizeYelp | location_services.py:93-107 | id, name and rating carried over; source "yelp"; price level = length of the `price` string, 1 when `price` is absent |
| Places.NormalizeGoogle | location_services.py:147-161 | `place_id` becomes id; name and rating carried over; source "google_places"; the price level is always present and is 1 when the provider gave none |
| Places.YelpPriceSymbols | location_services.py:97 | "$$" is level 2 and an absent price is level 1 |
| Places.Lower | location_services.py:42 | lower-casing keeps the length and maps every character through ASCII case folding |
| Places.LowerIdempotent | location_services.py:42 | lower-casing twice equals lower-casing once |
| Places.AllowedPrices | location_services.py:36-42 | every tier admits a non-empty set of levels, all between 1 and 4 |
| Places.AllowedPricesIgnoresCase | location_services.py:42 | a budget and its lower-cased form admit the same levels |
| Places.AllowedPricesExamples | location_services.py:36-42 | "LOW" → [1,2], "Medium" → [2,3], "high" → [3,4], unknown "cheap" → [1,2,3,4] |
| Places.PriceOf | location_services.py:46 | the level the filter reads is the record's price level, 1 when it has none |
| Places.Affordable | location_services.py:47 | the filter's test; whatever the tier, only levels 1 to 4 pass it |
| Places.KeepAffordable | location_services.py:44-50 | the filter's reference: never longer than the input, and every record kept passes the test |
| Places.UnknownTierAdmitsAll | location_services.py:42 | a budget whose lower-cased form is not "low", "medium" or "high" admits exactly [1, 2, 3, 4] |
| Places.KeepAffordableKeepsAll | location_services.py:44-50 | when every record passes the test, the filter returns its input unchanged |
| Places.KeepAffordableMembers | location_services.py:44-50 | a place is in the filter's output iff it is in the input and its price level (1 when missing) is admitted |
| Places.KeepAffordableCount | location_services.py:44-50 | every occurrence of a passing record is kept and none of a failing one: the output holds each record as often as the input when it passes, never otherwise |
| Places.KeepAffordableSubsequence | location_services.py:44-50 | the output keeps the input's order (a subsequence) and is no longer |
| Places.KeepAffordableUnknownTier | location_services.py:42-50 | with an unrecognised tier and every record priced 1 to 4, the filter returns its input |
| Places.KeepAffordableUnknownTierMembers | location_services.py:42-50 | with an unrecognised tier, a record is kept iff it is in the input and its level (1 when missing) is between 1 and 4 |
| LocationServices.FilterByBudget | location_services.py:25-50 | the loop's output is the filter specification; membership iff input member with admitted level; order kept; no longer than the input; each passing record kept as many times as it occurs |
| LocationServices.HasKey | location_services.py:65 | a key is usable iff it is neither None nor the empty string, Python's two falsy values for it |
| LocationServices.YelpPriceFilter | location_services.py:69-74 | Yelp's price parameter is one of "1,2", "2,3", "3,4" and "1,2,3,4" |
| LocationServices.YelpPriceMatchesFilter | location_services.py:69-74 | Yelp's price string for every budget is exactly the comma-joined list of levels the budget filter admits |
| LocationServices.YelpParams | location_services.py:76-84 | radius ≤ 40000, and equal to the requested radius unless that was larger; coordinates passed through; price from the tier; categories "restaurants,food", limit 20, sort by rating |
| LocationServices.YelpRestaurants | location_services.py:65-114 | empty without a key, on a failed request or on a reply without businesses; otherwise one normalised record per business, in order |
| LocationServices.SearchYelpRestaurants | location_services.py:52-114 | the radius defaults to 5000 m; sends the Yelp query iff a non-empty key is set; the normalising loop's result equals `YelpRestaurants` |
| LocationServices.NormalizeAllGoogle | location_services.py:145-162 | same length as the results, each result normalised in place order |
| LocationServices.GooglePlaces | location_services.py:130-170 | empty without a key or on a failed request; otherwise the budget-filtered normalised results |
| LocationServices.GooglePlacesAffordable | location_services.py:164-166 | every activity returned is from Google, carries a price level and is affordable for the budget |
| LocationServices.SearchGooglePlaces | location_services.py:116-170 | the radius defaults to 5000 m; sends the query (radius unchanged) iff a key is set; the loop-and-filter result equals `GooglePlaces` |
| LocationServices.GoogleQueries | location_services.py:190-195 | without a key no searches; with one, one search per category in the given order, all with the same location and radius |
| LocationServices.GoogleQueriesAppend | location_services.py:193-194 | one more category adds its search at the end when a key is set, and nothing otherwise |
| LocationServices.AllActivities | location_services.py:190-195 | the concatenated activities; none at all without a Google key |
| LocationServices.CollectActivities | location_services.py:190-195 | the category loop's activities equal `AllActivities` over the six categories, and its searches equal `GoogleQueries` |
| LocationServices.Recommend | location_services.py:172-222 | the envelope's reference: on success it echoes the coordinates, radius and budget, and each shown list has at most 15 entries and no more than its total |
| LocationServices.RemoveDuplicateIds | location_services.py:197-203 | the loop's output is the first record of each id, ids pairwise distinct, the same set of ids as the input, order kept, each output record the first one in the input with its id, ids listed in the order of their first appearance |
| LocationServices.GetNearbyRecommendations | location_services.py:172-222 | the radius defaults to 5000 m; the envelope equals `Recommend` of the inputs; the Yelp query is sent iff its key is set; the Google queries are one per category in order |
| LocationServices.AllActivitiesMembers | location_services.py:190-195 | an activity is collected iff the search of some category returned it |
| LocationServices.AllActivitiesFromGoogle | location_services.py:190-195 | every collected activity is from Google and affordable for the budget |
| LocationServices.RankedAndCut | location_services.py:205-217 | sorting keeps the count; the cut has min(n, 15) entries, highest rating first, all from the input, none rated below a left-out record |
| LocationServices.RecommendFails | location_services.py:205-207 | the aggregator raises iff the restaurants or the unique activities number two or more and include an unrated record |
| LocationServices.RecommendRestaurants | location_services.py:186-222 | total = number of restaurants; shown = min(total, 15), descending, all Yelp records from the reply, each rated at least as high as every restaurant left out |
| LocationServices.RecommendActivities | location_services.py:189-222 | total = number of unique activities; shown = min(total, 15), descending, distinct ids, affordable Google records, each rated at least as high as every unique activity left out |
| LocationServices.DistinctAfterSortAndCut | location_services.py:197-217 | sorting and cutting a list with distinct ids keeps them distinct |
| LocationServices.RadiusExample | location_services.py:76-138 | a 999999 m request reaches Yelp as 40000 and every Google search as 999999 |
| LocationServices.DefaultRadiusExample | location_services.py:172 | a call without a radius sends Yelp and every Google search a 5000 m radius |
| Ranking.FirstById | location_services.py:197-203 | the deduplication reference: never longer than the input, and every record kept is from the input |
| Ranking.FirstIndex | location_services.py:200-203 | the position of an id's first record: it carries the id and no earlier record does |
| Ranking.FirstByIdKeepsIds | location_services.py:197-203 | deduplication loses no id |
| Ranking.FirstByIdDistinct | location_services.py:197-203 | after deduplication no id occurs twice |
| Ranking.FirstByIdSubsequence | location_services.py:197-203 | deduplication keeps the input's order and never lengthens it |
| Ranking.FirstByIdKeepsFirst | location_services.py:197-203 | each kept record is the first input record with its id |
| Ranking.FirstByIdInOrder | location_services.py:197-203 | for kept records at positions i < j, the id of the first appears in the input before the id of the second |
| Ranking.RepeatedPlaceKeepsFirstPosition | location_services.py:193-203 | the same place returned for two categories, [v, u, v], deduplicates to [v, u], not [u, v] |
| Ranking.FirstIsOnlyOccurrence | location_services.py:200-203 | a record with an unseen id, appended, is the first record with that id, at the appended position |
| Ranking.InsertByRating | location_services.py:205-207 | insertion adds exactly the one record (multiset) and keeps every record rated |
| Ranking.SortByRating | location_services.py:205-207 | the sort is a permutation of its input |
| Ranking.InsertByRatingDescending | location_services.py:205-207 | inserting into a highest-first list keeps it highest-first |
| Ranking.SortByRatingDescending | location_services.py:205-207 | the sorted list is highest-first |
| Ranking.InsertByRatingStable | location_services.py:205-207 | the inserted record goes after every record it ties with |
| Ranking.SortByRatingStable | location_services.py:205-207 | records with equal ratings keep their relative order |
| Ranking.SortByRatingStableAll | location_services.py:205-207 | stability for every rating at once |
| Ranking.StableSortIsUnique | location_services.py:205-207 | two highest-first lists with the same records per rating, in the same order, are equal: a stable descending sort has exactly one answer |
| Ranking.SortedByRating | location_services.py:205-207 | succeeds iff fewer than two records or all rated; on success a highest-first, stable permutation of the input |
| Ranking.Top | location_services.py:216-217 | the cut has min(|s|, n) entries and is a prefix of the list |
| Ranking.TopIsBest | location_services.py:205-217 | on a sorted list, every entry in the cut is rated at least as high as every entry left out |
| Ranking.TopDescending | location_services.py:216-217 | the cut of a highest-first list is highest-first |
| Ranking.DuplicateIdExample | location_services.py:197-207 | [a(3), b(5), a(1)] deduplicates to [a(3), b(5)] (the first "a" wins) and sorts to [b, a(3)] |
| Auth.SecretKey | auth.py:14 | the environment's secret when it is set, else the fallback secret |
| Auth.Payload | auth.py:27-32 | the payload carries the user's id and name; `exp` is the first clock reading plus 24 h and `iat` is the second reading |
| Auth.TokenLifetime | auth.py:15-32 | the lifetime is 86400 s; `exp` ≤ `iat` + 24 h, with equality iff both clock readings agree |
| Auth.GenerateToken | auth.py:17-34 | the token decodes under the signing secret to the payload of the user and the two clock readings, and is a non-empty, space-free compact token |
| Auth.VerifyToken | auth.py:36-52 | returns claims only when they are what the token decodes to under the secret and are not expired at `now` (`now` < `exp`, or no `exp` at all); None iff decoding fails or the token has expired |
| Auth.VerifyTokenWithoutExp | auth.py:47 | a well-signed token without an `exp` claim verifies to its claims at every time |
| Auth.VerifyFreshToken | auth.py:17-52 | a token issued by generate_token verifies, before it expires, to exactly its payload: the user's id and name |
| Auth.VerifyExpiredToken | auth.py:36-52 | from `exp` on, the issued token no longer verifies |
| Auth.VerifyOtherSecret | auth.py:34-52 | a token signed under one secret does not verify under another |
| Auth.Split | auth.py:66 | `split(" ")` always yields at least one piece |
| Auth.SplitJoin | auth.py:66 | joining the pieces of `split(" ")` with spaces gives back the header |
| Auth.SplitPiecesHaveNoSpace | auth.py:66 | no piece contains a space |
| Auth.SplitHasSecondPiece | auth.py:65-68 | a second piece exists iff the header contains a space |
| Auth.TokenField | auth.py:63-68 | no token field iff the header has no space; a token field never contains a space |
| Auth.TokenFieldAfterScheme | auth.py:66 | for space-free words, the token field of "scheme token" is the token |
| Auth.EmptyTokenFields | auth.py:66-71 | "Bearer " and "Bearer  x" have an empty token field |
| Auth.ErrorMessage | auth.py:68-76 | each rejection has a non-empty message |
| Auth.ErrorMessagesDistinct | auth.py:68-76 | different rejections have different messages |
| Auth.Decide | auth.py:59-81 | an admitted request carries an `Authorization` header whose token field decodes under the secret to the admitted payload, unexpired at `now`; a format rejection implies the header is present |
| Auth.DecideOutcomes | auth.py:60-81 | each of the four outcomes (missing, bad format, invalid/expired, admitted with a payload) holds iff its header and verification condition does |
| Auth.GateAdmitsFreshToken | auth.py:17-81 | "scheme token" with a fresh token from generate_token is admitted with that token's payload |
| Auth.GateIgnoresScheme | auth.py:66 | two headers that differ only in the scheme word get the same decision |
| Auth.GateHeaderExamples | auth.py:63-71 | "Bearer " and "Bearer  x" count as missing; "Bearer" and "" are badly formatted |
| Auth.Request.constructor | auth.py:85-92 | a new request has no current user and has run no handler |
| Auth.Request.GetCurrentUser | auth.py:85-92 | returns the payload stored on the request, None when nothing is stored |
| Auth.Request.TokenRequired | auth.py:54-83 | on rejection: 401 with the matching message, nothing stored, handler not run; on admission: the payload stored, handler run exactly once, its result returned |
| Auth.RejectedRequest | auth.py:73-81 | a new request whose token fails verification gets 401 "Token is invalid or expired", runs no handler and has no current user |

## Left out

- HTTP: `requests.get`, the 10-second timeouts, `raise_for_status` and `response.json()` are not modelled. Each becomes the `Reply` parameter: a failed request, or an answer whose record list may be missing. `print` logging on errors is not modelled.
- The Yelp request headers (`YELP_HEADERS`, which carry the API key) are not modelled. The Google key travels in the modelled query.
- Location string: Google's `location` parameter is kept as the two coordinates, not formatted as the text `"lat,lng"`.
- Pass-through fields: address, phone, url, image, categories, distance, coordinates, open/closed flags, types and photos are extracted or reshaped by the source (`display_address`, category titles, `geometry.location`, `opening_hours.open_now`). They play no part in any decision, so they are not modelled.
- Ratings: they are floats in the source and integers here (for example tenths of a star). Only their order matters to the core.
- JSON `null`: a field that is present but null is not distinguished from an absent field. In the source, a null Yelp `price` makes `len(None)` raise. A null Google `price_level` stays None and is then dropped by the filter. The model treats both as absent, which gives level 1.
- Malformed bodies: a reply that is not a JSON object or list of objects is not modelled. Exceptions other than `requests.RequestException` are not modelled.
- Places.Lower: folds ASCII letters only. Python's `str.lower` also folds other alphabets, which changes nothing for the three tier names.
- The JWT library: HMAC SHA-256 signing, base64url encoding and the `algorithms=['HS256']` restriction are not modelled. They are abstracted as `Signer`, and proofs use only `RoundTrips`, `BoundToKey` and `Compact`.
- PyJWT checks beyond `exp`: its validation of `iat`, its leeway (0 here) and its sub-second truncation are not modelled. Times are whole seconds.
- Auth.VerifyOtherSecret: rests on `BoundToKey`, an idealisation of HMAC. HMAC SHA-256 zero-pads keys shorter than its 64-byte block and hashes longer ones. So two different secrets can sign identically, for example "k" and "k" followed by a NUL character, or a secret longer than 64 bytes and its SHA-256 digest. For such pairs a token signed under one does verify under the other.
- Auth.VerifyToken: does not model PyJWT rejecting a payload whose `exp` is not a number, nor a payload without `user_id` or `username`. The decoder returns only well-typed claims; a missing `exp` is modelled.
- The JWT secret: the source reads it from the environment once, at import time. Here it is `SecretKey` of that reading, passed to each call.
- Flask: `jsonify`, response objects, `@wraps`, the handler's positional and keyword arguments, and case-insensitive header names (the model looks up `Authorization` exactly) are not modelled. The handler is a function of the current user.
- database.py and app.py (routes, password hashing, storage) are not part of this model.
