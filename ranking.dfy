/**
 * The ranking half of get_nearby_recommendations: removal of duplicate ids,
 * Python's stable sort by rating (highest first), and the cut to the top entries.
 */
module Ranking {
  import opened Wrappers
  import opened Places

  // ---------------------------------------------------------------------------------------
  // Duplicate ids

  /** The ids that occur in `s` (a missing id is the value None, and counts as one id). */
  function IdsOf(s: seq<Place>): set<Option<string>> {
    set p | p in s :: p.id
  }

  /** The specification of the duplicate-removal loop: each id's first record, in the order in
      which the ids first appear. */
  function FirstById(s: seq<Place>): (unique: seq<Place>)
    ensures |unique| <= |s|
    ensures forall p :: p in unique ==> p in s
  {
    if s == [] then []
    else
      var unique := FirstById(s[..|s| - 1]);
      if s[|s| - 1].id in IdsOf(unique) then unique else unique + [s[|s| - 1]]
  }

  /** The position of the first record of `s` whose id is `id`. */
  function FirstIndex(s: seq<Place>, id: Option<string>): (i: nat)
    requires id in IdsOf(s)
    ensures i < |s| && s[i].id == id
    ensures forall k :: 0 <= k < i ==> s[k].id != id
  {
    if s[0].id == id then 0
    else
      assert id in IdsOf(s[1..]) by {
        var q :| q in s && q.id == id;
        assert q != s[0];
      }
      1 + FirstIndex(s[1..], id)
  }

  /** The first record of `s` whose id is `id`. */
  function FirstWithId(s: seq<Place>, id: Option<string>): (p: Place)
    requires id in IdsOf(s)
    ensures p in s && p.id == id
  {
    s[FirstIndex(s, id)]
  }

  predicate DistinctIds(s: seq<Place>) {
    forall i, j :: 0 <= i < j < |s| ==> s[i].id != s[j].id
  }

  lemma IdsOfAppend(s: seq<Place>, p: Place)
    ensures IdsOf(s + [p]) == IdsOf(s) + {p.id}
  {
    assert p in s + [p];
    forall q | q in s ensures q in s + [p] { }
  }

  /** Appending a record does not move the first position of an id already present. */
  lemma FirstIndexAppend(s: seq<Place>, p: Place, id: Option<string>)
    requires id in IdsOf(s)
    ensures id in IdsOf(s + [p]) && FirstIndex(s + [p], id) == FirstIndex(s, id)
  {
    IdsOfAppend(s, p);
    var a, b := FirstIndex(s + [p], id), FirstIndex(s, id);
    assert (s + [p])[b] == s[b];
    assert a <= b;
    assert (s + [p])[a] == s[a];
  }

  /** Appending a record does not change which record comes first for an id already present. */
  lemma FirstWithIdAppend(s: seq<Place>, p: Place, id: Option<string>)
    requires id in IdsOf(s)
    ensures id in IdsOf(s + [p]) && FirstWithId(s + [p], id) == FirstWithId(s, id)
  {
    FirstIndexAppend(s, p, id);
  }

  /** Duplicate removal loses no id and adds none. */
  lemma {:induction false} FirstByIdKeepsIds(s: seq<Place>)
    ensures IdsOf(FirstById(s)) == IdsOf(s)
  {
    if s != [] {
      var init := s[..|s| - 1];
      FirstByIdKeepsIds(init);
      IdsOfAppend(FirstById(init), s[|s| - 1]);
      IdsOfAppend(init, s[|s| - 1]);
      assert s == init + [s[|s| - 1]];
    }
  }

  /** After duplicate removal no two records share an id. */
  lemma {:induction false} FirstByIdDistinct(s: seq<Place>)
    ensures DistinctIds(FirstById(s))
  {
    if s != [] {
      var init := s[..|s| - 1];
      FirstByIdDistinct(init);
      var unique := FirstById(init);
      if s[|s| - 1].id !in IdsOf(unique) {
        var r := unique + [s[|s| - 1]];
        forall i, j | 0 <= i < j < |r| ensures r[i].id != r[j].id {
          if j == |unique| {
            assert r[i] in unique;
          }
        }
      }
    }
  }

  /** Duplicate removal keeps the order of the records it keeps. */
  lemma {:induction false} FirstByIdSubsequence(s: seq<Place>)
    ensures IsSubsequence(FirstById(s), s)
    ensures |FirstById(s)| <= |s|
  {
    if s != [] {
      var init := s[..|s| - 1];
      FirstByIdSubsequence(init);
      var unique := FirstById(init);
      if s[|s| - 1].id !in IdsOf(unique) {
        assert (unique + [s[|s| - 1]])[..|unique|] == unique;
      }
    }
    SubsequenceLength(FirstById(s), s);
  }

  /** Every record kept is the first record of the input carrying its id. */
  lemma {:induction false} FirstByIdKeepsFirst(s: seq<Place>)
    ensures forall k :: 0 <= k < |FirstById(s)| ==>
              FirstById(s)[k].id in IdsOf(s) && FirstById(s)[k] == FirstWithId(s, FirstById(s)[k].id)
  {
    if s != [] {
      var init := s[..|s| - 1];
      var last := s[|s| - 1];
      assert s == init + [last];
      FirstByIdKeepsFirst(init);
      FirstByIdKeepsIds(init);
      var unique := FirstById(init);
      forall k | 0 <= k < |FirstById(s)|
        ensures FirstById(s)[k].id in IdsOf(s) && FirstById(s)[k] == FirstWithId(s, FirstById(s)[k].id)
      {
        if k < |unique| {
          assert FirstById(s)[k] == unique[k];
          FirstWithIdAppend(init, last, unique[k].id);
        } else {
          assert FirstById(s)[k] == last && last.id !in IdsOf(init);
          FirstIsOnlyOccurrence(init, last);
        }
      }
    }
  }

  /** A record whose id did not occur before it is the first record with that id. */
  lemma FirstIsOnlyOccurrence(s: seq<Place>, p: Place)
    requires p.id !in IdsOf(s)
    ensures p.id in IdsOf(s + [p]) && FirstIndex(s + [p], p.id) == |s|
    ensures FirstWithId(s + [p], p.id) == p
  {
    IdsOfAppend(s, p);
    forall k | 0 <= k < |s| ensures (s + [p])[k].id != p.id {
      assert s[k] in s;
    }
  }

  /** Duplicate removal lists the ids in the order of their first appearance in the input. */
  lemma {:induction false} FirstByIdInOrder(s: seq<Place>)
    ensures forall i, j :: 0 <= i < j < |FirstById(s)| ==> InFirstAppearanceOrder(s, FirstById(s)[i], FirstById(s)[j])
  {
    if s != [] {
      var init := s[..|s| - 1];
      var last := s[|s| - 1];
      FirstByIdInOrder(init);
      FirstByIdKeepsIds(init);
      var unique := FirstById(init);
      assert s == init + [last];
      forall i, j | 0 <= i < j < |FirstById(s)|
        ensures InFirstAppearanceOrder(s, FirstById(s)[i], FirstById(s)[j])
      {
        if j < |unique| {
          assert InFirstAppearanceOrder(init, unique[i], unique[j]);
        }
        InOrderAfterAppend(init, last, unique, i, j);
      }
    }
  }

  /** `p` and `q` carry ids of `s`, and the id of `p` first appears before the id of `q`. */
  predicate InFirstAppearanceOrder(s: seq<Place>, p: Place, q: Place) {
    p.id in IdsOf(s) && q.id in IdsOf(s) && FirstIndex(s, p.id) < FirstIndex(s, q.id)
  }

  lemma InOrderAfterAppend(init: seq<Place>, last: Place, unique: seq<Place>, i: nat, j: nat)
    requires unique == FirstById(init) && IdsOf(unique) == IdsOf(init)
    requires i < j < |FirstById(init + [last])|
    requires j < |unique| ==> InFirstAppearanceOrder(init, unique[i], unique[j])
    ensures InFirstAppearanceOrder(init + [last], FirstById(init + [last])[i], FirstById(init + [last])[j])
  {
    var s := init + [last];
    assert s[..|s| - 1] == init && s[|s| - 1] == last;
    var r := FirstById(s);
    assert r == unique || r == unique + [last];
    assert r[i] == unique[i] && unique[i] in unique;
    FirstIndexAppend(init, last, unique[i].id);
    if j < |unique| {
      assert r[j] == unique[j] && unique[j] in unique;
      FirstIndexAppend(init, last, unique[j].id);
    } else {
      assert r == unique + [last] && r[j] == last && last.id !in IdsOf(init);
      FirstIsOnlyOccurrence(init, last);
    }
  }

  /** The case of the same place returned for two categories: [v, u, v] deduplicates to [v, u]. */
  lemma RepeatedPlaceKeepsFirstPosition(u: Place, v: Place)
    requires u.id != v.id
    ensures FirstById([v, u, v]) == [v, u]
  {
    assert [v, u, v][..2] == [v, u] && [v, u][..1] == [v] && [v][..0] == [];
    assert FirstById([v]) == [v];
    IdsOfAppend([], v);
    assert [] + [v] == [v];
    assert FirstById([v, u]) == [v, u];
    assert v in [v, u];
  }

  // ---------------------------------------------------------------------------------------
  // Sorting by rating, highest first

  predicate AllRated(s: seq<Place>) {
    forall p :: p in s ==> p.rating.Some?
  }

  /** `p` is rated, `q` is rated, and `p` is rated at least as high as `q`. */
  predicate RatedAtLeast(p: Place, q: Place) {
    p.rating.Some? && q.rating.Some? && p.rating.value >= q.rating.value
  }

  /** Ratings never increase from left to right (and so every rating compared is present). */
  predicate Descending(s: seq<Place>) {
    forall i, j :: 0 <= i < j < |s| ==> RatedAtLeast(s[i], s[j])
  }

  /** The records of `s` rated exactly `k`, in their order in `s`. A sort is stable when it
      leaves every such list unchanged. */
  function RatedAs(s: seq<Place>, k: int): seq<Place>
  {
    if s == [] then []
    else
      var init := RatedAs(s[..|s| - 1], k);
      if s[|s| - 1].rating == Some(k) then init + [s[|s| - 1]] else init
  }

  /** Inserts `x` into a list sorted highest-first, after every record rated at least as high:
      `x` comes after the records it ties with. */
  function InsertByRating(x: Place, s: seq<Place>): (r: seq<Place>)
    requires x.rating.Some? && AllRated(s)
    ensures AllRated(r)
    ensures multiset(r) == multiset(s) + multiset{x}
  {
    if s == [] then [x]
    else if x.rating.value <= s[0].rating.value then
      assert s == [s[0]] + s[1..];
      [s[0]] + InsertByRating(x, s[1..])
    else [x] + s
  }

  /** Stable insertion sort, highest rating first: the reference for Python's
      `list.sort(key=rating, reverse=True)`. */
  function SortByRating(s: seq<Place>): (r: seq<Place>)
    requires AllRated(s)
    ensures AllRated(r)
    ensures multiset(r) == multiset(s)
  {
    if s == [] then []
    else
      assert s == s[..|s| - 1] + [s[|s| - 1]];
      InsertByRating(s[|s| - 1], SortByRating(s[..|s| - 1]))
  }

  lemma {:induction false} InsertByRatingDescending(x: Place, s: seq<Place>)
    requires x.rating.Some? && AllRated(s) && Descending(s)
    ensures Descending(InsertByRating(x, s))
  {
    if s != [] && x.rating.value <= s[0].rating.value {
      InsertByRatingDescending(x, s[1..]);
      var rest := InsertByRating(x, s[1..]);
      var r := [s[0]] + rest;
      forall i, j | 0 <= i < j < |r| ensures RatedAtLeast(r[i], r[j]) {
        if i == 0 {
          assert r[j] in multiset(rest);
          assert r[j] == x || r[j] in s[1..];
        }
      }
    }
  }

  lemma {:induction false} SortByRatingDescending(s: seq<Place>)
    requires AllRated(s)
    ensures Descending(SortByRating(s))
  {
    if s != [] {
      SortByRatingDescending(s[..|s| - 1]);
      InsertByRatingDescending(s[|s| - 1], SortByRating(s[..|s| - 1]));
    }
  }

  lemma {:induction false} RatedAsAppend(a: seq<Place>, b: seq<Place>, k: int)
    ensures RatedAs(a + b, k) == RatedAs(a, k) + RatedAs(b, k)
    decreases |b|
  {
    if b == [] {
      assert a + b == a;
    } else {
      RatedAsAppend(a, b[..|b| - 1], k);
      assert (a + b)[..|a + b| - 1] == a + b[..|b| - 1];
    }
  }

  lemma {:induction false} RatedAsNone(s: seq<Place>, k: int)
    requires forall p :: p in s ==> p.rating != Some(k)
    ensures RatedAs(s, k) == []
  {
    if s != [] {
      RatedAsNone(s[..|s| - 1], k);
    }
  }

  lemma RatedAsSingle(p: Place, k: int)
    ensures RatedAs([p], k) == if p.rating == Some(k) then [p] else []
  {
    assert [p][..0] == [];
  }

  /** Inserting into a sorted list puts `x` behind every record it ties with. */
  lemma {:induction false} InsertByRatingStable(x: Place, s: seq<Place>, k: int)
    requires x.rating.Some? && AllRated(s) && Descending(s)
    ensures RatedAs(InsertByRating(x, s), k) == RatedAs(s, k) + RatedAs([x], k)
  {
    RatedAsSingle(x, k);
    if s == [] {
      assert InsertByRating(x, s) == [x];
    } else if x.rating.value <= s[0].rating.value {
      var tail := s[1..];
      DescendingTail(s);
      assert AllRated(tail);
      InsertByRatingStable(x, tail, k);
      InsertBehindHead(x, s, k);
    } else {
      InsertAheadOfHead(x, s, k);
    }
  }

  /** The step of InsertByRatingStable where `x` goes behind the head. */
  lemma InsertBehindHead(x: Place, s: seq<Place>, k: int)
    requires s != [] && x.rating.Some? && AllRated(s) && x.rating.value <= s[0].rating.value
    requires RatedAs(InsertByRating(x, s[1..]), k) == RatedAs(s[1..], k) + RatedAs([x], k)
    ensures RatedAs(InsertByRating(x, s), k) == RatedAs(s, k) + RatedAs([x], k)
  {
    var head, tail := s[0], s[1..];
    assert [head] + tail == s;
    var rest := InsertByRating(x, tail);
    assert InsertByRating(x, s) == [head] + rest;
    RatedAsAppend([head], rest, k);
    RatedAsAppend([head], tail, k);
    Regroup(RatedAs([head] + rest, k), RatedAs(s, k),
            RatedAs([head], k), RatedAs(rest, k), RatedAs(tail, k), RatedAs([x], k));
  }

  /** Associativity of concatenation, stated over names so that the solver need not look inside
      the sequences. */
  lemma Regroup<T>(whole: seq<T>, front: seq<T>, a: seq<T>, r: seq<T>, t: seq<T>, x: seq<T>)
    requires whole == a + r && front == a + t && r == t + x
    ensures whole == front + x
  {
  }

  /** The step of InsertByRatingStable where `x` goes in front: nothing in `s` ties with it. */
  lemma InsertAheadOfHead(x: Place, s: seq<Place>, k: int)
    requires s != [] && x.rating.Some? && AllRated(s) && Descending(s)
    requires x.rating.value > s[0].rating.value
    ensures RatedAs(InsertByRating(x, s), k) == RatedAs(s, k) + RatedAs([x], k)
  {
    assert InsertByRating(x, s) == [x] + s;
    RatedAsAppend([x], s, k);
    if x.rating == Some(k) {
      RatedBelowHead(s, k);
      RatedAsNone(s, k);
    } else {
      RatedAsSingle(x, k);
    }
  }

  lemma DescendingTail(s: seq<Place>)
    requires s != [] && Descending(s)
    ensures Descending(s[1..])
  {
    forall i, j | 0 <= i < j < |s| - 1 ensures RatedAtLeast(s[1..][i], s[1..][j]) {
      assert RatedAtLeast(s[i + 1], s[j + 1]);
    }
  }

  /** In a list sorted highest-first, nothing is rated above its head. */
  lemma RatedBelowHead(s: seq<Place>, k: int)
    requires s != [] && Descending(s) && AllRated(s) && s[0].rating.value < k
    ensures forall p :: p in s ==> p.rating != Some(k)
  {
    forall p | p in s ensures p.rating != Some(k) {
      var i :| 0 <= i < |s| && s[i] == p;
      assert i == 0 || RatedAtLeast(s[0], s[i]);
    }
  }

  /** The sort is stable: for every rating, the records with that rating keep their order. */
  lemma {:induction false} SortByRatingStable(s: seq<Place>, k: int)
    requires AllRated(s)
    ensures RatedAs(SortByRating(s), k) == RatedAs(s, k)
  {
    if s != [] {
      var init, last := s[..|s| - 1], s[|s| - 1];
      var sorted := SortByRating(init);
      assert SortByRating(s) == InsertByRating(last, sorted);
      assert RatedAs(s, k) == RatedAs(init, k) + RatedAs([last], k) by {
        RatedAsAppend(init, [last], k);
        assert s == init + [last];
      }
      SortByRatingStable(init, k);
      SortByRatingDescending(init);
      InsertByRatingStable(last, sorted, k);
    }
  }

  lemma {:induction false} RatedAsMembers(s: seq<Place>, k: int, p: Place)
    requires p in RatedAs(s, k)
    ensures p in s && p.rating == Some(k)
  {
    if s != [] {
      var init := s[..|s| - 1];
      if p in RatedAs(init, k) {
        RatedAsMembers(init, k, p);
      }
    }
  }

  /** In a list sorted highest-first, no record is rated below the last one. */
  lemma LastIsLowest(s: seq<Place>, p: Place)
    requires s != [] && Descending(s) && AllRated(s) && p in s
    ensures p.rating.value >= s[|s| - 1].rating.value
  {
    var i :| 0 <= i < |s| && s[i] == p;
    assert i == |s| - 1 || RatedAtLeast(s[i], s[|s| - 1]);
  }

  /** Two lists that are both sorted highest-first and agree, rating by rating, on the order of
      their records are the same list: being sorted and stable fixes the sort's result. */
  lemma {:induction false} StableSortIsUnique(a: seq<Place>, b: seq<Place>)
    requires AllRated(a) && AllRated(b) && Descending(a) && Descending(b)
    requires forall k :: RatedAs(a, k) == RatedAs(b, k)
    ensures a == b
    decreases |a|
  {
    if a == [] {
      NothingRatedMeansEmpty(b, a);
    } else if b == [] {
      NothingRatedMeansEmpty(a, b);
    } else {
      var ia, ib := a[..|a| - 1], b[..|b| - 1];
      LastRatingsMatch(a, b);
      assert a == ia + [a[|a| - 1]] && b == ib + [b[|b| - 1]];
      PeelLast(ia, a[|a| - 1], ib, b[|b| - 1]);
      DescendingInit(a);
      DescendingInit(b);
      StableSortIsUnique(ia, ib);
      assert a == ia + [a[|a| - 1]] && b == ib + [b[|b| - 1]];
    }
  }

  /** A non-empty list of rated records shows up in RatedAs for the rating of its last record. */
  lemma NothingRatedMeansEmpty(s: seq<Place>, e: seq<Place>)
    requires AllRated(s) && e == []
    requires forall k :: RatedAs(s, k) == RatedAs(e, k)
    ensures s == []
  {
    if s != [] {
      var last := s[|s| - 1];
      assert last in s;
      assert RatedAs(s, last.rating.value) == RatedAs(s[..|s| - 1], last.rating.value) + [last];
    }
  }

  lemma LastRatingsMatch(a: seq<Place>, b: seq<Place>)
    requires a != [] && b != []
    requires AllRated(a) && AllRated(b) && Descending(a) && Descending(b)
    requires forall k :: RatedAs(a, k) == RatedAs(b, k)
    ensures a[|a| - 1].rating == b[|b| - 1].rating
  {
    LastNotBelowLast(a, b);
    LastNotBelowLast(b, a);
  }

  /** The last record of `a` also occurs in `b`, so it is rated no lower than `b`'s last. */
  lemma LastNotBelowLast(a: seq<Place>, b: seq<Place>)
    requires a != [] && b != []
    requires AllRated(a) && AllRated(b) && Descending(b)
    requires forall k :: RatedAs(a, k) == RatedAs(b, k)
    ensures a[|a| - 1].rating.value >= b[|b| - 1].rating.value
  {
    var x := a[|a| - 1];
    assert x in a;
    var kx := x.rating.value;
    assert RatedAs(a, kx) == RatedAs(a[..|a| - 1], kx) + [x];
    assert x in RatedAs(b, kx);
    RatedAsMembers(b, kx, x);
    LastIsLowest(b, x);
  }

  lemma PeelLast(ia: seq<Place>, x: Place, ib: seq<Place>, y: Place)
    requires x.rating.Some? && x.rating == y.rating
    requires forall k :: RatedAs(ia + [x], k) == RatedAs(ib + [y], k)
    ensures x == y
    ensures forall k :: RatedAs(ia, k) == RatedAs(ib, k)
  {
    forall k ensures RatedAs(ia, k) == RatedAs(ib, k) {
      PeelLastAt(ia, x, ib, y, k);
    }
    PeelLastAt(ia, x, ib, y, x.rating.value);
  }

  lemma PeelLastAt(ia: seq<Place>, x: Place, ib: seq<Place>, y: Place, k: int)
    requires x.rating == y.rating
    requires RatedAs(ia + [x], k) == RatedAs(ib + [y], k)
    ensures RatedAs(ia, k) == RatedAs(ib, k)
    ensures x.rating == Some(k) ==> x == y
  {
    RatedAsAppend(ia, [x], k);
    RatedAsAppend(ib, [y], k);
    RatedAsSingle(x, k);
    RatedAsSingle(y, k);
    if x.rating == Some(k) {
      TrimLast(RatedAs(ia, k), RatedAs(ib, k), x, y, RatedAs(ia + [x], k));
    } else {
      assert RatedAs(ia, k) + [] == RatedAs(ia, k) && RatedAs(ib, k) + [] == RatedAs(ib, k);
    }
  }

  lemma TrimLast<T>(p: seq<T>, q: seq<T>, x: T, y: T, whole: seq<T>)
    requires whole == p + [x] && whole == q + [y]
    ensures p == q && x == y
  {
    assert p == whole[..|whole| - 1] && q == whole[..|whole| - 1];
  }

  lemma DescendingInit(s: seq<Place>)
    requires s != [] && AllRated(s) && Descending(s)
    ensures AllRated(s[..|s| - 1]) && Descending(s[..|s| - 1])
  {
    var init := s[..|s| - 1];
    forall i, j | 0 <= i < j < |init| ensures RatedAtLeast(init[i], init[j]) {
      assert RatedAtLeast(s[i], s[j]);
    }
    forall p | p in init ensures p.rating.Some? {
      assert p in s;
    }
  }

  lemma SortByRatingStableAll(s: seq<Place>)
    requires AllRated(s)
    ensures forall k :: RatedAs(SortByRating(s), k) == RatedAs(s, k)
  {
    forall k ensures RatedAs(SortByRating(s), k) == RatedAs(s, k) {
      SortByRatingStable(s, k);
    }
  }

  /** Python's `list.sort(key=lambda x: x.get('rating', 0), reverse=True)` on normalised records,
      whose `rating` key is always present: with two or more records, a missing rating (None)
      cannot be compared and the sort raises; otherwise the list comes back sorted and stable. */
  datatype SortError = RatingNotComparable

  function SortedByRating(s: seq<Place>): (r: Result<seq<Place>, SortError>)
    ensures r.Success? <==> |s| < 2 || AllRated(s)
    ensures r.Success? ==> multiset(r.value) == multiset(s) && Descending(r.value)
    ensures r.Success? ==> forall k :: RatedAs(r.value, k) == RatedAs(s, k)
  {
    if |s| < 2 then Success(s)
    else if AllRated(s) then
      SortByRatingDescending(s);
      SortByRatingStableAll(s);
      Success(SortByRating(s))
    else Failure(RatingNotComparable)
  }

  // ---------------------------------------------------------------------------------------
  // Top entries

  /** The first `n` entries, or all of them when there are fewer: `s[:n]`. */
  function Top(s: seq<Place>, n: nat): (r: seq<Place>)
    ensures |r| == if |s| < n then |s| else n
    ensures r == s[..|r|]
  {
    if |s| < n then s else s[..n]
  }

  /** The cut keeps the best: anything it leaves out is rated no higher than anything it keeps. */
  lemma TopIsBest(sorted: seq<Place>, n: nat, p: Place, q: Place)
    requires Descending(sorted) && p in sorted && p !in Top(sorted, n) && q in Top(sorted, n)
    ensures RatedAtLeast(q, p)
  {
    var shown := Top(sorted, n);
    var j :| 0 <= j < |sorted| && sorted[j] == p;
    var i :| 0 <= i < |shown| && shown[i] == q;
    assert forall k :: 0 <= k < |shown| ==> sorted[k] == shown[k];
    assert j >= |shown|;
    assert sorted[i] == q;
  }

  /** The first entries of a list sorted highest-first are sorted highest-first. */
  lemma TopDescending(sorted: seq<Place>, n: nat)
    requires Descending(sorted)
    ensures Descending(Top(sorted, n))
  {
    var shown := Top(sorted, n);
    forall i, j | 0 <= i < j < |shown| ensures RatedAtLeast(shown[i], shown[j]) {
      assert shown[i] == sorted[i] && shown[j] == sorted[j];
    }
  }

  /** The example of two records sharing id "a": the first (rated 3) is kept, the second
      (rated 1) is dropped, and the sort then puts "b" (rated 5) first. */
  lemma DuplicateIdExample(a1: Place, b: Place, a2: Place)
    requires a1.id == a2.id == Some("a") && b.id == Some("b")
    requires a1.rating == Some(3) && b.rating == Some(5) && a2.rating == Some(1)
    ensures FirstById([a1, b, a2]) == [a1, b]
    ensures SortedByRating(FirstById([a1, b, a2])) == Success([b, a1])
  {
    FirstOfDuplicateKept(a1, b, a2);
    HigherRatedFirst(a1, b);
  }

  lemma FirstOfDuplicateKept(a1: Place, b: Place, a2: Place)
    requires a1.id == a2.id && a1.id != b.id
    ensures FirstById([a1, b, a2]) == [a1, b]
  {
    assert FirstById([a1]) == [a1] by {
      assert [a1][..0] == [];
    }
    assert FirstById([a1, b]) == [a1, b] by {
      assert [a1, b][..1] == [a1];
      IdsOfAppend([], a1);
      assert [] + [a1] == [a1];
    }
    assert [a1, b, a2][..2] == [a1, b];
    assert a1 in [a1, b];
  }

  lemma HigherRatedFirst(a: Place, b: Place)
    requires a.rating.Some? && b.rating.Some? && a.rating.value < b.rating.value
    ensures SortedByRating([a, b]) == Success([b, a])
  {
    assert AllRated([a, b]);
    assert [a, b][..1] == [a];
    assert SortByRating([a]) == [a] by {
      assert [a][..0] == [];
    }
    assert SortByRating([a, b]) == InsertByRating(b, [a]);
    assert InsertByRating(b, [a]) == [b] + [a] == [b, a];
    assert SortedByRating([a, b]) == Success(SortByRating([a, b]));
  }
}
