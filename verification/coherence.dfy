/**
 * When the cache agrees with the database: every entry the location views
 * serve holds what a read of the database would render now. The review
 * and like entries are left out of the definition because no view ever
 * serves them.
 */
module Coherence {
  import opened Models
  import opened Serializers
  import opened Caching
  import opened CacheKeys
  import opened Ordering
  import opened Wrappers

  ghost predicate Coherent(entries: map<string, CacheValue>, s: Store) {
    && (LocationsListKey in entries ==> entries[LocationsListKey] == Text(ListPage(s)))
    && (forall id :: LocationKey(id) in entries ==>
          id in s.locations && entries[LocationKey(id)] == Text(LocationDetail(View(s, id))))
  }

  /** Every location outside `changed` survives a write with the same rendering. */
  ghost predicate SameViewsExcept(s: Store, t: Store, changed: set<LocationId>) {
    forall id :: id in s.locations && id !in changed ==> id in t.locations && View(s, id) == View(t, id)
  }

  /** Deleting entries never makes the cache stale. */
  lemma CoherentAfterDelete(entries: map<string, CacheValue>, s: Store, keys: set<string>)
    requires Coherent(entries, s)
    ensures Coherent(entries - keys, s)
  {
  }

  /** Storing the current list page under the list key keeps the cache coherent. */
  lemma CoherentAfterListFill(entries: map<string, CacheValue>, s: Store)
    requires Coherent(entries, s)
    ensures Coherent(entries[LocationsListKey := Text(ListPage(s))], s)
  {
    var e := entries[LocationsListKey := Text(ListPage(s))];
    forall id | LocationKey(id) in e
      ensures id in s.locations && e[LocationKey(id)] == Text(LocationDetail(View(s, id)))
    {
      KeyKindsDistinct(id, id);
    }
  }

  /** Storing the current rendering of a location under its detail key keeps the cache coherent. */
  lemma CoherentAfterDetailFill(entries: map<string, CacheValue>, s: Store, id: LocationId)
    requires Coherent(entries, s) && id in s.locations
    ensures Coherent(entries[LocationKey(id) := Text(LocationDetail(View(s, id)))], s)
  {
    var e := entries[LocationKey(id) := Text(LocationDetail(View(s, id)))];
    KeyKindsDistinct(id, id);
    forall j | LocationKey(j) in e
      ensures j in s.locations && e[LocationKey(j)] == Text(LocationDetail(View(s, j)))
    {
      LocationKeyInjective(j, id);
    }
  }

  /**
   * Storing the current rendering of location `id` under the prefix
   * followed by any text that parses to `id` keeps the served entries
   * coherent: if that key is a detail key at all, it is the detail key of
   * `id` itself.
   */
  lemma CoherentAfterAliasFill(entries: map<string, CacheValue>, s: Store, pkText: string, id: LocationId)
    requires Coherent(entries, s) && ParseDecimal(pkText) == Some(id) && id in s.locations
    ensures Coherent(entries[KeyPrefix + pkText := Text(LocationDetail(View(s, id)))], s)
  {
    var key := KeyPrefix + pkText;
    var e := entries[key := Text(LocationDetail(View(s, id)))];
    assert key[8] == '_' && LocationsListKey[8] == 's';
    forall j | LocationKey(j) in e
      ensures j in s.locations && e[LocationKey(j)] == Text(LocationDetail(View(s, j)))
    {
      if LocationKey(j) == key {
        assert pkText == key[|KeyPrefix|..] == LocationKey(j)[|KeyPrefix|..] == DecimalString(j);
        ParseDecimalString(j);
      }
    }
  }

  /** Storing rows under a `_reviews` or `_likes` key leaves every served entry as it was. */
  lemma CoherentAfterRowsFill(entries: map<string, CacheValue>, s: Store, location: LocationId, likes: bool, v: CacheValue)
    requires Coherent(entries, s)
    ensures Coherent(entries[(if likes then LikesKey(location) else ReviewsKey(location)) := v], s)
  {
    var key := if likes then LikesKey(location) else ReviewsKey(location);
    var e := entries[key := v];
    KeyKindsDistinct(location, location);
    forall id | LocationKey(id) in e
      ensures id in s.locations && e[LocationKey(id)] == Text(LocationDetail(View(s, id)))
    {
      KeyKindsDistinct(location, id);
    }
  }

  /**
   * A database write keeps a coherent cache coherent once the list entry
   * and the detail entries of every location whose rendering changed are
   * gone.
   */
  lemma CoherentAfterWrite(entries: map<string, CacheValue>, s: Store, t: Store, changed: set<LocationId>)
    requires Coherent(entries, s)
    requires SameViewsExcept(s, t, changed)
    requires LocationsListKey !in entries
    requires forall id :: id in changed ==> LocationKey(id) !in entries
    ensures Coherent(entries, t)
  {
  }

  /**
   * A review or like write: once the location's detail key, its rows key
   * and the list key are gone, a write that changes no other location's
   * rendering keeps a coherent cache coherent.
   */
  lemma CoherentAfterLocationInvalidation(entries: map<string, CacheValue>, s: Store, t: Store, location: LocationId, rowsKey: string)
    requires Coherent(entries, s)
    requires SameViewsExcept(s, t, {location})
    ensures Coherent(entries - {LocationKey(location), rowsKey, LocationsListKey}, t)
  {
    var keys := {LocationKey(location), rowsKey, LocationsListKey};
    CoherentAfterDelete(entries, s, keys);
    CoherentAfterWrite(entries - keys, s, t, {location});
  }

  /** Inserting a location changes no existing location's rendering. */
  lemma InsertLocationKeepsViews(s: Store, row: Location)
    requires Valid(s) && InsertLocation(s, row).Success?
    ensures SameViewsExcept(s, InsertLocation(s, row).value.store, {})
  {
    var t := InsertLocation(s, row).value.store;
    forall id | id in s.locations
      ensures id in t.locations && View(s, id) == View(t, id)
    {
      ViewFrame(s, t, id);
    }
  }

  /** Updating a location changes the rendering of that location only. */
  lemma UpdateLocationKeepsViews(s: Store, id: LocationId, row: Location)
    requires Valid(s) && id in s.locations && UpdateLocation(s, id, row).Success?
    ensures SameViewsExcept(s, UpdateLocation(s, id, row).value, {id})
  {
    var t := UpdateLocation(s, id, row).value;
    forall j | j in s.locations && j != id
      ensures j in t.locations && View(s, j) == View(t, j)
    {
      ViewFrame(s, t, j);
    }
  }

  /** Deleting a location, with its cascade, changes the rendering of no other location. */
  lemma DeleteLocationKeepsViews(s: Store, id: LocationId)
    requires Valid(s)
    ensures SameViewsExcept(s, DeleteLocation(s, id), {id})
  {
    var t := DeleteLocation(s, id);
    forall j | j in s.locations && j != id
      ensures j in t.locations && View(s, j) == View(t, j)
    {
      assert ReviewsOf(s, j) == ReviewsOf(t, j);
      assert LikesOf(s, j) == LikesOf(t, j);
      ViewFrame(s, t, j);
    }
  }

  /** Inserting a review changes the rendering of the review's location only. */
  lemma InsertReviewKeepsViews(s: Store, row: Review)
    requires Valid(s) && InsertReview(s, row).Success?
    ensures SameViewsExcept(s, InsertReview(s, row).value.store, {row.location})
  {
    var t := InsertReview(s, row).value.store;
    forall j | j in s.locations && j != row.location
      ensures j in t.locations && View(s, j) == View(t, j)
    {
      assert ReviewsOf(s, j) == ReviewsOf(t, j);
      ViewFrame(s, t, j);
    }
  }

  /** Editing a review changes the rendering of the review's location only. */
  lemma UpdateReviewKeepsViews(s: Store, id: ReviewId, comment: string)
    requires Valid(s) && id in s.reviews
    ensures SameViewsExcept(s, UpdateReviewComment(s, id, comment), {s.reviews[id].location})
  {
    var t := UpdateReviewComment(s, id, comment);
    forall j | j in s.locations && j != s.reviews[id].location
      ensures j in t.locations && View(s, j) == View(t, j)
    {
      assert ReviewsOf(s, j) == ReviewsOf(t, j);
      ViewFrame(s, t, j);
    }
  }

  /** Deleting a review changes the rendering of the review's location only. */
  lemma DeleteReviewKeepsViews(s: Store, id: ReviewId)
    requires Valid(s) && id in s.reviews
    ensures SameViewsExcept(s, DeleteReview(s, id), {s.reviews[id].location})
  {
    var t := DeleteReview(s, id);
    forall j | j in s.locations && j != s.reviews[id].location
      ensures j in t.locations && View(s, j) == View(t, j)
    {
      assert ReviewsOf(s, j) == ReviewsOf(t, j);
      ViewFrame(s, t, j);
    }
  }

  /** Inserting a like changes the rendering of the like's location only. */
  lemma InsertLikeKeepsViews(s: Store, row: Like)
    requires Valid(s) && InsertLike(s, row).Success?
    ensures SameViewsExcept(s, InsertLike(s, row).value.store, {row.location})
  {
    var t := InsertLike(s, row).value.store;
    forall j | j in s.locations && j != row.location
      ensures j in t.locations && View(s, j) == View(t, j)
    {
      assert LikesOf(s, j) == LikesOf(t, j);
      ViewFrame(s, t, j);
    }
  }

  /** Changing a like's value changes the rendering of the like's location only. */
  lemma UpdateLikeKeepsViews(s: Store, id: LikeId, isLike: bool)
    requires Valid(s) && id in s.likes
    ensures SameViewsExcept(s, UpdateLikeValue(s, id, isLike), {s.likes[id].location})
  {
    var t := UpdateLikeValue(s, id, isLike);
    forall j | j in s.locations && j != s.likes[id].location
      ensures j in t.locations && View(s, j) == View(t, j)
    {
      assert LikesOf(s, j) == LikesOf(t, j);
      ViewFrame(s, t, j);
    }
  }

  /** Deleting a like changes the rendering of the like's location only. */
  lemma DeleteLikeKeepsViews(s: Store, id: LikeId)
    requires Valid(s) && id in s.likes
    ensures SameViewsExcept(s, DeleteLike(s, id), {s.likes[id].location})
  {
    var t := DeleteLike(s, id);
    forall j | j in s.locations && j != s.likes[id].location
      ensures j in t.locations && View(s, j) == View(t, j)
    {
      assert LikesOf(s, j) == LikesOf(t, j);
      ViewFrame(s, t, j);
    }
  }
}
