/**
 * Request sequences over the view sets from concrete starting states,
 * with what each one answers proved from the handlers' contracts alone:
 * three prove that the source as written serves a stale answer, the
 * others prove what the corrected handlers and the validators guarantee.
 */
module Scenarios {
  import opened Wrappers
  import opened Models
  import opened Serializers
  import opened Caching
  import opened CacheKeys
  import opened Views

  /** One user (1) and one location (7) named "Cafe A". */
  function CafeStore(): (s: Store)
    ensures Valid(s) && 7 in s.locations
  {
    Store({1}, map[7 := Location("Cafe A", "1 Main St")], map[], map[], 8, 1, 1)
  }

  /** `CafeStore` plus a review of location 7 by user 1, and a like of it by user 1. */
  function ReviewedCafeStore(): (s: Store)
    ensures Valid(s) && 7 in s.locations && 1 in s.reviews && 1 in s.likes
  {
    Store({1, 2}, map[7 := Location("Cafe A", "1 Main St")],
          map[1 := Review(7, 1, "Great coffee", 0)],
          map[1 := Like(7, 1, true)], 8, 2, 2)
  }

  /** In `ReviewedCafeStore`, location 7 has one like and no dislike, and user 2 has not rated it. */
  lemma ReviewedCafeRatings()
    ensures LikesCount(ReviewedCafeStore(), 7) == 1 && DislikesCount(ReviewedCafeStore(), 7) == 0
    ensures !HasRated(ReviewedCafeStore(), 2, 7)
  {
    assert RatingIds(ReviewedCafeStore(), 7, true) == {1};
    assert RatingIds(ReviewedCafeStore(), 7, false) == {};
  }

  lemma ParsesAsSeven()
    ensures ParseDecimal("7") == Some(7) && ParseDecimal("07") == Some(7)
    ensures LocationKey(7) == "location_7"
  {
    assert DecimalString(7) == "7";
    assert "07"[..1] == "0";
    assert DecimalValue("07") == DecimalValue("0") * 10 + 7;
    assert "0"[..0] == "";
    assert "7"[..0] == "";
  }

  /**
   * Retrieving `/locations/07/` stores the rendering under `location_07`;
   * renaming location 7 deletes `location_7` only, so the next retrieve
   * of `/locations/07/` still answers "Cafe A" while `/locations/7/`
   * answers "Cafe B".
   */
  method AliasedRetrieveServedStale() returns (first: Result<Payload, Error>, stale: Result<Payload, Error>, current: Result<Payload, Error>)
    ensures first.Success? && first.value.LocationDetail? && first.value.view.name == "Cafe A"
    ensures stale == first
    ensures current.Success? && current.value.LocationDetail? && current.value.view.name == "Cafe B"
  {
    ParsesAsSeven();
    var cache := new Cache();
    var db := new Database(CafeStore());
    var locations := new LocationViewSet(cache, db);
    assert KeyPrefix + "07" == "location_07" && KeyPrefix + "7" == LocationKey(7);
    first := locations.RetrieveAsWritten("07");
    assert cache.entries == map["location_07" := Text(first.value)];
    var renamed := locations.Update(7, "Cafe B", "1 Main St");
    assert "location_07" in cache.entries;
    stale := locations.RetrieveAsWritten("07");
    current := locations.RetrieveAsWritten("7");
  }

  /** With the retrieve keyed by the parsed pk, every spelling of the pk sees the rename. */
  method AliasedRetrieveServedFresh() returns (first: Result<Payload, Error>, after: Result<Payload, Error>)
    ensures first.Success? && first.value.LocationDetail? && first.value.view.name == "Cafe A"
    ensures after.Success? && after.value.LocationDetail? && after.value.view.name == "Cafe B"
  {
    ParsesAsSeven();
    var cache := new Cache();
    var db := new Database(CafeStore());
    var locations := new LocationViewSet(cache, db);
    first := locations.Retrieve("07");
    var renamed := locations.Update(7, "Cafe B", "1 Main St");
    after := locations.Retrieve("07");
  }

  /**
   * A location is created as "Cafe A" and retrieved, which fills its
   * entry; it is renamed "Cafe B"; the next retrieve answers "Cafe B".
   */
  method RenameIsVisible() returns (before: Result<Payload, Error>, after: Result<Payload, Error>)
    ensures before.Success? && before.value.LocationDetail? && before.value.view.name == "Cafe A"
    ensures after.Success? && after.value.LocationDetail? && after.value.view.name == "Cafe B"
  {
    EmptyStoreValid();
    var cache := new Cache();
    var db := new Database(EmptyStore);
    var locations := new LocationViewSet(cache, db);
    var created := locations.Create("Cafe A", "1 Main St");
    var id := created.value.id;
    ParseDecimalString(id);
    before := locations.Retrieve(DecimalString(id));
    var renamed := locations.Update(id, "Cafe B", "1 Main St");
    after := locations.Retrieve(DecimalString(id));
  }

  /**
   * Location 7 is retrieved with its review "Great coffee"; the review is
   * edited through the update the source has, which deletes nothing, so
   * the next retrieve still shows "Great coffee".
   */
  method ReviewEditServedStale() returns (before: Result<Payload, Error>, after: Result<Payload, Error>)
    ensures before.Success? && before.value.LocationDetail? && 1 in before.value.view.reviews
    ensures before.value.view.reviews[1].comment == "Great coffee"
    ensures after == before
  {
    ParsesAsSeven();
    var cache := new Cache();
    var db := new Database(ReviewedCafeStore());
    var locations := new LocationViewSet(cache, db);
    var reviews := new ReviewViewSet(cache, db);
    before := locations.Retrieve("7");
    var edited := reviews.UpdateAsWritten(7, 1, "Closed on Mondays");
    KeyKindsDistinct(7, 7);
    assert LocationKey(7) in cache.entries;
    after := locations.Retrieve("7");
  }

  /** With the review update deleting the location's entries, the next retrieve shows the edit. */
  method ReviewEditServedFresh() returns (after: Result<Payload, Error>)
    ensures after.Success? && after.value.LocationDetail? && 1 in after.value.view.reviews
    ensures after.value.view.reviews[1].comment == "Closed on Mondays"
  {
    ParsesAsSeven();
    var cache := new Cache();
    var db := new Database(ReviewedCafeStore());
    var locations := new LocationViewSet(cache, db);
    var reviews := new ReviewViewSet(cache, db);
    var before := locations.Retrieve("7");
    var edited := reviews.Update(7, 1, "Closed on Mondays");
    after := locations.Retrieve("7");
  }

  /**
   * Location 7 is retrieved with one like; user 2, who has not rated it,
   * turns user 1's like into a dislike through the update the source has;
   * the next retrieve still shows one like and no dislike.
   */
  method LikeFlipServedStale() returns (before: Result<Payload, Error>, after: Result<Payload, Error>)
    ensures before.Success? && before.value.LocationDetail?
    ensures before.value.view.likesCount == 1 && before.value.view.dislikesCount == 0
    ensures after == before
  {
    ParsesAsSeven();
    var cache := new Cache();
    var db := new Database(ReviewedCafeStore());
    var locations := new LocationViewSet(cache, db);
    var likes := new LikeViewSet(cache, db);
    before := locations.Retrieve("7");
    ReviewedCafeRatings();
    var flipped := likes.UpdateAsWritten(2, 7, 1, false);
    KeyKindsDistinct(7, 7);
    assert LocationKey(7) in cache.entries;
    after := locations.Retrieve("7");
  }

  /**
   * User 1 likes location 7, then tries to dislike it: the second request
   * fails with the "already rated" message and the one like stays.
   */
  method SecondRatingRefused() returns (first: Result<LikeId, Error>, second: Result<LikeId, Error>, rows: map<LikeId, Like>)
    ensures first.Success? && second == Failure(ValidationError(AlreadyRated))
    ensures rows == map[first.value := Like(7, 1, true)]
  {
    var cache := new Cache();
    var db := new Database(CafeStore());
    var likes := new LikeViewSet(cache, db);
    first := likes.Create(1, 7, true);
    second := likes.Create(1, 7, false);
    rows := likes.GetQueryset(7);
    assert rows == map[first.value := Like(7, 1, true)];
  }
}
