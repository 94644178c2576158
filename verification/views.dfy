/**
 * The three view sets of the locations app over the shared cache and the
 * database. Reads go through the cache, writes delete the entries they
 * make stale. Each handler states its outcome, the new database state and
 * the exact new cache contents, and whether it keeps a coherent cache
 * coherent.
 */
module Views {
  import opened Wrappers
  import opened Models
  import opened Serializers
  import opened Caching
  import opened CacheKeys
  import opened Ordering
  import opened Coherence

  /** `CACHE_TIMEOUT`: the seconds an entry stored by the views is kept. */
  const CacheTimeout: nat := 900

  /** What a request can fail with: a 400, a 404, or an exception raised by the database or by decoding. */
  datatype Error =
    | ValidationError(message: string)
    | NotFound
    | StoreFailure(cause: StoreError)
    | DecodeFailure

  type Status = Result<(), Error>

  /** `Response(json.loads(cached_data))`. */
  function Decode(v: CacheValue): (r: Result<Payload, Error>)
    ensures r.Success? <==> v.Text?
    ensures r.Success? ==> r.value == v.payload
    ensures r.Failure? ==> r.error == DecodeFailure
  {
    match JsonLoads(v)
    case Some(p) => Success(p)
    case None => Failure(DecodeFailure)
  }

  /** A retrieve answered from the database alone: a 404 unless the pk names an existing location. */
  function FreshDetail(s: Store, pkText: string): (r: Result<Payload, Error>)
    ensures r.Success? <==> ParseDecimal(pkText).Some? && ParseDecimal(pkText).value in s.locations
    ensures r.Success? ==> r.value.LocationDetail? && r.value.view.id == ParseDecimal(pkText).value
    ensures r.Failure? ==> r.error == NotFound
  {
    match ParseDecimal(pkText)
    case None => Failure(NotFound)
    case Some(id) => if id in s.locations then Success(LocationDetail(View(s, id))) else Failure(NotFound)
  }

  /** The cache after a `get_queryset`: on a miss the fresh rows are stored under `key`, on a hit nothing changes. */
  function AfterRowsRead(entries: map<string, CacheValue>, key: string, rows: CacheValue): (e: map<string, CacheValue>)
    ensures e - {key} == entries - {key}
    ensures Hit(entries, key) ==> e == entries
  {
    if Hit(entries, key) then entries else entries[key := rows]
  }

  /** Deleting a key after a read that may have stored it leaves the cache as if the read had not happened. */
  lemma DeleteAfterRowsRead(entries: map<string, CacheValue>, key: string, rows: CacheValue, a: string, c: string)
    ensures AfterRowsRead(entries, key, rows) - {a, key, c} == entries - {a, key, c}
  {
    var e := AfterRowsRead(entries, key, rows);
    assert e - {key} == entries - {key};
    assert e - {a, key, c} == (e - {key}) - {a, c};
    assert entries - {a, key, c} == (entries - {key}) - {a, c};
  }

  /**
   * The three deletions a review or like write performs, in the source's
   * order: the location's detail key, its rows key, then the list key.
   */
  method InvalidateLocation(cache: Cache, location: LocationId, rowsKey: string)
    requires cache.Valid()
    modifies cache
    ensures cache.Valid()
    ensures cache.entries == old(cache.entries) - {LocationKey(location), rowsKey, LocationsListKey}
  {
    cache.Delete(LocationKey(location));
    cache.Delete(rowsKey);
    cache.Delete(LocationsListKey);
  }

  /**
   * The deletions of a location write never reach a `_reviews` or
   * `_likes` entry: they keep their presence and their value.
   */
  lemma LocationInvalidationKeepsRowEntries(entries: map<string, CacheValue>, pk: LocationId, location: LocationId)
    ensures var e := entries - {LocationsListKey, LocationKey(pk)};
      && (ReviewsKey(location) in e <==> ReviewsKey(location) in entries)
      && (LikesKey(location) in e <==> LikesKey(location) in entries)
      && (ReviewsKey(location) in e ==> e[ReviewsKey(location)] == entries[ReviewsKey(location)])
      && (LikesKey(location) in e ==> e[LikesKey(location)] == entries[LikesKey(location)])
  {
    KeyKindsDistinct(location, pk);
  }

  /** The database connection: the tables as they are now. */
  class Database {
    var store: Store

    constructor (s: Store)
      ensures store == s
    {
      store := s;
    }
  }

  class LocationViewSet {
    const cache: Cache
    const db: Database

    constructor (cache: Cache, db: Database)
      ensures this.cache == cache && this.db == db
    {
      this.cache := cache;
      this.db := db;
    }

    ghost predicate Valid()
      reads this, cache, db
    {
      cache.Valid() && Models.Valid(db.store)
    }

    /**
     * `list`: with query parameters the cache is bypassed; otherwise a hit
     * on `locations_list` is served decoded and a miss stores the first
     * page. Over a coherent cache the unfiltered list is always fresh.
     */
    method List(hasParams: bool, filtered: set<LocationId>) returns (r: Result<Payload, Error>)
      requires Valid()
      modifies cache
      ensures Valid()
      ensures hasParams ==>
        r == Success(Page(db.store, db.store.locations.Keys * filtered)) && cache.entries == old(cache.entries)
      ensures !hasParams && Hit(old(cache.entries), LocationsListKey) ==>
        r == Decode(old(cache.entries)[LocationsListKey]) && cache.entries == old(cache.entries)
      ensures !hasParams && !Hit(old(cache.entries), LocationsListKey) ==>
        && r == Success(ListPage(db.store))
        && cache.entries == old(cache.entries)[LocationsListKey := Text(ListPage(db.store))]
        && cache.timeouts[LocationsListKey] == CacheTimeout
      ensures Coherent(old(cache.entries), db.store) ==>
        Coherent(cache.entries, db.store) && (!hasParams ==> r == Success(ListPage(db.store)))
    {
      ghost var e0 := cache.entries;
      if hasParams {
        r := Success(Page(db.store, db.store.locations.Keys * filtered));
        return;
      }
      var cached := cache.Get(LocationsListKey);
      if cached.Some? && Truthy(cached.value) {
        r := Decode(cached.value);
        return;
      }
      var page := ListPage(db.store);
      cache.Set(LocationsListKey, Text(page), CacheTimeout);
      r := Success(page);
      if Coherent(e0, db.store) {
        CoherentAfterListFill(e0, db.store);
      }
    }

    /**
     * `retrieve`, keyed by the parsed primary key: a hit is served decoded,
     * a miss renders the location and stores it. Over a coherent cache the
     * answer is what the database alone gives.
     */
    method Retrieve(pkText: string) returns (r: Result<Payload, Error>)
      requires Valid()
      modifies cache
      ensures Valid()
      ensures ParseDecimal(pkText).None? ==> r == Failure(NotFound) && cache.entries == old(cache.entries)
      ensures ParseDecimal(pkText).Some? ==>
        var key := LocationKey(ParseDecimal(pkText).value);
        if Hit(old(cache.entries), key) then
          r == Decode(old(cache.entries)[key]) && cache.entries == old(cache.entries)
        else if r.Failure? then
          r == FreshDetail(db.store, pkText) && cache.entries == old(cache.entries)
        else
          && r == FreshDetail(db.store, pkText)
          && cache.entries == old(cache.entries)[key := Text(r.value)]
          && cache.timeouts[key] == CacheTimeout
      ensures Coherent(old(cache.entries), db.store) ==>
        Coherent(cache.entries, db.store) && r == FreshDetail(db.store, pkText)
    {
      ghost var e0 := cache.entries;
      var parsed := ParseDecimal(pkText);
      if parsed.None? {
        r := Failure(NotFound);
        return;
      }
      var id := parsed.value;
      var key := LocationKey(id);
      var cached := cache.Get(key);
      if cached.Some? && Truthy(cached.value) {
        r := Decode(cached.value);
        return;
      }
      if id !in db.store.locations {
        r := Failure(NotFound);
        return;
      }
      var payload := LocationDetail(View(db.store, id));
      cache.Set(key, Text(payload), CacheTimeout);
      r := Success(payload);
      if Coherent(e0, db.store) {
        CoherentAfterDetailFill(e0, db.store, id);
      }
    }

    /**
     * `retrieve` as the source keys it: by the pk text of the URL, so
     * `07` and `7` use different entries. Canonical entries stay coherent,
     * but an entry stored under another spelling is served on later hits.
     */
    method RetrieveAsWritten(pkText: string) returns (r: Result<Payload, Error>)
      requires Valid()
      modifies cache
      ensures Valid()
      ensures Hit(old(cache.entries), KeyPrefix + pkText) ==>
        r == Decode(old(cache.entries)[KeyPrefix + pkText]) && cache.entries == old(cache.entries)
      ensures !Hit(old(cache.entries), KeyPrefix + pkText) ==>
        && r == FreshDetail(db.store, pkText)
        && (r.Failure? ==> cache.entries == old(cache.entries))
        && (r.Success? ==> cache.entries == old(cache.entries)[KeyPrefix + pkText := Text(r.value)]
                           && cache.timeouts[KeyPrefix + pkText] == CacheTimeout)
      ensures Coherent(old(cache.entries), db.store) ==> Coherent(cache.entries, db.store)
    {
      ghost var e0 := cache.entries;
      var key := KeyPrefix + pkText;
      var cached := cache.Get(key);
      if cached.Some? && Truthy(cached.value) {
        r := Decode(cached.value);
        return;
      }
      var parsed := ParseDecimal(pkText);
      if parsed.None? || parsed.value !in db.store.locations {
        r := Failure(NotFound);
        return;
      }
      var payload := LocationDetail(View(db.store, parsed.value));
      cache.Set(key, Text(payload), CacheTimeout);
      r := Success(payload);
      if Coherent(e0, db.store) {
        CoherentAfterAliasFill(e0, db.store, pkText, parsed.value);
      }
    }

    /** `create` with `perform_create`: insert the location, then delete `locations_list`. */
    method Create(name: string, address: string) returns (r: Result<LocationView, Error>)
      requires Valid()
      modifies cache, db
      ensures Valid()
      ensures |name| > NameMaxLength ==>
        && r == Failure(ValidationError(NameTooLong))
        && db.store == old(db.store) && cache.entries == old(cache.entries)
      ensures |name| <= NameMaxLength ==>
        && InsertLocation(old(db.store), Location(name, address)).Success?
        && db.store == InsertLocation(old(db.store), Location(name, address)).value.store
        && r.Success? && r.value.id == InsertLocation(old(db.store), Location(name, address)).value.id
        && r.value == View(db.store, r.value.id)
        && cache.entries == old(cache.entries) - {LocationsListKey}
      ensures Coherent(old(cache.entries), old(db.store)) ==> Coherent(cache.entries, db.store)
    {
      ghost var e0, s0 := cache.entries, db.store;
      if |name| > NameMaxLength {
        r := Failure(ValidationError(NameTooLong));
        return;
      }
      var inserted := InsertLocation(db.store, Location(name, address));
      db.store := inserted.value.store;
      cache.Delete(LocationsListKey);
      r := Success(View(db.store, inserted.value.id));
      if Coherent(e0, s0) {
        CoherentAfterDelete(e0, s0, {LocationsListKey});
        InsertLocationKeepsViews(s0, Location(name, address));
        CoherentAfterWrite(cache.entries, s0, db.store, {});
      }
    }

    /** `update` with `perform_update`: save, then delete `locations_list` and `location_{pk}`. */
    method Update(pk: LocationId, name: string, address: string) returns (r: Result<LocationView, Error>)
      requires Valid()
      modifies cache, db
      ensures Valid()
      ensures pk !in old(db.store.locations) ==>
        r == Failure(NotFound) && db.store == old(db.store) && cache.entries == old(cache.entries)
      ensures pk in old(db.store.locations) && |name| > NameMaxLength ==>
        && r == Failure(ValidationError(NameTooLong))
        && db.store == old(db.store) && cache.entries == old(cache.entries)
      ensures pk in old(db.store.locations) && |name| <= NameMaxLength ==>
        && UpdateLocation(old(db.store), pk, Location(name, address)).Success?
        && db.store == UpdateLocation(old(db.store), pk, Location(name, address)).value
        && r == Success(View(db.store, pk))
        && cache.entries == old(cache.entries) - {LocationsListKey, LocationKey(pk)}
      ensures Coherent(old(cache.entries), old(db.store)) ==> Coherent(cache.entries, db.store)
    {
      ghost var e0, s0 := cache.entries, db.store;
      if pk !in db.store.locations {
        r := Failure(NotFound);
        return;
      }
      if |name| > NameMaxLength {
        r := Failure(ValidationError(NameTooLong));
        return;
      }
      var updated := UpdateLocation(db.store, pk, Location(name, address));
      db.store := updated.value;
      cache.Delete(LocationsListKey);
      cache.Delete(LocationKey(pk));
      assert cache.entries == e0 - {LocationsListKey, LocationKey(pk)};
      r := Success(View(db.store, pk));
      if Coherent(e0, s0) {
        CoherentAfterDelete(e0, s0, {LocationsListKey, LocationKey(pk)});
        UpdateLocationKeepsViews(s0, pk, Location(name, address));
        CoherentAfterWrite(cache.entries, s0, db.store, {pk});
      }
    }

    /**
     * `destroy` with `perform_destroy`: delete `locations_list` and
     * `location_{pk}` first, then the row with its reviews and likes. The
     * `_reviews` and `_likes` entries are left in place.
     */
    method Destroy(pk: LocationId) returns (r: Status)
      requires Valid()
      modifies cache, db
      ensures Valid()
      ensures pk !in old(db.store.locations) ==>
        r == Failure(NotFound) && db.store == old(db.store) && cache.entries == old(cache.entries)
      ensures pk in old(db.store.locations) ==>
        && r == Success(())
        && cache.entries == old(cache.entries) - {LocationsListKey, LocationKey(pk)}
        && db.store == DeleteLocation(old(db.store), pk)
      ensures Coherent(old(cache.entries), old(db.store)) ==> Coherent(cache.entries, db.store)
    {
      ghost var e0, s0 := cache.entries, db.store;
      if pk !in db.store.locations {
        r := Failure(NotFound);
        return;
      }
      cache.Delete(LocationsListKey);
      cache.Delete(LocationKey(pk));
      db.store := DeleteLocation(db.store, pk);
      r := Success(());
      if Coherent(e0, s0) {
        CoherentAfterDelete(e0, s0, {LocationsListKey, LocationKey(pk)});
        DeleteLocationKeepsViews(s0, pk);
        CoherentAfterWrite(cache.entries, s0, db.store, {pk});
      }
    }
  }

  class ReviewViewSet {
    const cache: Cache
    const db: Database

    constructor (cache: Cache, db: Database)
      ensures this.cache == cache && this.db == db
    {
      this.cache := cache;
      this.db := db;
    }

    ghost predicate Valid()
      reads this, cache, db
    {
      cache.Valid() && Models.Valid(db.store)
    }

    /**
     * `get_queryset`: always the location's review rows from the database,
     * whatever the cache holds; on a miss (an absent key or an empty cached
     * list) the rows are also stored under `location_{id}_reviews`.
     */
    method GetQueryset(locationPk: LocationId) returns (rows: map<ReviewId, Review>)
      requires Valid()
      modifies cache
      ensures Valid()
      ensures rows == ReviewsOf(db.store, locationPk)
      ensures cache.entries == AfterRowsRead(old(cache.entries), ReviewsKey(locationPk), ReviewRows(rows))
      ensures !Hit(old(cache.entries), ReviewsKey(locationPk)) ==> cache.timeouts[ReviewsKey(locationPk)] == CacheTimeout
      ensures Coherent(old(cache.entries), db.store) ==> Coherent(cache.entries, db.store)
    {
      ghost var e0 := cache.entries;
      var key := ReviewsKey(locationPk);
      var cached := cache.Get(key);
      if cached.Some? && Truthy(cached.value) {
        rows := ReviewsOf(db.store, locationPk);
        return;
      }
      rows := ReviewsOf(db.store, locationPk);
      cache.Set(key, ReviewRows(rows), CacheTimeout);
      if Coherent(e0, db.store) {
        CoherentAfterRowsFill(e0, db.store, locationPk, false, ReviewRows(rows));
      }
    }

    /**
     * `create` with `perform_create`: the comment is validated, the review
     * is saved with the requesting user and the location of the URL, then
     * `location_{id}`, `location_{id}_reviews` and `locations_list` are
     * deleted.
     */
    method Create(user: UserId, locationPk: LocationId, comment: string, now: int) returns (r: Result<ReviewId, Error>)
      requires Valid()
      modifies cache, db
      ensures Valid()
      ensures |comment| < CommentMinLength ==>
        && r == Failure(ValidationError(CommentTooShort))
        && db.store == old(db.store) && cache.entries == old(cache.entries)
      ensures |comment| >= CommentMinLength && InsertReview(old(db.store), Review(locationPk, user, comment, now)).Failure? ==>
        && r == Failure(StoreFailure(IntegrityError))
        && db.store == old(db.store) && cache.entries == old(cache.entries)
      ensures |comment| >= CommentMinLength && InsertReview(old(db.store), Review(locationPk, user, comment, now)).Success? ==>
        && r == Success(InsertReview(old(db.store), Review(locationPk, user, comment, now)).value.id)
        && db.store == InsertReview(old(db.store), Review(locationPk, user, comment, now)).value.store
        && cache.entries == old(cache.entries) - {LocationKey(locationPk), ReviewsKey(locationPk), LocationsListKey}
      ensures r.Success? ==> r.value in db.store.reviews && db.store.reviews[r.value] == Review(locationPk, user, comment, now)
      ensures Coherent(old(cache.entries), old(db.store)) ==> Coherent(cache.entries, db.store)
    {
      ghost var e0, s0 := cache.entries, db.store;
      var validated := ValidateComment(comment);
      if validated.Failure? {
        r := Failure(ValidationError(validated.error));
        return;
      }
      var row := Review(locationPk, user, validated.value, now);
      var inserted := InsertReview(db.store, row);
      if inserted.Failure? {
        r := Failure(StoreFailure(inserted.error));
        return;
      }
      db.store := inserted.value.store;
      var location := db.store.reviews[inserted.value.id].location;
      InvalidateLocation(cache, location, ReviewsKey(location));
      r := Success(inserted.value.id);
      if Coherent(e0, s0) {
        InsertReviewKeepsViews(s0, row);
        CoherentAfterLocationInvalidation(e0, s0, db.store, locationPk, ReviewsKey(locationPk));
      }
    }

    /**
     * `update` as the source has it: `perform_update` is not overridden, so
     * the comment is saved and no entry is deleted. The lookup through
     * `get_queryset` may store the pre-update rows.
     */
    method UpdateAsWritten(locationPk: LocationId, pk: ReviewId, comment: string) returns (r: Status)
      requires Valid()
      modifies cache, db
      ensures Valid()
      ensures cache.entries == AfterRowsRead(old(cache.entries), ReviewsKey(locationPk), ReviewRows(ReviewsOf(old(db.store), locationPk)))
      ensures pk !in ReviewsOf(old(db.store), locationPk) ==> r == Failure(NotFound) && db.store == old(db.store)
      ensures pk in ReviewsOf(old(db.store), locationPk) && |comment| < CommentMinLength ==>
        r == Failure(ValidationError(CommentTooShort)) && db.store == old(db.store)
      ensures pk in ReviewsOf(old(db.store), locationPk) && |comment| >= CommentMinLength ==>
        r == Success(()) && db.store == UpdateReviewComment(old(db.store), pk, comment)
    {
      var rows := GetQueryset(locationPk);
      if pk !in rows {
        r := Failure(NotFound);
        return;
      }
      var validated := ValidateComment(comment);
      if validated.Failure? {
        r := Failure(ValidationError(validated.error));
        return;
      }
      db.store := UpdateReviewComment(db.store, pk, validated.value);
      r := Success(());
    }

    /**
     * `update` with the invalidation every other review write performs:
     * save, then delete `location_{id}`, `location_{id}_reviews` and
     * `locations_list`.
     */
    method Update(locationPk: LocationId, pk: ReviewId, comment: string) returns (r: Status)
      requires Valid()
      modifies cache, db
      ensures Valid()
      ensures pk !in ReviewsOf(old(db.store), locationPk) ==>
        && r == Failure(NotFound) && db.store == old(db.store)
        && cache.entries == AfterRowsRead(old(cache.entries), ReviewsKey(locationPk), ReviewRows(ReviewsOf(old(db.store), locationPk)))
      ensures pk in ReviewsOf(old(db.store), locationPk) && |comment| < CommentMinLength ==>
        && r == Failure(ValidationError(CommentTooShort)) && db.store == old(db.store)
        && cache.entries == AfterRowsRead(old(cache.entries), ReviewsKey(locationPk), ReviewRows(ReviewsOf(old(db.store), locationPk)))
      ensures pk in ReviewsOf(old(db.store), locationPk) && |comment| >= CommentMinLength ==>
        && r == Success(()) && db.store == UpdateReviewComment(old(db.store), pk, comment)
        && cache.entries == old(cache.entries) - {LocationKey(locationPk), ReviewsKey(locationPk), LocationsListKey}
      ensures Coherent(old(cache.entries), old(db.store)) ==> Coherent(cache.entries, db.store)
    {
      ghost var e0, s0 := cache.entries, db.store;
      var rows := GetQueryset(locationPk);
      if pk !in rows {
        r := Failure(NotFound);
        return;
      }
      var validated := ValidateComment(comment);
      if validated.Failure? {
        r := Failure(ValidationError(validated.error));
        return;
      }
      db.store := UpdateReviewComment(db.store, pk, validated.value);
      var location := db.store.reviews[pk].location;
      assert location == locationPk;
      InvalidateLocation(cache, location, ReviewsKey(location));
      DeleteAfterRowsRead(e0, ReviewsKey(locationPk), ReviewRows(ReviewsOf(s0, locationPk)), LocationKey(locationPk), LocationsListKey);
      r := Success(());
      if Coherent(e0, s0) {
        UpdateReviewKeepsViews(s0, pk, comment);
        CoherentAfterLocationInvalidation(e0, s0, db.store, locationPk, ReviewsKey(locationPk));
      }
    }

    /**
     * `destroy` with `perform_destroy`: after the lookup, delete
     * `location_{id}`, `location_{id}_reviews` and `locations_list`, then
     * the row.
     */
    method Destroy(locationPk: LocationId, pk: ReviewId) returns (r: Status)
      requires Valid()
      modifies cache, db
      ensures Valid()
      ensures pk !in ReviewsOf(old(db.store), locationPk) ==>
        && r == Failure(NotFound) && db.store == old(db.store)
        && cache.entries == AfterRowsRead(old(cache.entries), ReviewsKey(locationPk), ReviewRows(ReviewsOf(old(db.store), locationPk)))
      ensures pk in ReviewsOf(old(db.store), locationPk) ==>
        && r == Success(()) && db.store == DeleteReview(old(db.store), pk)
        && cache.entries == old(cache.entries) - {LocationKey(locationPk), ReviewsKey(locationPk), LocationsListKey}
      ensures Coherent(old(cache.entries), old(db.store)) ==> Coherent(cache.entries, db.store)
    {
      ghost var e0, s0 := cache.entries, db.store;
      var rows := GetQueryset(locationPk);
      if pk !in rows {
        r := Failure(NotFound);
        return;
      }
      var location := rows[pk].location;
      assert location == locationPk;
      InvalidateLocation(cache, location, ReviewsKey(location));
      DeleteAfterRowsRead(e0, ReviewsKey(locationPk), ReviewRows(ReviewsOf(s0, locationPk)), LocationKey(locationPk), LocationsListKey);
      db.store := DeleteReview(db.store, pk);
      r := Success(());
      if Coherent(e0, s0) {
        DeleteReviewKeepsViews(s0, pk);
        CoherentAfterLocationInvalidation(e0, s0, db.store, locationPk, ReviewsKey(locationPk));
      }
    }
  }

  class LikeViewSet {
    const cache: Cache
    const db: Database

    constructor (cache: Cache, db: Database)
      ensures this.cache == cache && this.db == db
    {
      this.cache := cache;
      this.db := db;
    }

    ghost predicate Valid()
      reads this, cache, db
    {
      cache.Valid() && Models.Valid(db.store)
    }

    /**
     * `get_queryset`: always the location's like rows from the database,
     * whatever the cache holds; on a miss (an absent key or an empty cached
     * list) the rows are also stored under `location_{id}_likes`.
     */
    method GetQueryset(locationPk: LocationId) returns (rows: map<LikeId, Like>)
      requires Valid()
      modifies cache
      ensures Valid()
      ensures rows == LikesOf(db.store, locationPk)
      ensures cache.entries == AfterRowsRead(old(cache.entries), LikesKey(locationPk), LikeRows(rows))
      ensures !Hit(old(cache.entries), LikesKey(locationPk)) ==> cache.timeouts[LikesKey(locationPk)] == CacheTimeout
      ensures Coherent(old(cache.entries), db.store) ==> Coherent(cache.entries, db.store)
    {
      ghost var e0 := cache.entries;
      var key := LikesKey(locationPk);
      var cached := cache.Get(key);
      if cached.Some? && Truthy(cached.value) {
        rows := LikesOf(db.store, locationPk);
        return;
      }
      rows := LikesOf(db.store, locationPk);
      cache.Set(key, LikeRows(rows), CacheTimeout);
      if Coherent(e0, db.store) {
        CoherentAfterRowsFill(e0, db.store, locationPk, true, LikeRows(rows));
      }
    }

    /**
     * `create` with `perform_create`: refused when the user already rated
     * the location; otherwise the like is saved with the requesting user and
     * the location of the URL, then `location_{id}`, `location_{id}_likes`
     * and `locations_list` are deleted.
     */
    method Create(user: UserId, locationPk: LocationId, isLike: bool) returns (r: Result<LikeId, Error>)
      requires Valid()
      modifies cache, db
      ensures Valid()
      ensures HasRated(old(db.store), user, locationPk) ==>
        && r == Failure(ValidationError(AlreadyRated))
        && db.store == old(db.store) && cache.entries == old(cache.entries)
      ensures !HasRated(old(db.store), user, locationPk) && InsertLike(old(db.store), Like(locationPk, user, isLike)).Failure? ==>
        && r == Failure(StoreFailure(IntegrityError))
        && db.store == old(db.store) && cache.entries == old(cache.entries)
      ensures !HasRated(old(db.store), user, locationPk) && InsertLike(old(db.store), Like(locationPk, user, isLike)).Success? ==>
        && r == Success(InsertLike(old(db.store), Like(locationPk, user, isLike)).value.id)
        && db.store == InsertLike(old(db.store), Like(locationPk, user, isLike)).value.store
        && cache.entries == old(cache.entries) - {LocationKey(locationPk), LikesKey(locationPk), LocationsListKey}
      ensures r.Success? ==> r.value in db.store.likes && db.store.likes[r.value] == Like(locationPk, user, isLike)
      ensures Coherent(old(cache.entries), old(db.store)) ==> Coherent(cache.entries, db.store)
    {
      ghost var e0, s0 := cache.entries, db.store;
      var validated := ValidateLike(db.store, user, locationPk, LikeData(isLike));
      if validated.Failure? {
        r := Failure(ValidationError(validated.error));
        return;
      }
      var row := Like(locationPk, user, validated.value.isLike);
      var inserted := InsertLike(db.store, row);
      if inserted.Failure? {
        r := Failure(StoreFailure(inserted.error));
        return;
      }
      db.store := inserted.value.store;
      var location := db.store.likes[inserted.value.id].location;
      InvalidateLocation(cache, location, LikesKey(location));
      r := Success(inserted.value.id);
      if Coherent(e0, s0) {
        InsertLikeKeepsViews(s0, row);
        CoherentAfterLocationInvalidation(e0, s0, db.store, locationPk, LikesKey(locationPk));
      }
    }

    /**
     * `update` as the source has it: `LikeSerializer.validate` runs again
     * for the requesting user, then the value is saved and no entry is
     * deleted. The lookup through `get_queryset` may store the pre-update
     * rows.
     */
    method UpdateAsWritten(user: UserId, locationPk: LocationId, pk: LikeId, isLike: bool) returns (r: Status)
      requires Valid()
      modifies cache, db
      ensures Valid()
      ensures cache.entries == AfterRowsRead(old(cache.entries), LikesKey(locationPk), LikeRows(LikesOf(old(db.store), locationPk)))
      ensures pk !in LikesOf(old(db.store), locationPk) ==> r == Failure(NotFound) && db.store == old(db.store)
      ensures pk in LikesOf(old(db.store), locationPk) && HasRated(old(db.store), user, locationPk) ==>
        r == Failure(ValidationError(AlreadyRated)) && db.store == old(db.store)
      ensures pk in LikesOf(old(db.store), locationPk) && !HasRated(old(db.store), user, locationPk) ==>
        r == Success(()) && db.store == UpdateLikeValue(old(db.store), pk, isLike)
    {
      var rows := GetQueryset(locationPk);
      if pk !in rows {
        r := Failure(NotFound);
        return;
      }
      var validated := ValidateLike(db.store, user, locationPk, LikeData(isLike));
      if validated.Failure? {
        r := Failure(ValidationError(validated.error));
        return;
      }
      db.store := UpdateLikeValue(db.store, pk, validated.value.isLike);
      r := Success(());
    }

    /**
     * `update` with the invalidation every other like write performs:
     * save, then delete `location_{id}`, `location_{id}_likes` and
     * `locations_list`.
     */
    method Update(user: UserId, locationPk: LocationId, pk: LikeId, isLike: bool) returns (r: Status)
      requires Valid()
      modifies cache, db
      ensures Valid()
      ensures pk !in LikesOf(old(db.store), locationPk) ==>
        && r == Failure(NotFound) && db.store == old(db.store)
        && cache.entries == AfterRowsRead(old(cache.entries), LikesKey(locationPk), LikeRows(LikesOf(old(db.store), locationPk)))
      ensures pk in LikesOf(old(db.store), locationPk) && HasRated(old(db.store), user, locationPk) ==>
        && r == Failure(ValidationError(AlreadyRated)) && db.store == old(db.store)
        && cache.entries == AfterRowsRead(old(cache.entries), LikesKey(locationPk), LikeRows(LikesOf(old(db.store), locationPk)))
      ensures pk in LikesOf(old(db.store), locationPk) && !HasRated(old(db.store), user, locationPk) ==>
        && r == Success(()) && db.store == UpdateLikeValue(old(db.store), pk, isLike)
        && cache.entries == old(cache.entries) - {LocationKey(locationPk), LikesKey(locationPk), LocationsListKey}
      ensures Coherent(old(cache.entries), old(db.store)) ==> Coherent(cache.entries, db.store)
    {
      ghost var e0, s0 := cache.entries, db.store;
      var rows := GetQueryset(locationPk);
      if pk !in rows {
        r := Failure(NotFound);
        return;
      }
      var validated := ValidateLike(db.store, user, locationPk, LikeData(isLike));
      if validated.Failure? {
        r := Failure(ValidationError(validated.error));
        return;
      }
      db.store := UpdateLikeValue(db.store, pk, validated.value.isLike);
      var location := db.store.likes[pk].location;
      assert location == locationPk;
      InvalidateLocation(cache, location, LikesKey(location));
      DeleteAfterRowsRead(e0, LikesKey(locationPk), LikeRows(LikesOf(s0, locationPk)), LocationKey(locationPk), LocationsListKey);
      r := Success(());
      if Coherent(e0, s0) {
        UpdateLikeKeepsViews(s0, pk, isLike);
        CoherentAfterLocationInvalidation(e0, s0, db.store, locationPk, LikesKey(locationPk));
      }
    }

    /**
     * `destroy` with `perform_destroy`: after the lookup, delete
     * `location_{id}`, `location_{id}_likes` and `locations_list`, then
     * the row.
     */
    method Destroy(locationPk: LocationId, pk: LikeId) returns (r: Status)
      requires Valid()
      modifies cache, db
      ensures Valid()
      ensures pk !in LikesOf(old(db.store), locationPk) ==>
        && r == Failure(NotFound) && db.store == old(db.store)
        && cache.entries == AfterRowsRead(old(cache.entries), LikesKey(locationPk), LikeRows(LikesOf(old(db.store), locationPk)))
      ensures pk in LikesOf(old(db.store), locationPk) ==>
        && r == Success(()) && db.store == DeleteLike(old(db.store), pk)
        && cache.entries == old(cache.entries) - {LocationKey(locationPk), LikesKey(locationPk), LocationsListKey}
      ensures Coherent(old(cache.entries), old(db.store)) ==> Coherent(cache.entries, db.store)
    {
      ghost var e0, s0 := cache.entries, db.store;
      var rows := GetQueryset(locationPk);
      if pk !in rows {
        r := Failure(NotFound);
        return;
      }
      var location := rows[pk].location;
      assert location == locationPk;
      InvalidateLocation(cache, location, LikesKey(location));
      DeleteAfterRowsRead(e0, LikesKey(locationPk), LikeRows(LikesOf(s0, locationPk)), LocationKey(locationPk), LocationsListKey);
      db.store := DeleteLike(db.store, pk);
      r := Success(());
      if Coherent(e0, s0) {
        DeleteLikeKeepsViews(s0, pk);
        CoherentAfterLocationInvalidation(e0, s0, db.store, locationPk, LikesKey(locationPk));
      }
    }
  }
}
