/**
 * The three tables of the locations app and the constraints the database
 * keeps on them: foreign keys with ON DELETE CASCADE, the 255-character
 * limit on a location's name and the `unique_together` rule on likes.
 * Rows are kept in maps keyed by their primary key; a table's id sequence
 * only moves forward, so a deleted id is never handed out again.
 */
module Models {
  import opened Wrappers

  type UserId = nat
  type LocationId = nat
  type ReviewId = nat
  type LikeId = nat

  /** `max_length` of `Location.name`. */
  const NameMaxLength: nat := 255

  datatype Location = Location(name: string, address: string)

  /** `createdAt` is the `auto_now_add` stamp, given by the clock at insertion. */
  datatype Review = Review(location: LocationId, user: UserId, comment: string, createdAt: int)

  /** `isLike` true is a like, false a dislike. */
  datatype Like = Like(location: LocationId, user: UserId, isLike: bool)

  datatype Store = Store(
    users: set<UserId>,
    locations: map<LocationId, Location>,
    reviews: map<ReviewId, Review>,
    likes: map<LikeId, Like>,
    nextLocationId: nat,
    nextReviewId: nat,
    nextLikeId: nat)

  /** What the database refuses: a missing referenced row or a duplicate rating, and a name that is too long. */
  datatype StoreError = IntegrityError | DataError

  /** A successful insertion: the new table state and the id the row received. */
  datatype Inserted = Inserted(store: Store, id: nat)

  const EmptyStore: Store := Store({}, map[], map[], map[], 1, 1, 1)

  predicate LocationRowOk(s: Store, id: LocationId) requires id in s.locations {
    id < s.nextLocationId && |s.locations[id].name| <= NameMaxLength
  }

  predicate ReviewRowOk(s: Store, id: ReviewId) requires id in s.reviews {
    id < s.nextReviewId && s.reviews[id].location in s.locations && s.reviews[id].user in s.users
  }

  predicate LikeRowOk(s: Store, id: LikeId) requires id in s.likes {
    id < s.nextLikeId && s.likes[id].location in s.locations && s.likes[id].user in s.users
  }

  /** True when `user` already has a Like row on `location`. */
  predicate HasRated(s: Store, user: UserId, location: LocationId) {
    exists id :: id in s.likes && s.likes[id].user == user && s.likes[id].location == location
  }

  /** `unique_together = ("user", "location")`: at most one Like per (user, location) pair. */
  predicate UniqueRatings(s: Store) {
    forall a, b ::
      (a in s.likes && b in s.likes && s.likes[a].user == s.likes[b].user
       && s.likes[a].location == s.likes[b].location) ==> a == b
  }

  /** Every constraint the database keeps. */
  predicate Valid(s: Store) {
    && (forall id :: id in s.locations ==> LocationRowOk(s, id))
    && (forall id :: id in s.reviews ==> ReviewRowOk(s, id))
    && (forall id :: id in s.likes ==> LikeRowOk(s, id))
    && UniqueRatings(s)
  }

  lemma EmptyStoreValid()
    ensures Valid(EmptyStore) && EmptyStore.locations == map[]
  {
  }

  /** INSERT of a location: refused when the name is over 255 characters. */
  function InsertLocation(s: Store, row: Location): (r: Result<Inserted, StoreError>)
    requires Valid(s)
    ensures r.Failure? <==> |row.name| > NameMaxLength
    ensures r.Success? ==> var t := r.value.store;
      && Valid(t) && r.value.id !in s.locations
      && t.locations == s.locations[r.value.id := row]
      && t.reviews == s.reviews && t.likes == s.likes && t.users == s.users
  {
    if |row.name| > NameMaxLength then Failure(DataError)
    else
      var id := s.nextLocationId;
      Success(Inserted(s.(locations := s.locations[id := row], nextLocationId := id + 1), id))
  }

  /** UPDATE of an existing location's name and address. */
  function UpdateLocation(s: Store, id: LocationId, row: Location): (r: Result<Store, StoreError>)
    requires Valid(s) && id in s.locations
    ensures r.Failure? <==> |row.name| > NameMaxLength
    ensures r.Success? ==> var t := r.value;
      && Valid(t) && t.locations == s.locations[id := row]
      && t.reviews == s.reviews && t.likes == s.likes && t.users == s.users
  {
    if |row.name| > NameMaxLength then Failure(DataError)
    else Success(s.(locations := s.locations[id := row]))
  }

  /** DELETE of a location; ON DELETE CASCADE removes its reviews and likes with it. */
  function DeleteLocation(s: Store, id: LocationId): (t: Store)
    requires Valid(s)
    ensures Valid(t) && t.users == s.users
    ensures t.locations == s.locations - {id}
    ensures forall k :: k in t.reviews <==> k in s.reviews && s.reviews[k].location != id
    ensures forall k :: k in t.likes <==> k in s.likes && s.likes[k].location != id
    ensures forall k :: k in t.reviews ==> t.reviews[k] == s.reviews[k]
    ensures forall k :: k in t.likes ==> t.likes[k] == s.likes[k]
  {
    s.(locations := s.locations - {id},
       reviews := map k | k in s.reviews && s.reviews[k].location != id :: s.reviews[k],
       likes := map k | k in s.likes && s.likes[k].location != id :: s.likes[k])
  }

  /** DELETE of a user; ON DELETE CASCADE removes every review and like the user wrote. */
  function DeleteUser(s: Store, user: UserId): (t: Store)
    requires Valid(s)
    ensures Valid(t) && t.users == s.users - {user} && t.locations == s.locations
    ensures forall k :: k in t.reviews <==> k in s.reviews && s.reviews[k].user != user
    ensures forall k :: k in t.likes <==> k in s.likes && s.likes[k].user != user
    ensures forall k :: k in t.reviews ==> t.reviews[k] == s.reviews[k]
    ensures forall k :: k in t.likes ==> t.likes[k] == s.likes[k]
  {
    s.(users := s.users - {user},
       reviews := map k | k in s.reviews && s.reviews[k].user != user :: s.reviews[k],
       likes := map k | k in s.likes && s.likes[k].user != user :: s.likes[k])
  }

  /** INSERT of a review: refused when its location or its user does not exist. */
  function InsertReview(s: Store, row: Review): (r: Result<Inserted, StoreError>)
    requires Valid(s)
    ensures r.Failure? <==> row.location !in s.locations || row.user !in s.users
    ensures r.Success? ==> var t := r.value.store;
      && Valid(t) && r.value.id !in s.reviews
      && t.reviews == s.reviews[r.value.id := row]
      && t.locations == s.locations && t.likes == s.likes && t.users == s.users
  {
    if row.location !in s.locations || row.user !in s.users then Failure(IntegrityError)
    else
      var id := s.nextReviewId;
      Success(Inserted(s.(reviews := s.reviews[id := row], nextReviewId := id + 1), id))
  }

  /** UPDATE of a review's comment; its location, author and `createdAt` stay as inserted. */
  function UpdateReviewComment(s: Store, id: ReviewId, comment: string): (t: Store)
    requires Valid(s) && id in s.reviews
    ensures Valid(t) && id in t.reviews
    ensures t.reviews[id].comment == comment
    ensures t.reviews[id].createdAt == s.reviews[id].createdAt
    ensures t.reviews[id].location == s.reviews[id].location && t.reviews[id].user == s.reviews[id].user
    ensures t.reviews - {id} == s.reviews - {id}
    ensures t.locations == s.locations && t.likes == s.likes && t.users == s.users
  {
    s.(reviews := s.reviews[id := s.reviews[id].(comment := comment)])
  }

  function DeleteReview(s: Store, id: ReviewId): (t: Store)
    requires Valid(s)
    ensures Valid(t) && t.reviews == s.reviews - {id}
    ensures t.locations == s.locations && t.likes == s.likes && t.users == s.users
  {
    s.(reviews := s.reviews - {id})
  }

  /**
   * INSERT of a like: refused when its location or user does not exist, and
   * by the unique constraint when the user already rated that location.
   */
  function InsertLike(s: Store, row: Like): (r: Result<Inserted, StoreError>)
    requires Valid(s)
    ensures r.Failure? <==>
      row.location !in s.locations || row.user !in s.users || HasRated(s, row.user, row.location)
    ensures r.Success? ==> var t := r.value.store;
      && Valid(t) && r.value.id !in s.likes
      && t.likes == s.likes[r.value.id := row]
      && t.locations == s.locations && t.reviews == s.reviews && t.users == s.users
  {
    if row.location !in s.locations || row.user !in s.users then Failure(IntegrityError)
    else if exists id | id in s.likes :: s.likes[id].user == row.user && s.likes[id].location == row.location then
      Failure(IntegrityError)
    else
      var id := s.nextLikeId;
      Success(Inserted(s.(likes := s.likes[id := row], nextLikeId := id + 1), id))
  }

  /** UPDATE of a like's value; its location and author stay. */
  function UpdateLikeValue(s: Store, id: LikeId, isLike: bool): (t: Store)
    requires Valid(s) && id in s.likes
    ensures Valid(t) && id in t.likes
    ensures t.likes[id] == s.likes[id].(isLike := isLike)
    ensures t.likes - {id} == s.likes - {id}
    ensures t.locations == s.locations && t.reviews == s.reviews && t.users == s.users
  {
    s.(likes := s.likes[id := s.likes[id].(isLike := isLike)])
  }

  function DeleteLike(s: Store, id: LikeId): (t: Store)
    requires Valid(s)
    ensures Valid(t) && t.likes == s.likes - {id}
    ensures t.locations == s.locations && t.reviews == s.reviews && t.users == s.users
  {
    s.(likes := s.likes - {id})
  }

  /** Ids of the Like rows `user` left on `location`. */
  function RatingsBy(s: Store, user: UserId, location: LocationId): set<LikeId> {
    set id | id in s.likes && s.likes[id].user == user && s.likes[id].location == location
  }

  /**
   * `unique_together` read row by row: every like is the only rating its
   * user has given its location.
   */
  lemma UniqueRatingsSingleton(s: Store)
    ensures UniqueRatings(s) <==> forall k :: k in s.likes ==> RatingsBy(s, s.likes[k].user, s.likes[k].location) == {k}
  {
    if UniqueRatings(s) {
      forall k | k in s.likes
        ensures RatingsBy(s, s.likes[k].user, s.likes[k].location) == {k}
      {
        assert k in RatingsBy(s, s.likes[k].user, s.likes[k].location);
      }
    } else {
      var a, b :| a in s.likes && b in s.likes && s.likes[a].user == s.likes[b].user
        && s.likes[a].location == s.likes[b].location && a != b;
      assert b in RatingsBy(s, s.likes[a].user, s.likes[a].location);
    }
  }

  /**
   * What a valid database guarantees of each row: reviews and likes point
   * at an existing location and user, names fit in 255 characters, and
   * each like is its user's only rating of its location.
   */
  lemma ValidConstraints(s: Store)
    requires Valid(s)
    ensures forall k :: k in s.reviews ==> s.reviews[k].location in s.locations && s.reviews[k].user in s.users
    ensures forall k :: k in s.likes ==> s.likes[k].location in s.locations && s.likes[k].user in s.users
    ensures forall k :: k in s.locations ==> |s.locations[k].name| <= NameMaxLength
    ensures forall k :: k in s.likes ==> RatingsBy(s, s.likes[k].user, s.likes[k].location) == {k}
  {
    UniqueRatingsSingleton(s);
    assert forall k :: k in s.reviews ==> ReviewRowOk(s, k);
    assert forall k :: k in s.likes ==> LikeRowOk(s, k);
    assert forall k :: k in s.locations ==> LocationRowOk(s, k);
  }

  /** Under the unique constraint a user has at most one rating per location, and exactly one once rated. */
  lemma AtMostOneRating(s: Store, user: UserId, location: LocationId)
    requires Valid(s)
    ensures |RatingsBy(s, user, location)| <= 1
    ensures |RatingsBy(s, user, location)| == 1 <==> HasRated(s, user, location)
  {
    var ids := RatingsBy(s, user, location);
    if ids != {} {
      var k :| k in ids;
      assert ids == {k};
    } else {
      assert !HasRated(s, user, location) by {
        forall id | id in s.likes ensures !(s.likes[id].user == user && s.likes[id].location == location) {
          assert id !in ids;
        }
      }
    }
  }
}
