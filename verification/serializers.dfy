/**
 * The serializers of the locations app: the comment validator, the
 * one-rating-per-user validator, the like/dislike counts and the payload a
 * location is rendered to.
 */
module Serializers {
  import opened Wrappers
  import opened Models

  const CommentMinLength: nat := 5
  const CommentTooShort: string := "Comment must be at least 5 characters long."
  const AlreadyRated: string := "You have already rated this location."
  const NameTooLong: string := "Ensure this field has no more than 255 characters."

  /** `ReviewSerializer.validate_comment`: rejects a comment shorter than 5 characters, else returns it as given. */
  function ValidateComment(value: string): (r: Result<string, string>)
    ensures r.Success? <==> |value| >= CommentMinLength
    ensures r.Success? ==> r.value == value
    ensures r.Failure? ==> r.error == CommentTooShort
  {
    if |value| < CommentMinLength then Failure(CommentTooShort) else Success(value)
  }

  /** The fields a client may send for a like; `location` and `user` are read-only. */
  datatype LikeData = LikeData(isLike: bool)

  /**
   * `LikeSerializer.validate`: fails when the requesting user already has a
   * Like on the location named in the URL, else hands the data back as given.
   */
  function ValidateLike(s: Store, user: UserId, locationPk: LocationId, data: LikeData): (r: Result<LikeData, string>)
    ensures r.Failure? <==> exists id :: id in s.likes && s.likes[id].user == user && s.likes[id].location == locationPk
    ensures r.Failure? ==> r.error == AlreadyRated
    ensures r.Success? ==> r.value == data
  {
    if exists id | id in s.likes :: s.likes[id].user == user && s.likes[id].location == locationPk then
      Failure(AlreadyRated)
    else
      Success(data)
  }

  /** `Review.objects.filter(location_id=...)`, keyed by review id. */
  function ReviewsOf(s: Store, location: LocationId): (r: map<ReviewId, Review>)
    ensures forall k :: k in r <==> k in s.reviews && s.reviews[k].location == location
    ensures forall k :: k in r ==> r[k] == s.reviews[k]
  {
    map k | k in s.reviews && s.reviews[k].location == location :: s.reviews[k]
  }

  /** `Like.objects.filter(location_id=...)`, keyed by like id. */
  function LikesOf(s: Store, location: LocationId): (r: map<LikeId, Like>)
    ensures forall k :: k in r <==> k in s.likes && s.likes[k].location == location
    ensures forall k :: k in r ==> r[k] == s.likes[k]
  {
    map k | k in s.likes && s.likes[k].location == location :: s.likes[k]
  }

  /** Ids of the location's likes whose `is_like` equals `value`. */
  function RatingIds(s: Store, location: LocationId, value: bool): set<LikeId> {
    set k | k in s.likes && s.likes[k].location == location && s.likes[k].isLike == value
  }

  /** `get_likes_count`, and the `likes_count` annotation of the list query. */
  function LikesCount(s: Store, location: LocationId): nat {
    |RatingIds(s, location, true)|
  }

  /** `get_dislikes_count`, and the `dislikes_count` annotation of the list query. */
  function DislikesCount(s: Store, location: LocationId): nat {
    |RatingIds(s, location, false)|
  }

  /**
   * A count is non-zero exactly when the location has a like row with that
   * `is_like` value.
   */
  lemma CountsPositive(s: Store, location: LocationId)
    ensures LikesCount(s, location) > 0 <==>
      exists k :: k in s.likes && s.likes[k].location == location && s.likes[k].isLike
    ensures DislikesCount(s, location) > 0 <==>
      exists k :: k in s.likes && s.likes[k].location == location && !s.likes[k].isLike
  {
    RatingIdsNonEmpty(s, location, true);
    RatingIdsNonEmpty(s, location, false);
  }

  lemma RatingIdsNonEmpty(s: Store, location: LocationId, value: bool)
    ensures RatingIds(s, location, value) != {} <==>
      exists k :: k in s.likes && s.likes[k].location == location && s.likes[k].isLike == value
  {
    var ids := RatingIds(s, location, value);
    if ids != {} {
      var k :| k in ids;
      assert k in s.likes && s.likes[k].location == location && s.likes[k].isLike == value;
    } else {
      forall k | k in s.likes && s.likes[k].location == location
        ensures s.likes[k].isLike != value
      {
        assert k !in ids;
      }
    }
  }

  /** Every like row of a location is counted once, either as a like or as a dislike. */
  lemma CountsPartition(s: Store, location: LocationId)
    ensures LikesCount(s, location) + DislikesCount(s, location) == |LikesOf(s, location)|
  {
    var ups, downs := RatingIds(s, location, true), RatingIds(s, location, false);
    assert ups * downs == {};
    assert ups + downs == LikesOf(s, location).Keys;
  }

  /** What `LocationSerializer` renders for one location. */
  datatype LocationView = LocationView(
    id: LocationId,
    name: string,
    address: string,
    reviews: map<ReviewId, Review>,
    likesCount: nat,
    dislikesCount: nat)

  /** Renders an existing location with its reviews and its like and dislike counts. */
  function View(s: Store, id: LocationId): (v: LocationView)
    requires id in s.locations
    ensures v.id == id && v.name == s.locations[id].name && v.address == s.locations[id].address
    ensures v.likesCount + v.dislikesCount == |LikesOf(s, id)|
    ensures forall k :: k in v.reviews <==> k in s.reviews && s.reviews[k].location == id
  {
    CountsPartition(s, id);
    LocationView(id, s.locations[id].name, s.locations[id].address, ReviewsOf(s, id),
                 LikesCount(s, id), DislikesCount(s, id))
  }

  /** A location's rendering depends only on its row, its reviews and its likes. */
  lemma ViewFrame(s: Store, t: Store, id: LocationId)
    requires id in s.locations && id in t.locations
    requires s.locations[id] == t.locations[id]
    requires ReviewsOf(s, id) == ReviewsOf(t, id)
    requires LikesOf(s, id) == LikesOf(t, id)
    ensures View(s, id) == View(t, id)
  {
    assert RatingIds(s, id, true) == RatingIds(t, id, true);
    assert RatingIds(s, id, false) == RatingIds(t, id, false);
  }
}
