/**
 * The `LocationViewSet.queryset` ordering, `-likes_count` then
 * `dislikes_count`, and the first page of the list as the paginator
 * renders it.
 */
module Ordering {
  import opened Models
  import opened Serializers
  import opened Caching

  /** `PAGE_SIZE` of the page-number paginator. */
  const PageSize: nat := 20

  /**
   * `a` may be listed before `b`: more likes first, then fewer dislikes.
   * The query leaves ties to the database; this model breaks them by
   * ascending id so that the order is total.
   */
  predicate RanksBefore(s: Store, a: LocationId, b: LocationId) {
    var ua, ub := LikesCount(s, a), LikesCount(s, b);
    var da, dl := DislikesCount(s, a), DislikesCount(s, b);
    ua > ub || (ua == ub && (da < dl || (da == dl && a <= b)))
  }

  /**
   * The list order is total and antisymmetric, and agrees with the two
   * sort keys: more likes always come first, and a location listed first
   * has at least as many likes and, on equal likes, no more dislikes.
   */
  lemma RanksBeforeOrdersByCounts(s: Store, a: LocationId, b: LocationId)
    ensures RanksBefore(s, a, b) || RanksBefore(s, b, a)
    ensures RanksBefore(s, a, b) && RanksBefore(s, b, a) ==> a == b
    ensures LikesCount(s, a) > LikesCount(s, b) ==> RanksBefore(s, a, b) && !RanksBefore(s, b, a)
    ensures RanksBefore(s, a, b) ==> LikesCount(s, a) >= LikesCount(s, b)
    ensures RanksBefore(s, a, b) && LikesCount(s, a) == LikesCount(s, b) ==> DislikesCount(s, a) <= DislikesCount(s, b)
  {
  }

  lemma RanksBeforeTransitive(s: Store, a: LocationId, b: LocationId, c: LocationId)
    requires RanksBefore(s, a, b) && RanksBefore(s, b, c)
    ensures RanksBefore(s, a, c)
  {
  }

  /** Every non-empty set of locations has a first one in the ranking. */
  lemma {:induction false} FirstExists(s: Store, ids: set<LocationId>)
    requires ids != {}
    ensures exists x :: x in ids && forall y :: y in ids ==> RanksBefore(s, x, y)
    decreases ids
  {
    var z :| z in ids;
    var rest := ids - {z};
    if rest == {} {
      assert ids == {z};
      assert z in ids && forall y :: y in ids ==> RanksBefore(s, z, y);
    } else {
      FirstExists(s, rest);
      var x :| x in rest && forall y :: y in rest ==> RanksBefore(s, x, y);
      if RanksBefore(s, x, z) {
        assert x in ids && forall y :: y in ids ==> RanksBefore(s, x, y);
      } else {
        forall y | y in ids
          ensures RanksBefore(s, z, y)
        {
          if y != z {
            RanksBeforeTransitive(s, z, x, y);
          }
        }
        assert z in ids && forall y :: y in ids ==> RanksBefore(s, z, y);
      }
    }
  }

  /** A location of `ids` that may be listed before every other one. */
  function First(s: Store, ids: set<LocationId>): (x: LocationId)
    requires ids != {}
    ensures x in ids && forall y :: y in ids ==> RanksBefore(s, x, y)
  {
    FirstExists(s, ids);
    var x :| x in ids && forall y :: y in ids ==> RanksBefore(s, x, y);
    x
  }

  /** The ids of `ids` in list order: each exactly once, ordered by `RanksBefore`. */
  function Ranked(s: Store, ids: set<LocationId>): (r: seq<LocationId>)
    ensures |r| == |ids|
    ensures forall i :: 0 <= i < |r| ==> r[i] in ids
    ensures forall x :: x in ids ==> x in r
    ensures forall i, j :: 0 <= i < j < |r| ==> r[i] != r[j] && RanksBefore(s, r[i], r[j])
    decreases ids
  {
    if ids == {} then []
    else
      var x := First(s, ids);
      [x] + Ranked(s, ids - {x})
  }

  /**
   * The ids the first page shows: the leading `PageSize` of the ranking,
   * or all of it when it is shorter. Every selected location left off the
   * page ranks after every location on it.
   */
  function TopIds(s: Store, ids: set<LocationId>): (r: seq<LocationId>)
    ensures |r| == if |ids| <= PageSize then |ids| else PageSize
    ensures forall i :: 0 <= i < |r| ==> r[i] in ids
    ensures forall i, j :: 0 <= i < j < |r| ==> r[i] != r[j] && RanksBefore(s, r[i], r[j])
    ensures |ids| <= PageSize ==> forall x :: x in ids ==> x in r
    ensures forall i, x :: 0 <= i < |r| && x in ids && x !in r ==> RanksBefore(s, r[i], x)
  {
    var order := Ranked(s, ids);
    var r := if |order| <= PageSize then order else order[..PageSize];
    assert forall i, x :: 0 <= i < |r| && x in ids && x !in r ==> RanksBefore(s, r[i], x) by {
      forall i, x | 0 <= i < |r| && x in ids && x !in r
        ensures RanksBefore(s, r[i], x)
      {
        var j :| 0 <= j < |order| && order[j] == x;
        assert r == order[..|r|];
        assert i < j;
      }
    }
    r
  }

  /**
   * The first page of the list over the locations `ids`: the total count
   * and the renderings of the ranked ids the page holds.
   */
  function Page(s: Store, ids: set<LocationId>): (p: Payload)
    requires ids <= s.locations.Keys
    ensures p.LocationPage? && p.count == |ids|
    ensures |p.results| == if |ids| <= PageSize then |ids| else PageSize
    ensures forall i :: 0 <= i < |p.results| ==> p.results[i].id in ids && p.results[i] == View(s, p.results[i].id)
  {
    var top := TopIds(s, ids);
    LocationPage(|ids|, seq(|top|, i requires 0 <= i < |top| => View(s, top[i])))
  }

  /**
   * The page lists distinct locations, most liked first and, among equally
   * liked ones, least disliked first; when everything fits on one page,
   * every selected location is on it.
   */
  lemma PageOrdered(s: Store, ids: set<LocationId>)
    requires ids <= s.locations.Keys
    ensures var p := Page(s, ids);
      && (forall i, j :: 0 <= i < j < |p.results| ==> p.results[i].id != p.results[j].id)
      && (forall i, j :: 0 <= i < j < |p.results| ==>
            || p.results[i].likesCount > p.results[j].likesCount
            || (p.results[i].likesCount == p.results[j].likesCount
                && p.results[i].dislikesCount <= p.results[j].dislikesCount))
      && (|ids| <= PageSize ==> forall x :: x in ids ==> !OffPage(p, x))
  {
    var p, top := Page(s, ids), TopIds(s, ids);
    assert forall i :: 0 <= i < |top| ==> p.results[i] == View(s, top[i]);
    forall i, j | 0 <= i < j < |p.results|
      ensures p.results[i].id != p.results[j].id
      ensures || p.results[i].likesCount > p.results[j].likesCount
              || (p.results[i].likesCount == p.results[j].likesCount
                  && p.results[i].dislikesCount <= p.results[j].dislikesCount)
    {
      assert RanksBefore(s, top[i], top[j]);
    }
    if |ids| <= PageSize {
      forall x | x in ids
        ensures !OffPage(p, x)
      {
        var i :| 0 <= i < |top| && top[i] == x;
        assert p.results[i].id == x;
      }
    }
  }

  /**
   * The page holds the head of the ranking: every selected location left
   * off it has no more likes than any location on it, and no fewer
   * dislikes than one with as many likes.
   */
  lemma PageHoldsTop(s: Store, ids: set<LocationId>)
    requires ids <= s.locations.Keys
    ensures var p := Page(s, ids);
      && (forall i, x :: 0 <= i < |p.results| && x in ids && OffPage(p, x) ==>
            || p.results[i].likesCount > LikesCount(s, x)
            || (p.results[i].likesCount == LikesCount(s, x)
                && p.results[i].dislikesCount <= DislikesCount(s, x)))
  {
    var p, top := Page(s, ids), TopIds(s, ids);
    assert forall i :: 0 <= i < |top| ==> p.results[i] == View(s, top[i]);
    forall i, x | 0 <= i < |p.results| && x in ids && OffPage(p, x)
      ensures || p.results[i].likesCount > LikesCount(s, x)
              || (p.results[i].likesCount == LikesCount(s, x)
                  && p.results[i].dislikesCount <= DislikesCount(s, x))
    {
      assert x !in top;
      assert RanksBefore(s, top[i], x);
    }
  }

  /** No entry of the page renders location `x`. */
  predicate OffPage(p: Payload, x: LocationId)
    requires p.LocationPage?
  {
    forall i :: 0 <= i < |p.results| ==> p.results[i].id != x
  }

  /** The page the unfiltered list serves. */
  function ListPage(s: Store): Payload {
    Page(s, s.locations.Keys)
  }
}
