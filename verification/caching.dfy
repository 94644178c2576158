/**
 * The process-wide cache the views share (`django.core.cache.cache`, a
 * Redis store): string keys, values as the views put them there, and the
 * timeout each entry was stored with.
 */
module Caching {
  import opened Wrappers
  import opened Models
  import opened Serializers

  /** A response body: the first page of the location list, or one location. */
  datatype Payload =
    | LocationPage(count: nat, results: seq<LocationView>)
    | LocationDetail(view: LocationView)

  /**
   * A cached value. `Text(p)` is `json.dumps(p)`; decoding it gives `p`
   * back. The row variants are the `list(queryset.values())` lists the
   * review and like views store.
   */
  datatype CacheValue =
    | Text(payload: Payload)
    | ReviewRows(reviewRows: map<ReviewId, Review>)
    | LikeRows(likeRows: map<LikeId, Like>)

  /**
   * Python truthiness of a cached value: a JSON text is never the empty
   * string, a row list is true only when it holds a row.
   */
  predicate Truthy(v: CacheValue): (r: bool)
    ensures !r <==> v == ReviewRows(map[]) || v == LikeRows(map[])
  {
    match v
    case Text(_) => true
    case ReviewRows(rows) => |rows| > 0
    case LikeRows(rows) => |rows| > 0
  }

  /** `if cached_data:` after `cache.get(key)`: the key is present and its value truthy. */
  predicate Hit(entries: map<string, CacheValue>, key: string): (r: bool)
    ensures r ==> key in entries
    ensures key in entries && entries[key].Text? ==> r
    ensures key in entries && !r ==> entries[key] == ReviewRows(map[]) || entries[key] == LikeRows(map[])
  {
    key in entries && Truthy(entries[key])
  }

  /** `json.loads` of a cached value: only a JSON text decodes. */
  function JsonLoads(v: CacheValue): (r: Option<Payload>)
    ensures r.Some? <==> v.Text?
    ensures v.Text? ==> r.value == v.payload
  {
    match v
    case Text(p) => Some(p)
    case _ => None
  }

  class Cache {
    var entries: map<string, CacheValue>
    /** The timeout, in seconds, each present entry was last stored with; expiry itself is not modelled. */
    ghost var timeouts: map<string, nat>

    ghost predicate Valid()
      reads this
    {
      entries.Keys == timeouts.Keys
    }

    constructor ()
      ensures Valid() && entries == map[]
    {
      entries := map[];
      timeouts := map[];
    }

    /** `cache.get(key)`: the stored value, or nothing when the key is absent. */
    method Get(key: string) returns (v: Option<CacheValue>)
      ensures v.Some? <==> key in entries
      ensures v.Some? ==> v.value == entries[key]
    {
      if key in entries {
        v := Some(entries[key]);
      } else {
        v := None;
      }
    }

    /** `cache.set(key, value, timeout)`: replaces the entry under `key` and nothing else. */
    method Set(key: string, value: CacheValue, timeout: nat)
      requires Valid()
      modifies this
      ensures Valid()
      ensures entries == old(entries)[key := value]
      ensures timeouts == old(timeouts)[key := timeout]
    {
      entries := entries[key := value];
      timeouts := timeouts[key := timeout];
    }

    /** `cache.delete(key)`: removes the entry under `key`, if any, and nothing else. */
    method Delete(key: string)
      requires Valid()
      modifies this
      ensures Valid()
      ensures entries == old(entries) - {key}
      ensures timeouts == old(timeouts) - {key}
    {
      entries := entries - {key};
      timeouts := timeouts - {key};
    }
  }
}
