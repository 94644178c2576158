# Locations cache layer, modelled in Dafny

This project models the cache-consistency layer of the locations app of a
Django REST backend. Users browse locations, review them and like or
dislike them. Three view sets serve the data:

- `LocationViewSet` lists and retrieves locations through a shared
  key-value cache (Redis).
- `ReviewViewSet` and `LikeViewSet` are nested under a location.
- Every write deletes the cache entries that it can make stale.

The model has four parts:

- **The database** (`models.dfy`): the `Location`, `Review` and `Like`
  tables as maps keyed by primary key, with the constraints the database
  keeps. These are the foreign keys with `ON DELETE CASCADE`, the
  255-character name and `unique_together(user, location)` on likes. The
  inserts, updates and deletes are functions that return the new tables or
  the database error.
- **The serializers** (`serializers.dfy`): the comment validator, the
  one-rating-per-user validator, the like and dislike counts, and the
  rendering of a location.
- **The cache** (`caching.dfy`, `cache_keys.dfy`): a `Cache` class whose
  `entries` map the handlers change step by step. `Get`, `Set` and
  `Delete` are its only operations. The keys are the f-strings of the
  views (`locations_list`, `location_{pk}`, `location_{id}_reviews`,
  `location_{id}_likes`). Python's truthiness of a cached value is
  `Truthy`: a JSON text is always true and a row list is true only when it
  is non-empty.
- **The handlers** (`views.dfy`): `LocationViewSet`, `ReviewViewSet` and
  `LikeViewSet` are classes over a shared `Cache` and `Database`. Each
  handler method states three things exactly: its outcome, including the
  400, 404 and database-error paths; the new tables; and the new cache
  contents.

The central property is `Coherence.Coherent(entries, store)`. It holds when
`locations_list` holds the current first page and every `location_{id}`
entry holds the current rendering of location `id`. Every read and every
corrected write keeps a coherent cache coherent. Over a coherent cache,
`List` and `Retrieve` answer what the database alone would answer.
`ordering.dfy` gives the list order: most likes first, then fewest
dislikes. `scenarios.dfy` states request sequences from concrete states
and proves what each one answers from the handler contracts alone.

Four points about the code shape the model:

- The list key is `locations_list` (views.py:31, :53).
- `LocationViewSet.perform_destroy` and the review and like destroys delete
  the keys before they delete the row (views.py:60-63, :105-109, :134-138).
- The review and like reads query the database again on a hit
  (views.py:92-93, :121-122). They never serve the cached rows.
- Review and like updates delete no cache entry (see Findings).

The ordering query leaves ties to the database. The model breaks them by
ascending id, so that the list is a function of the tables.

## Model

| member | source | states |
|---|---|---|
| `CacheKeys.DecimalString` | apps/locations/views.py:41 | the text of a pk in `f"location_{pk}"` is a non-empty run of digits with no leading zero |
| `CacheKeys.ParseDecimal` | apps/locations/views.py:41 | a URL pk parses exactly when it is a non-empty run of decimal digits |
| `CacheKeys.ParseDecimalString` | apps/locations/views.py:41 | parsing the decimal text of a pk gives the pk back |
| `CacheKeys.DecimalStringInjective` | apps/locations/views.py:58 | two pks have the same decimal text only when they are equal |
| `CacheKeys.LocationKeyInjective` | apps/locations/views.py:58 | `location_{a}` and `location_{b}` are the same key exactly when a = b |
| `CacheKeys.NotALocationKey` | apps/locations/views.py:89 | `location_` followed by text that is not all digits is never a detail key |
| `CacheKeys.KeyKindsDistinct` | apps/locations/views.py:31-41 | `locations_list`, the detail keys and the `_reviews`/`_likes` keys never collide |
| `CacheKeys.LocationKeyShape` | apps/locations/views.py:41 | the detail key `f"location_{pk}"` is `location_` followed by text that parses back to the pk |
| `CacheKeys.ReviewsKeyShape` | apps/locations/views.py:89 | the review-rows key is `location_`, text that parses back to the location id, then `_reviews` |
| `CacheKeys.LikesKeyShape` | apps/locations/views.py:118 | the like-rows key is `location_`, text that parses back to the location id, then `_likes` |
| `Models.EmptyStoreValid` | apps/locations/models.py:7-28 | the empty database meets every constraint |
| `Models.ValidConstraints` | apps/locations/models.py:7-28 | in a valid database every review and like points at an existing location (lines 16, 23) and user (lines 17, 24), every name fits in 255 characters (line 8), and every like is its user's only rating of its location (lines 27-28) |
| `Models.UniqueRatingsSingleton` | apps/locations/models.py:27-28 | `unique_together(user, location)` holds exactly when every like is the only like of its user on its location |
| `Models.InsertLocation` | apps/locations/models.py:7-9 | the insert fails exactly when the name is over 255 characters; otherwise it adds one row under a fresh id and keeps every constraint |
| `Models.UpdateLocation` | apps/locations/models.py:7-9 | the update fails exactly when the name is over 255 characters; otherwise it replaces that row only |
| `Models.DeleteLocation` | apps/locations/models.py:16 | deleting a location removes exactly the reviews and likes that reference it and keeps every other row unchanged |
| `Models.DeleteUser` | apps/locations/models.py:17 | deleting a user removes exactly the reviews and likes that user wrote (line 24 for likes) |
| `Models.InsertReview` | apps/locations/models.py:15-19 | a review insert fails exactly when its location or user is missing; otherwise it adds one row |
| `Models.UpdateReviewComment` | apps/locations/models.py:19 | editing a review changes its comment only; `created_at`, location and author stay as inserted |
| `Models.DeleteReview` | apps/locations/models.py:15-19 | removes that review only and keeps every constraint |
| `Models.InsertLike` | apps/locations/models.py:22-28 | a like insert fails exactly when its location or user is missing or the user already rated the location; otherwise it adds one row |
| `Models.UpdateLikeValue` | apps/locations/models.py:22-25 | changing a like's value keeps its location and author |
| `Models.DeleteLike` | apps/locations/models.py:22-28 | removes that like only and keeps every constraint |
| `Models.AtMostOneRating` | apps/locations/models.py:27-28 | under `unique_together` a user has at most one like row per location, and exactly one once rated |
| `Serializers.ValidateComment` | apps/locations/serializers.py:13-16 | a comment is rejected with the 5-character message exactly when it is shorter than 5, so exactly 5 passes; an accepted comment is returned unchanged |
| `Serializers.ValidateLike` | apps/locations/serializers.py:27-34 | fails with "You have already rated this location." exactly when the user has a like on the URL's location; otherwise it returns the data unchanged; as a function it changes no table |
| `Serializers.ReviewsOf` | apps/locations/views.py:93-95 | the filter keeps exactly the reviews of the location, unchanged |
| `Serializers.LikesOf` | apps/locations/views.py:122-124 | the filter keeps exactly the likes of the location, unchanged |
| `Serializers.CountsPartition` | apps/locations/serializers.py:46-50 | likes_count + dislikes_count equals the number of the location's like rows |
| `Serializers.CountsPositive` | apps/locations/serializers.py:46-50 | `likes_count` is non-zero exactly when the location has a like row with `is_like` true, and `dislikes_count` exactly when it has one with `is_like` false (the same counts as the annotations at views.py:19-20) |
| `Serializers.View` | apps/locations/serializers.py:37-50 | the rendering carries the location's own fields and exactly its reviews, and its two counts add up to its like rows |
| `Serializers.ViewFrame` | apps/locations/serializers.py:37-50 | a rendering depends only on the location's row, its reviews and its likes |
| `Caching.JsonLoads` | apps/locations/views.py:35 | only a JSON text decodes, and it decodes to the payload that was encoded |
| `Caching.Truthy` | apps/locations/views.py:34 | a cached value is false exactly when it is an empty row list; a JSON text is always true |
| `Caching.Hit` | apps/locations/views.py:44 | `if cached_data:` holds only for a present key; a present JSON text always holds, and a present value fails only when it is an empty row list (the same test at lines 34, 92 and 121) |
| `Caching.Cache.constructor` | apps/locations/views.py:4 | the cache starts empty |
| `Caching.Cache.Get` | apps/locations/views.py:32 | `cache.get` returns the stored value, or nothing when the key is absent |
| `Caching.Cache.Set` | apps/locations/views.py:37 | `cache.set` replaces that key's entry and timeout and changes nothing else |
| `Caching.Cache.Delete` | apps/locations/views.py:53 | `cache.delete` removes that key and changes nothing else |
| `Ordering.RanksBeforeTransitive` | apps/locations/views.py:18-21 | the list order is transitive |
| `Ordering.FirstExists` | apps/locations/views.py:18-21 | every non-empty set of locations has a first one in the list order |
| `Ordering.RanksBeforeOrdersByCounts` | apps/locations/views.py:21 | the list order is total and antisymmetric; more likes always come first, and a location listed first has at least as many likes and, on equal likes, no more dislikes |
| `Ordering.Ranked` | apps/locations/views.py:18-21 | lists every location exactly once, ordered by likes descending, then dislikes ascending |
| `Ordering.TopIds` | core/settings.py:163-164 | the first page holds the first 20 of the selected ids in list order, or all of them when there are fewer: every selected id left off ranks after every id on the page |
| `Ordering.Page` | apps/locations/views.py:18-21 | the page reports the total count and renders at most 20 selected locations as the serializer does |
| `Ordering.PageOrdered` | apps/locations/views.py:18-21 | the page lists distinct locations, most liked first, then least disliked; when everything fits on one page, every location is on it |
| `Ordering.PageHoldsTop` | apps/locations/views.py:18-21 | the first page is the head of the ordering: every selected location left off it has no more likes than any location on it, and no fewer dislikes than one on it with as many likes |
| `Coherence.CoherentAfterDelete` | apps/locations/views.py:53 | deleting entries never makes the cache stale |
| `Coherence.CoherentAfterListFill` | apps/locations/views.py:36-37 | storing the current page under `locations_list` keeps the cache coherent |
| `Coherence.CoherentAfterDetailFill` | apps/locations/views.py:47-48 | storing the current rendering under `location_{id}` keeps the cache coherent |
| `Coherence.CoherentAfterAliasFill` | apps/locations/views.py:41-48 | storing a rendering under the URL's spelling of the pk keeps every canonical entry coherent |
| `Coherence.CoherentAfterRowsFill` | apps/locations/views.py:96 | storing review or like rows leaves every served entry as it was (line 125 for likes) |
| `Coherence.CoherentAfterWrite` | apps/locations/views.py:51-63 | a write keeps the cache coherent once the list entry and the entries of every changed location are gone |
| `Coherence.CoherentAfterLocationInvalidation` | apps/locations/views.py:99-103 | a review or like write that changes only its location's rendering keeps a coherent cache coherent once that location's three keys are deleted |
| `Coherence.InsertLocationKeepsViews` | apps/locations/views.py:51-53 | a new location changes no existing rendering, so deleting `locations_list` is enough |
| `Coherence.UpdateLocationKeepsViews` | apps/locations/views.py:55-58 | updating a location changes only that location's rendering |
| `Coherence.DeleteLocationKeepsViews` | apps/locations/views.py:60-63 | deleting a location with its cascade changes no other location's rendering |
| `Coherence.InsertReviewKeepsViews` | apps/locations/views.py:99-103 | a new review changes only its location's rendering |
| `Coherence.UpdateReviewKeepsViews` | apps/locations/views.py:83-85 | editing a review changes only its location's rendering |
| `Coherence.DeleteReviewKeepsViews` | apps/locations/views.py:105-109 | deleting a review changes only its location's rendering |
| `Coherence.InsertLikeKeepsViews` | apps/locations/views.py:128-132 | a new like changes only its location's rendering |
| `Coherence.UpdateLikeKeepsViews` | apps/locations/views.py:112-114 | flipping a like changes only its location's rendering |
| `Coherence.DeleteLikeKeepsViews` | apps/locations/views.py:134-138 | deleting a like changes only its location's rendering |
| `Views.FreshDetail` | apps/locations/views.py:47 | a retrieve that bypasses the cache answers the location's rendering exactly when the pk parses and names an existing location, and 404 otherwise |
| `Views.Decode` | apps/locations/views.py:35 | a cached JSON text answers the payload it encodes; a row list fails to decode (the same at line 45) |
| `Views.AfterRowsRead` | apps/locations/views.py:90-96 | a rows read leaves the cache unchanged on a hit, and changes at most its own key on a miss |
| `Views.DeleteAfterRowsRead` | apps/locations/views.py:105-109 | deleting the read's key afterwards leaves the cache as if the read had not happened |
| `Views.InvalidateLocation` | apps/locations/views.py:101-103 | deletes exactly the location's detail key, its rows key and `locations_list`, and nothing else (the same at lines 106-108, 130-132 and 135-137) |
| `Views.LocationInvalidationKeepsRowEntries` | apps/locations/views.py:60-63 | a location write never removes or alters a `_reviews` or `_likes` entry |
| `Views.Database.constructor` | apps/locations/models.py:7-28 | the connection starts on the given tables |
| `Views.LocationViewSet.constructor` | apps/locations/views.py:17 | the view set uses the given cache and database |
| `Views.LocationViewSet.List` | apps/locations/views.py:27-38 | with query parameters the cache is neither read nor written and the filtered page is returned; otherwise a truthy `locations_list` entry is served decoded with the cache unchanged, and a miss stores the first page with timeout 900 and returns it; over a coherent cache the unfiltered answer is the current page |
| `Views.LocationViewSet.Retrieve` | apps/locations/views.py:40-49 | keyed by the parsed pk: a hit is served decoded; a miss returns 404 with the cache unchanged, or the rendering, which it stores under the key with timeout 900; over a coherent cache the answer is always the current rendering |
| `Views.LocationViewSet.RetrieveAsWritten` | apps/locations/views.py:40-49 | keyed by `location_` plus the URL text: hit and miss as above; after a miss the key holds the returned payload; canonical entries stay coherent |
| `Views.LocationViewSet.Create` | apps/locations/views.py:51-53 | a name over 255 characters is refused with no change; otherwise the row is inserted and exactly `locations_list` is removed |
| `Views.LocationViewSet.Update` | apps/locations/views.py:55-58 | a missing pk gives 404 and a long name a 400, both with no change; otherwise the row is updated and exactly `locations_list` and `location_{pk}` are removed |
| `Views.LocationViewSet.Destroy` | apps/locations/views.py:60-63 | a missing pk gives 404; otherwise exactly `locations_list` and `location_{pk}` are removed and the row is deleted with its reviews and likes |
| `Views.ReviewViewSet.constructor` | apps/locations/views.py:83 | the view set uses the given cache and database |
| `Views.ReviewViewSet.GetQueryset` | apps/locations/views.py:87-97 | always returns the location's reviews from the database whatever the cache holds; a miss, including an empty cached list, stores them under `location_{id}_reviews` with timeout 900 |
| `Views.ReviewViewSet.Create` | apps/locations/views.py:99-103 | a comment under 5 characters is refused with no change; a missing location or user fails in the database with no change; otherwise the review is stored with the URL's location and the requesting user, and exactly `location_{id}`, `location_{id}_reviews` and `locations_list` are removed |
| `Views.ReviewViewSet.UpdateAsWritten` | apps/locations/views.py:83-109 | the inherited update: 404 for a review outside the location, 400 for a short comment, otherwise the comment is saved; no entry is removed |
| `Views.ReviewViewSet.Update` | apps/locations/views.py:99-103 | as above, but a successful edit removes exactly the three keys a review create removes, and keeps a coherent cache coherent |
| `Views.ReviewViewSet.Destroy` | apps/locations/views.py:105-109 | 404 for a review outside the location; otherwise exactly the three keys are removed and the review is deleted |
| `Views.LikeViewSet.constructor` | apps/locations/views.py:112 | the view set uses the given cache and database |
| `Views.LikeViewSet.GetQueryset` | apps/locations/views.py:116-126 | always returns the location's likes from the database whatever the cache holds; a miss, including an empty cached list, stores them under `location_{id}_likes` with timeout 900 |
| `Views.LikeViewSet.Create` | apps/locations/views.py:128-132 | a second rating by the same user is refused with "already rated" and no change; a missing location fails in the database with no change; otherwise the like is stored with the URL's location and the requesting user, and exactly `location_{id}`, `location_{id}_likes` and `locations_list` are removed |
| `Views.LikeViewSet.UpdateAsWritten` | apps/locations/views.py:112-138 | the inherited update: 404 for a like outside the location, "already rated" whenever the requesting user has a like there, otherwise the value is saved; no entry is removed |
| `Views.LikeViewSet.Update` | apps/locations/views.py:128-132 | as above, but a successful change removes exactly the three keys a like create removes, and keeps a coherent cache coherent |
| `Views.LikeViewSet.Destroy` | apps/locations/views.py:134-138 | 404 for a like outside the location; otherwise exactly the three keys are removed and the like is deleted |
| `Scenarios.CafeStore` | apps/locations/models.py:7-9 | the one-location starting state meets every constraint |
| `Scenarios.ReviewedCafeStore` | apps/locations/models.py:15-28 | the starting state with one review and one like meets every constraint |
| `Scenarios.ParsesAsSeven` | apps/locations/views.py:41 | `7` and `07` both name location 7, whose key is `location_7` |
| `Scenarios.AliasedRetrieveServedStale` | apps/locations/views.py:40-58 | after GET `/locations/07/` and a rename of location 7, GET `/locations/07/` still answers the old name while `/locations/7/` answers the new one |
| `Scenarios.AliasedRetrieveServedFresh` | apps/locations/views.py:40-58 | with the corrected retrieve, the same requests answer the new name |
| `Scenarios.RenameIsVisible` | apps/locations/views.py:40-58 | a location is created as "Cafe A", retrieved and renamed "Cafe B"; the next retrieve answers "Cafe B" |
| `Scenarios.ReviewEditServedStale` | apps/locations/views.py:83-109 | after a retrieve, editing the location's review through the inherited update leaves the old comment served |
| `Scenarios.ReviewEditServedFresh` | apps/locations/views.py:99-103 | with the corrected review update, the next retrieve shows the edited comment |
| `Scenarios.LikeFlipServedStale` | apps/locations/views.py:112-138 | after a retrieve, another user's flip of a like through the inherited update leaves the old counts served |
| `Scenarios.SecondRatingRefused` | apps/locations/serializers.py:27-34 | a second rating by the same user is refused with "already rated" and exactly the first like remains |

## Findings

| source | as written | input that shows it | evidently intended | confidence | as-written member | corrected member |
|---|---|---|---|---|---|---|
| apps/locations/views.py:41 | `retrieve` keys its entry by the pk text of the URL. Update and destroy delete `location_{location.pk}`, the integer's spelling. | GET `/locations/07/` stores `location_07`. PUT `/locations/7/` deletes `location_7` only. GET `/locations/07/` then serves the old rendering for up to 900 s. | Key the entry by the parsed pk, so that every write deletes the entry every spelling reads. | medium: relies on the router's default lookup pattern and on the ORM casting `"07"` to 7; not executed | `Views.LocationViewSet.RetrieveAsWritten`, shown by `Scenarios.AliasedRetrieveServedStale` | `Views.LocationViewSet.Retrieve` |
| apps/locations/views.py:83-109 | `ReviewViewSet` keeps the inherited `perform_update`, so editing a review deletes no entry. Yet `location_{id}` and `locations_list` embed the location's reviews. | Retrieve location 7, whose review says "Great coffee". PUT the review with "Closed on Mondays". Retrieve location 7 again: it still shows "Great coffee". | Delete `location_{id}`, `location_{id}_reviews` and `locations_list`, as create and destroy do. | high; not executed | `Views.ReviewViewSet.UpdateAsWritten`, shown by `Scenarios.ReviewEditServedStale` | `Views.ReviewViewSet.Update` |
| apps/locations/views.py:112-138 | `LikeViewSet` keeps the inherited `perform_update`, so changing a like deletes no entry. Yet the cached renderings carry the like counts. | Retrieve location 7 with one like. A user who has not rated location 7 sets that like to a dislike. Retrieve location 7 again: it still shows one like and no dislike. | Delete `location_{id}`, `location_{id}_likes` and `locations_list`, as create and destroy do. | medium: only a user without a rating there can update a like, because the validator refuses the owner; not executed | `Views.LikeViewSet.UpdateAsWritten`, shown by `Scenarios.LikeFlipServedStale` | `Views.LikeViewSet.Update` |

## Left out

- The `export` action (apps/locations/views.py:65-80) is left out. It is CSV and JSON formatting done by pandas and the HTTP response classes.
- `json.dumps` and `json.loads` are modelled as a lossless round trip on an abstract payload.
- Cache expiry is not modelled. The model keeps the timeout each entry was stored with (900 s) as ghost data, but no clock removes entries.
- Cache transport failures are not modelled. The model's cache never fails.
- `Views.LocationViewSet.List`: `DjangoFilterBackend` and `SearchFilter` belong to a library. The caller supplies the set of ids they keep, and a flag says whether the request had query parameters.
- `Views.LocationViewSet.List`: pagination is modelled as the first page (20 renderings and the total count). The `next` and `previous` links are left out. A request for another page carries a query parameter, so it takes the uncached path.
- Ties in the list order are broken by ascending id. The query leaves them to the database.
- Authentication, sessions, permissions and URL routing are framework wiring. The requesting user is a parameter. A user id that is not in the users table makes the insert fail, and the handlers then return `StoreFailure(IntegrityError)`.
- The users app (registration and password reset) is left out. It consists of token, base64 and e-mail library calls.
- Concurrency is left out. Two races in the source are not captured: the check-then-insert race of the like validator, whose unique constraint is kept as the store-level backstop in `Models.InsertLike`; and a read that refills an entry between a destroy's deletions and its row delete.
- DRF's own field checks are not modelled: blank values, whitespace trimming, required fields, and partial (PATCH) updates. Each update takes every writable field.
- `CacheKeys.ParseDecimal` accepts only ASCII digits. Python's `int()`, which the ORM applies to the URL pk, also accepts a sign, surrounding blanks, underscores between digits and non-ASCII decimal digits (`int("٧") == 7`). The model treats every such spelling as not found. This gap governs `Views.FreshDetail` and `Views.LocationViewSet.Retrieve`, which answer 404 where the source answers the location. It also governs `Views.LocationViewSet.RetrieveAsWritten`, where each such spelling would only add another alias key.
- The nested review and like handlers take the location pk as a number. A non-canonical spelling in a nested URL would key the `_reviews` or `_likes` entry differently. No view ever serves those entries.
- The inherited retrieve of one review or one like is not modelled as its own method. It goes through `get_queryset`, whose effect is `GetQueryset`.
- A user's deletion is modelled as `Models.DeleteUser` with its cascade. No view deletes users, and that deletion removes no cache entry.
- A rendered review carries the author's user id. The source renders the username.
- A location's reviews are rendered as a map keyed by review id. The order of the nested list is left to the database.
