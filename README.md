# Temporary links of the imaginarium image-hosting API, in Dafny

This project models the temporary-link lifecycle of the imaginarium
image-hosting API (a Django REST Framework service), plus the tier and
ownership logic around it.

- **Expiry.** A link expires at `created + expires_in` seconds. It is expired
  once the clock reaches that instant. `expires_in` must lie between 300 and
  30000.
- **Token generation.** Candidates are drawn until one is neither the token of
  a stored link nor a blacklisted token.
- **Creation.** A new link gets a fresh token, the current time and the
  image's owner. It is presented under `/api/templink/<token>/`.
- **Resolution.** `GET /api/templink/<token>/` has three outcomes:
  - not found: nothing changes;
  - active: the image file is served and nothing changes;
  - expired: the token is blacklisted, the link row is deleted and the answer
    is Gone.
- **The periodic sweep.** It applies the same expiry transition to every
  expired link and counts the links it removed.
- **Ownership and tier gates.** These cover the link list and creation,
  `IsOwner`, and the owner-only image listing.
- **Image-detail representation.** Its keys depend on the owner's account
  tier.
- **Default tier.** There is a single-default constraint on account tiers, and
  `User.clean` fills a missing tier with the default.

The tables live in the class `Models.Database`:

- `images`: the image table, keyed by primary key, with a primary-key counter.
- `links`: the temporary-link table, keyed by its unique `token` column.
- `blacklist`: the token blacklist, whose `token` column is also unique.

Each ORM insert is a method whose precondition is its table's unique
constraint. So every caller (creation, resolution and the sweep) is proved
never to raise an `IntegrityError`.

`Database.Valid` is the invariant the application keeps:

- each link is stored under its own token;
- no token is both active and blacklisted;
- every link points to an existing image and carries that image's owner.

Every mutating operation preserves it. Each token is in one of three states:

- `Unissued`;
- `Active`: a link row exists;
- `Reclaimed`: blacklisted, with no link row.

Every modelled operation moves a token at most one step forward
(`Unissued → Active → Reclaimed`). Along any run of the modelled operations,
a reclaimed token stays reclaimed. Deleting an image or a user is not
modelled; it does not keep these guarantees (see "Left out").

Time is a whole number of seconds passed as `now`. Each modelled call reads
the clock once, so the sweep judges every link at the same instant. The
randomness of `token_urlsafe` is a stream of candidates given by the caller.
Absolute URLs and thumbnails are symbolic values that name what they point to.

Files:

- `wrappers.dfy`: `Option` and `Result`.
- `models.dfy`: entities, expiry, tiers, `User.clean`, the token states and
  the tables.
- `utils.dfy`: `file_name_generator` and `generate_token`.
- `formatting.dfy`: decimal rendering of an `int`, used by the
  `thumbnail-<h>px` keys.
- `permissions.dfy`: `IsOwner`.
- `serializers.dfy`: image and link creation, and their presentation.
- `views.dfy`: the gates, the listings, link resolution and the end-to-end
  lifecycle.
- `tasks.dfy`: the sweep.

## Model

| member | source | states |
|---|---|---|
| Models.ExpirationDate | api/models.py:104-106 | the instant the link stops serving: `created + expires_in` seconds |
| Models.HasExpired | api/models.py:108-109 | a link is expired when the clock has reached its expiration instant (`>=`) |
| Models.ExpiresInValid | api/models.py:92-97 | the two validators: `expires_in` is neither below 300 nor above 30000 |
| Models.HasExpiredIffAgeReachesLifetime | api/models.py:104-109 | a link is expired exactly when `now - created >= expires_in`: the expiration instant is `created + expires_in` and the comparison is `>=` |
| Models.ExpiryBoundary | api/models.py:108-109 | a link is already expired at its expiration instant, and not one second before |
| Models.HasExpiredMonotone | api/models.py:108-109 | once expired at some instant, a link is expired at every later instant |
| Models.ExpiresInBoundaries | api/models.py:92-97 | the validators accept 300 and 30000 and reject 299 and 30001 |
| Models.ValidLifetimeWindow | api/models.py:92-109 | a link with a valid lifetime is active for its first 300 seconds and expired from 30000 seconds on |
| Models.DefaultTiers | api/models.py:33-35 | the rows the default lookup filters are exactly the tiers flagged as default |
| Models.GetDefault | api/models.py:33-35 | a found tier is a stored default tier; the lookup fails with DoesNotExist exactly when no tier is the default |
| Models.SingleDefaultLookup | api/models.py:33-45 | under the `unique_default` constraint the lookup never finds several rows, and it succeeds when a default tier exists |
| Models.AddTier | api/models.py:20-45 | inserting a tier fails exactly on a duplicate name or a second default; on success the row is appended and the single-default constraint still holds |
| Models.User.Clean | api/models.py:61-63 | a tier that is already set is left unchanged; a missing tier becomes the default tier, or the lookup error is raised; with exactly one default tier the user always ends up with a tier |
| Models.ReclaimedIsTerminal | api/views.py:125-134 | along any run of the modelled operations (each moves a token at most one step), a reclaimed token stays reclaimed |
| Models.IssuedNeverUnissued | api/views.py:125-134 | along any such run, an issued token never becomes unissued again, so the generator cannot reissue it; image and user deletion are outside such runs |
| Models.Database.InsertLink | api/models.py:84-85 | a link row is added under its token, which must not be the token of a stored link (unique column) |
| Models.Database.DeleteLink | api/views.py:133 | the link row of the token is removed and nothing else |
| Models.Database.InsertBlacklistEntry | api/models.py:115-116 | the token is added to the blacklist, which must not already hold it (unique column) |
| Models.Database.InsertImage | api/serializers.py:89-92 | the new image gets a fresh primary key, and the tables stay consistent |
| Utils.FileNameGenerator | api/utils.py:4-9 | the name `file_name_generator` returns is the random prefix followed by the uploaded name, so it ends with that name |
| Utils.GenerateToken | api/utils.py:12-26 | the returned token is neither active nor blacklisted; it is the first candidate that is neither, and every candidate before it collided with one of the tables; the tables are only read |
| Formatting.IntToStringRoundTrip | api/serializers.py:131 | the decimal rendering of a height reads back as that height |
| Formatting.IntToStringInjective | api/serializers.py:131 | distinct heights render differently |
| Permissions.HasObjectPermission | api/permissions.py:13-16 | `IsOwner`: the object is the requesting user, or its `owner` attribute (absent counts as none) is the requesting user |
| Permissions.GrantsSelf | api/permissions.py:13-16 | a user may access their own account |
| Permissions.GrantsOwner | api/permissions.py:13-16 | a user may access any object whose `owner` is that user |
| Permissions.DeniesOthers | api/permissions.py:13-16 | a user who is neither the object nor its owner is denied |
| Permissions.DeniesAnonymous | api/permissions.py:13-16 | the anonymous user is denied every object |
| Permissions.WithoutOwnerOnlyIdentity | api/permissions.py:13-16 | for an object without an `owner` attribute, access holds exactly when the object is the requesting user |
| Serializers.CreateImage | api/serializers.py:77-94 | an anonymous upload is refused and changes no table and not the key counter; otherwise a new image with the next primary key, the name `file_name_generator` returns and the requester as owner is stored, the counter advances, and nothing else changes |
| Serializers.ImageDetailCreate | api/serializers.py:144-148 | upload through the detail serializer is always refused |
| Serializers.ThumbKey | api/serializers.py:131 | the key `thumbnail-<h>px`, with the height in decimal |
| Serializers.ThumbKeyNotReserved | api/serializers.py:131 | a `thumbnail-<h>px` key is never `pk`, `image` or `templink` |
| Serializers.ThumbKeyInjective | api/serializers.py:131 | distinct heights give distinct thumbnail keys |
| Serializers.WithThumbnailsKeys | api/serializers.py:125-132 | the thumbnail loop adds exactly one key per height to the keys already present |
| Serializers.WithThumbnailsValue | api/serializers.py:125-132 | after the loop, each height's key holds the thumbnail of that height, even when a height is repeated |
| Serializers.WithThumbnailsKeeps | api/serializers.py:125-132 | the loop keeps every entry whose key is not a thumbnail key |
| Serializers.DetailEntriesContents | api/serializers.py:111-142 | the representation's keys are `pk`, `image` iff the tier shows the original, one thumbnail key per height and `templink` iff the tier can generate links, each with its value |
| Serializers.ImageDetailRepresentation | api/serializers.py:111-142 | the in-place construction of the representation produces exactly those keys and values; an owner without a tier gives no representation |
| Serializers.CreateTempLink | api/serializers.py:175-194 | a missing image is an error that changes nothing; otherwise a link to that image is stored, carrying the image's owner, the current time and a fresh candidate token, and each token moves at most one step |
| Serializers.LinkPath | api/serializers.py:205-207 | the path is `/api/templink/`, the token, then `/` |
| Serializers.LinkPathInjective | api/serializers.py:205-207 | distinct tokens have distinct paths |
| Serializers.TempLinkRepresentation | api/serializers.py:196-208 | a link is presented with the absolute form of its path instead of its token, plus its image, creation time and lifetime |
| Serializers.TempLinkRepresentationIdentifiesToken | api/serializers.py:196-208 | two presented links with the same URL carry the same token |
| Views.OwnedImages | api/views.py:61-67 | the image listing holds exactly the requester's own images, unchanged |
| Views.AnonymousSeesNoImages | api/views.py:61-67 | the anonymous user sees no image |
| Views.CanCreateTempLinks | api/views.py:91-94 | the tier permission the view names: the requester has a tier and it can generate temporary links |
| Views.CheckPermissions | api/views.py:91-109 | a missing image is not found; access is allowed exactly for the authenticated owner whose tier can generate links; everything else is denied |
| Views.NonOwnerDenied | api/views.py:101-108 | a requester who is not the owner of an existing image is denied, whatever their tier |
| Views.LinksOfImage | api/views.py:111-114 | the link query selects exactly the links of the requested image |
| Views.ListTempLinks | api/views.py:96-114 | listing answers 404 for a missing image, 403 when denied, and otherwise presents exactly the links of that image |
| Views.PostTempLink | api/views.py:85-114 | creation answers 404, 403 or 400 (lifetime outside the validators) without changing anything; otherwise it stores a link with a fresh token, the requester as owner and the given lifetime, and presents it |
| Views.Resolve | api/views.py:123-138 | an unknown token is not found and changes nothing; an expired link is blacklisted and deleted and answers Gone; an active link serves its image file and changes nothing; each token moves at most one step |
| Views.ResolveTwice | api/views.py:123-138 | after Gone the same token is not found; a not-found token stays not found; an active link serves the same file again unless it expired in between, and always does at the same instant |
| Views.LinkLifecycle | api/views.py:123-138 | a link created with the shortest lifetime serves its image at once, answers Gone 300 seconds later, and is then not found with its token blacklisted |
| Tasks.SweepLeavesOnlyActive | imaginarium/tasks.py:14-18 | after a sweep no remaining link is expired, and every unexpired link is kept unchanged |
| Tasks.SweepAgainFindsNothing | imaginarium/tasks.py:14-19 | a second sweep at the same instant finds no expired link |
| Tasks.SweepPartitionsLinks | imaginarium/tasks.py:13-19 | each link is either kept or reclaimed, and the kept and reclaimed counts add up to the number of links |
| Tasks.RemoveExpiredTempLinkTokens | imaginarium/tasks.py:9-21 | the sweep keeps exactly the unexpired links, grows the blacklist by exactly the expired tokens, counts them, leaves the images alone and keeps the tables consistent; exactly the expired tokens become reclaimed and every other token keeps its state |
| Tasks.ReclaimExpired | imaginarium/tasks.py:13-19 | the loop over all links deletes exactly the expired ones, blacklists exactly their tokens, and counts them |
| Tasks.ReclaimIfExpired | imaginarium/tasks.py:15-18 | one iteration blacklists and deletes the link when it has expired, and changes nothing otherwise |
| Tasks.VisitStep | imaginarium/tasks.py:14-19 | visiting one more link adds its token to the reclaimed set exactly when it has expired, and the blacklist insert cannot collide |
| Tasks.SweepKeepsConsistent | imaginarium/tasks.py:14-18 | reclaiming the expired links keeps the tables consistent |
| Tasks.SweepSteps | imaginarium/tasks.py:15-18 | a sweep moves exactly the expired active tokens to reclaimed and leaves every other token where it was, so each token moves at most one step |
| Tasks.SweepTwice | imaginarium/tasks.py:9-21 | two sweeps at the same instant: the second removes nothing |

## Left out

- `Utils.GenerateToken`: `token_urlsafe` is modelled as a finite stream of candidates, and the method requires that some candidate is fresh. The source loops without bound. This precondition stands for the termination of that loop, which randomness provides only with probability one.
- `Utils.FileNameGenerator`: the random 12-byte prefix is a parameter. Its length and alphabet are not modelled.
- File storage and serving are abstracted. `FileResponse(open(...))` becomes the stored file name. The `ImageField` upload and its extension validator are not modelled.
- `Serializers.CreateImage`: stores the name `file_name_generator` returns unchanged. In the program the storage backend may still rewrite that name before saving: it cleans it (spaces become `_`, other characters outside letters, digits, `-`, `_` and `.` are dropped), adds a random suffix when the name is taken, and shortens it to the field's `max_length`. None of that is modelled.
- Thumbnails are symbolic `ThumbnailUrl(file, height)` values. So are the other absolute URLs (`OriginalUrl`, `TempLinkListUrl`). `get_thumbnail`, `reverse` and the scheme and host added by `build_absolute_uri` are foreign calls. Only the link path `/api/templink/<token>/` is modelled as a string, prefixed by a given `origin`.
- Concurrency is not modelled. Resolution and the sweep each blacklist a token and then delete its link, as two statements with no transaction. Each call is modelled as one sequential step. Races between a request and the sweep on the same token are not covered.
- Celery scheduling and the task's logging are not modelled. The sweep returns the count that the source writes to the log.
- The management commands (`wait_for_db`, `create_admin`), the admin registration and the URL routing are not part of this model.
- The `CanCreateTempLinks` permission class is not part of this model. Its body is not in `api/permissions.py`. It is modelled as the requester's tier flag `can_generate_temp_link`.
- Deleting an image or a user is not modelled. Both detail views accept DELETE, and the deletion cascades to the link rows of that image or user without blacklisting their tokens. Such tokens go back to `Unissued`, and the generator could issue them again. So `Models.IssuedNeverUnissued` and "a reclaimed token stays reclaimed" hold only for runs of the modelled operations.
- Tasks.RemoveExpiredTempLinkTokens: the clock is read once per sweep, not once per link. The source calls `has_expired()` for each link, and each call reads the current time afresh. So in the source a link that expires part-way through a sweep may still be reclaimed by it; the model judges every link at the sweep's single instant.
- The link row's own primary key and the `pk` field of its presentation are not modelled. Links are identified by their unique token.
- The `max_length` of the token columns is not modelled, and neither are the remaining fields of `User` and `AccountTier`.
- DRF plumbing is not modelled: serializer field handling, request and response classes, and the exception flow of `get_object_or_404`. Every refusal of the link-list gate is the single 403 outcome. The distinction DRF makes for an unauthenticated requester is not modelled.
- `Serializers.CreateTempLink`: a missing image is returned as an error value. The source raises `DoesNotExist` instead. The view checks for the image before this point, so that path is unreachable from the view.

Three behaviours one might expect are absent from the code, and the model follows the code:

- Resolution never consults the blacklist. It looks up only the link table. The invariant that no token is both active and blacklisted makes that enough.
- The expiry transition runs as two separate statements, not as an atomic store operation.
- Listing the links of an image uses the same gate as creating one, so it also requires the tier flag.
