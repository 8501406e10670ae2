# Tube controllers — a Dafny model

Tube is a video-sharing back end: an Express application over MongoDB (through
Mongoose) that stores its media on an asset store (Cloudinary). This project
models its six controllers:

- **videos**: listing, publishing, the detail view, update, delete and the
  publish toggle;
- **playlists**: create, the two read views, adding and removing a video,
  delete;
- **comments**: the paginated listing, add, update and delete;
- **subscriptions**: the toggle and the two listings;
- **likes**: the two toggles and the liked-videos listing;
- **users**: registration, login and logout.

Each handler is modelled over an entity store: the class `Storage.Store`, with
one table (`map<Id, Record>`) per collection, a log of the asset-store calls,
and the counter that hands out new identifiers. Its `Valid()` invariant is part
of every handler's contract. It says:

- identifiers are below the counter;
- likes are unique per (target, likedBy);
- subscriptions are unique per (subscriber, channel);
- playlists list each video at most once.

A handler that changes the store is a method. It takes the acting user (an
`Option<Id>` where the route does not authenticate), ends in `Ok(status, data)`
or `Err(status)`, and states its whole new state with `db.State()`. The
aggregation pipelines behind the read handlers are pure functions over the
tables:

- `$match` is a filter;
- `$lookup` plus `$unwind` is a join that drops unmatched documents;
- `$size` is a count;
- `$in` is a membership test;
- `$sort` is a sort under MongoDB's cross-type comparison order. MongoDB
  promises no order among ties; the model keeps them in input order.

Each entity comes in as a datatype, and a like's target is a two-case variant,
so every like names exactly one video or one comment.

Request identifiers are `RawId`: either `ObjectId(id)` or `Malformed(text)`.
`isValidObjectId` accepts exactly the first. A few handlers build an ObjectId
from text they never validated, or call `findById` on it. There a malformed
identifier makes the ODM throw, and the asynchronous handler wrapper answers
500. The model writes that case out as `Err(500)`.

Behaviour the code has as written, and the model keeps:

- The publish, update, delete and status-toggle guards on a video answer 400,
  not 403. With no acting user they also answer 400. A video without an owner
  makes `toString` throw (500).
- getVideoById checks only that `videoId` is non-empty. Its `!video` test can
  never fire, since an aggregate result is always an array: an unknown but
  well-formed id gives 200 with an empty payload, and a malformed one gives 500.
  The response is computed before `views` is incremented. It has no owner
  fields, because the final `$project` leaves them out. The watch-history
  update is addressed to the videos table with the user's id, so no user record
  changes.
- updateComment's check after the update tests the handler function, not its
  result, so it has no 500 path.
- Registration checks for an existing user with the username as given, but
  stores it lower-cased. `CaseVariantPassesCheck` shows that "Alice" passes the
  check while "alice" is registered. The record handed to `User.create` then
  has the username "alice" too. A unique index on `username` would make that
  creation fail, but the model has no indexes.
- Users keep their avatar as a URL string, as registration stores it. The
  listings project `"avatar.url"`, a sub-field of that string, which does not
  exist. So no listed owner, subscriber or channel carries an avatar.
- getPlaylistById's projection names the sub-fields of `owner`, which holds an
  identifier, so the response shows no owner. Its videos are joined in the
  videos table's order, not the playlist's.
- A toggle of a like or a subscription does not check that the video, comment
  or channel exists. Subscribing to oneself is accepted.
- Deleting a video or a comment leaves the likes, comments and playlist entries
  that refer to it in place.

## Model

| member | source | states |
|---|---|---|
| Entities.LocalPath | src/controllers/video.controller.js:95-96 | `req.files?.f[0]?.path`: undefined without files or with an empty list; a files object lacking the field throws (500); otherwise the first path |
| JsString.TrimEmptyIffBlank | src/controllers/user.controller.js:41 | `s.trim() === ""` holds exactly when every character of `s` is ECMAScript whitespace, in both directions |
| JsString.ToLowerCase | src/controllers/user.controller.js:87 | the lower-cased username has the input's length, and each character is the lower-case form of the input's character at the same position |
| JsString.ToLowerCaseNormalises | src/controllers/user.controller.js:87 | a lower-cased string holds no upper-case ASCII letter, and lower-casing it again changes nothing |
| Pagination.PageNumber | src/controllers/video.controller.js:10 | an omitted `page` is page 1; a given one is used as parsed |
| Pagination.PageLimit | src/controllers/video.controller.js:10 | an omitted `limit` is 10; a given one is used as parsed |
| Pagination.Paginate | src/controllers/video.controller.js:74-80 | the page reports the whole result's size, the page number and the limit; it holds at most `limit` documents, and they are the contiguous run of the result starting after the earlier pages |
| Pagination.PageDocsFromResult | src/controllers/comment.controller.js:84 | every document on a page is a document of the paginated result |
| Sorting.Sort | src/controllers/video.controller.js:36-48 | the `$sort` stage's output is a permutation of its input (same multiset) and is ordered by the key in the requested direction |
| Sorting.SortKeepsMembers | src/controllers/like.controller.js:41-45 | sorting keeps exactly the input's documents, and a duplicate-free input stays duplicate-free |
| Sorting.KeyLeTotal | src/controllers/video.controller.js:36-48 | any two sort values are comparable under BSON order |
| Sorting.KeyLeTransitive | src/controllers/video.controller.js:36-48 | BSON order on sort values is transitive (with totality: a total preorder) |
| Base.Without | src/controllers/playlist.controller.js:230-240 | `$pull` keeps exactly the other elements, keeps a duplicate-free list duplicate-free, and leaves a list without the element unchanged |
| VideoController.VideoGuard | src/controllers/video.controller.js:292-294 | the guard passes exactly when the video has an owner and the acting user is that owner; an ownerless video fails with 500, any other mismatch with 400 |
| VideoController.ListingOrder | src/controllers/video.controller.js:36-48 | with both `sortBy` and `sortType` present, the sort is on `sortBy`, ascending iff `sortType` is "asc"; otherwise `createdAt` descending |
| VideoController.OwnerFilter | src/controllers/video.controller.js:14-24 | a present but invalid `userId` is 400; a valid one filters on that owner; an absent or empty one filters on nothing |
| VideoController.MatchedIds | src/controllers/video.controller.js:19-30 | the two `$match` stages keep exactly the published videos of the requested owner (if any), each once |
| VideoController.ListingIds | src/controllers/video.controller.js:26-70 | the listing holds exactly the published videos of the requested owner whose owner user exists, each once, ordered by the requested sort |
| VideoController.FilterKeepsOrder | src/controllers/video.controller.js:67-69 | dropping documents at the `$unwind` keeps a sorted sequence sorted |
| VideoController.ListAll | src/controllers/video.controller.js:50-66 | each listed video carries its stored record and its owner's `_id` and `username` (no avatar, see above), in listing order |
| VideoController.GetAllVideos | src/controllers/video.controller.js:9-85 | 400 exactly for a present invalid `userId`; otherwise 200 with a page whose `totalDocs` is the size of the listing |
| VideoController.ListingSound | src/controllers/video.controller.js:26-70 | every listed video exists as returned, is published, has the requested owner when one is given, and has an existing owner user |
| VideoController.UnpublishedNeverListed | src/controllers/video.controller.js:26-30 | an unpublished video is never listed, whatever the filter and sort |
| VideoController.PublishVideo | src/controllers/video.controller.js:88-143 | the checks in source order (missing title or description 400, unreadable files 500, missing paths 400, failed upload 400); the two uploads are logged video first; on success the new record is published, owned by the acting user, with 0 views, and nothing else changes |
| VideoController.AnonymousNotLiked | src/controllers/video.controller.js:225-231 | without an acting user `isLiked` is false |
| VideoController.DetailAfterLikeToggle | src/controllers/video.controller.js:214-232 | after a like toggle the detail's `isLiked` flips for that user, `likeCount` moves by one the same way, and `commentCount` stays |
| VideoController.DetailAfterComment | src/controllers/video.controller.js:166-173 | a new comment on a video raises its `commentCount` by one and changes no other detail field |
| VideoController.GetVideoById | src/controllers/video.controller.js:145-272 | empty id 400, malformed id 500; otherwise 200 with the detail read before the increment (the `$first` on `owner` taken as passing the id through, see "Left out"), and that video's `views` goes up by exactly one with nothing else changed |
| VideoController.UpdateVideo | src/controllers/video.controller.js:274-333 | the checks in source order, the guard and the thumbnail path; on success title, description and thumbnail change, the upload and the old thumbnail's removal are logged in that order; every error changes nothing, except a failed thumbnail upload, which answers 500 and adds only that upload to the log; a malformed id and an owner-less video answer 500 with the store unchanged |
| VideoController.DeleteVideo | src/controllers/video.controller.js:335-364 | invalid id or missing video 400, failed guard as the guard says, with the store unchanged; by the owner the record is gone and exactly two removals are logged, video file then thumbnail |
| VideoController.FlipPublishedTwice | src/controllers/video.controller.js:383-393 | two status toggles restore the videos table |
| VideoController.TogglePublicStatus | src/controllers/video.controller.js:366-404 | invalid id or missing video 400, failed guard with the store unchanged; by the owner only that video's `isPublished` is negated and the updated record is answered |
| PlaylistController.CreatePlaylist | src/controllers/playlist.controller.js:8-30 | 400 exactly when name or description is missing or empty; otherwise 201 with a new empty playlist owned by the acting user, and only that playlist is added |
| PlaylistController.JoinedVideos | src/controllers/playlist.controller.js:39-46 | the `$lookup` on `videos` joins exactly the listed ids that name existing videos, each once, as many as there are such ids |
| PlaylistController.PlaylistVideos | src/controllers/playlist.controller.js:47-58 | each joined video is projected to its id, title, description and the two URLs of that stored video |
| PlaylistController.OwnedPlaylistIds | src/controllers/playlist.controller.js:34-38 | the `$match` on owner yields the acting user's playlists, each once, as many as the user owns |
| PlaylistController.Summarise | src/controllers/playlist.controller.js:47-58 | an entry of the user's playlists is keyed by its playlist's id |
| PlaylistController.SummaryVideos | src/controllers/playlist.controller.js:39-58 | an entry lists as many videos as its playlist lists existing videos, each an existing video the playlist lists |
| PlaylistController.Summaries | src/controllers/playlist.controller.js:33-60 | one entry per matched playlist |
| PlaylistController.SummariesAt | src/controllers/playlist.controller.js:33-60 | the i-th entry summarises the i-th matched playlist |
| PlaylistController.GetUserPlaylists | src/controllers/playlist.controller.js:32-69 | always 200, with as many entries as the acting user owns playlists |
| PlaylistController.UserPlaylistAt | src/controllers/playlist.controller.js:33-60 | the i-th entry of getUserPlaylists is the summary of the i-th playlist the acting user owns |
| PlaylistController.UserPlaylistOwned | src/controllers/playlist.controller.js:34-38 | every entry is a playlist the acting user owns, with its stored name and description |
| PlaylistController.UserPlaylistsDistinct | src/controllers/playlist.controller.js:33-60 | no playlist appears twice, so with the count every owned playlist appears exactly once |
| PlaylistController.UserPlaylistVideos | src/controllers/playlist.controller.js:39-58 | each entry carries its playlist's existing videos, each once |
| PlaylistController.DetailVideos | src/controllers/playlist.controller.js:115-128 | each projected video carries its id, title, description, the two URLs and `createdAt` of that stored video, in the joined order |
| PlaylistController.GetPlaylistById | src/controllers/playlist.controller.js:71-148 | invalid id 400, missing playlist 404; otherwise one document with the playlist's name and description whose `totalvideos` equals the number of its videos and the number of listed ids that name existing videos; its videos are the projections of exactly the joined videos, each an existing listed video, none twice |
| PlaylistController.AddVideoToPlaylist | src/controllers/playlist.controller.js:150-201 | the checks in order: invalid ids 400, missing playlist 404, missing video 404, non-owner 403, already listed 400, each with the store unchanged; otherwise the video is appended, so it is listed exactly once, and no other playlist changes |
| PlaylistController.AppendKeepsDistinct | src/controllers/playlist.controller.js:179-181 | appending an unlisted video keeps the list duplicate-free |
| PlaylistController.RemoveVideoFromPlaylist | src/controllers/playlist.controller.js:203-258 | invalid ids 400, missing playlist or video 404, non-owner 403, with the store unchanged; by the owner, the video is pulled, even if it was not listed, and nothing else changes |
| PlaylistController.DeletePlaylist | src/controllers/playlist.controller.js:260-286 | invalid id 400, missing playlist 404, non-owner 403, with the store unchanged; by the owner, the playlist is gone and nothing else changes |
| PlaylistController.RemoveUndoesAdd | src/controllers/playlist.controller.js:176-240 | pulling a video just appended to a list that did not hold it gives the list back |
| PlaylistController.RemoveIdempotent | src/controllers/playlist.controller.js:230-240 | pulling twice is pulling once |
| PlaylistController.TotalAfterAdd | src/controllers/playlist.controller.js:108-113 | adding an existing, unlisted video raises `totalvideos` by one |
| PlaylistController.TotalAfterRemove | src/controllers/playlist.controller.js:108-113 | removing a listed existing video lowers `totalvideos` by one |
| CommentController.CommentIds | src/controllers/comment.controller.js:24-28 | the `$match` keeps exactly the comments on the video, each once, as many as it has |
| CommentController.ListComments | src/controllers/comment.controller.js:29-75 | each listed comment carries its stored content and `createdAt`, the number of likes on that comment, and, when the owner exists, the owner restricted to `_id`, `fullName` and `username` |
| CommentController.FetchAllComments | src/controllers/comment.controller.js:9-89 | 400 exactly for an invalid id or a missing video; otherwise 200 with `totalDocs` the number of comments on the video, and every listed comment as the listing describes it |
| CommentController.PageDescribes | src/controllers/comment.controller.js:78-84 | what holds of every comment of the aggregate holds of every comment of the page |
| CommentController.AddComment | src/controllers/comment.controller.js:92-119 | 400 exactly for an invalid id or a missing video, with the store unchanged; otherwise a new comment on that video owned by the acting user, and only that comment is added |
| CommentController.UpdateComment | src/controllers/comment.controller.js:122-159 | invalid id or missing comment 400, non-owner 403, with the store unchanged; by the owner only `content` changes |
| CommentController.DeleteComment | src/controllers/comment.controller.js:162-188 | invalid id or missing comment 400, non-owner 403, with the store unchanged; by the owner only that comment is removed |
| CommentController.CommentsOnAfterAdd | src/controllers/comment.controller.js:106-110 | adding a comment raises its video's comment count by one and leaves every other video's count alone |
| CommentController.CommentsOnAfterDelete | src/controllers/comment.controller.js:179 | deleting a comment lowers its video's comment count by one |
| LikeController.IsLikedMeansAmongLikers | src/controllers/video.controller.js:225-231 | `isLiked` holds iff there is an acting user and that user is among the `likedBy` of the target's likes |
| LikeController.ToggleLikesFlips | src/controllers/like.controller.js:88-104 | a toggle flips whether the (target, user) like exists, leaves every other like as it was, and keeps likes unique |
| LikeController.ToggleLeavesOtherKind | src/controllers/like.controller.js:88-146 | a video-like toggle changes no comment like and a comment-like toggle no video like, in both directions |
| LikeController.ToggleLikesCount | src/controllers/like.controller.js:88-104 | a toggle moves the target's `likeCount` by exactly one: down when the like existed, up otherwise |
| LikeController.CountAfterDelete | src/controllers/like.controller.js:93-94 | deleting the user's like lowers the target's count by one |
| LikeController.CountAfterCreate | src/controllers/like.controller.js:101-104 | creating a like raises the target's count by one |
| LikeController.ToggleLikesCountElsewhere | src/controllers/like.controller.js:88-104 | a toggle leaves every other target's count unchanged |
| LikeController.LikesOnAfterDelete | src/controllers/like.controller.js:93-94 | the deletion removes exactly that like from the target's likes |
| LikeController.LikesOnOtherTarget | src/controllers/like.controller.js:88-104 | a toggle leaves the likes of every other target unchanged |
| LikeController.ToggleLikesTwice | src/controllers/like.controller.js:88-104 | two toggles of the same pair restore the recorded (target, likedBy) pairs, and the table itself when no like existed |
| LikeController.ToggleLike | src/controllers/like.controller.js:88-104 | find-then-delete-or-create: the answer says whether the like is now present, and the likes table becomes the toggled one with nothing else changed |
| LikeController.ToggleVideoLike | src/controllers/like.controller.js:82-115 | 400 for an invalid id with the store unchanged; otherwise 200 and the (video, user) like toggled, whether or not the video exists |
| LikeController.ToggleCommentLike | src/controllers/like.controller.js:117-157 | 400 for an invalid id with the store unchanged; otherwise 200 and the (comment, user) like toggled |
| LikeController.LikedVideoIds | src/controllers/like.controller.js:11-45 | exactly the acting user's likes of existing videos whose owner exists, each once, newest like first |
| LikeController.ProjectLikedVideos | src/controllers/like.controller.js:46-64 | each entry is the projection of its like's video (id, title, description, the two URLs, owner) and that owner's `_id`, `username` and `fullName`, in order |
| LikeController.LikedVideoAggregateSound | src/controllers/like.controller.js:11-65 | every listed video exists, has an existing owner whose `_id`, `username` and `fullName` it carries, and is liked by the acting user |
| LikeController.GetLikedVideos | src/controllers/like.controller.js:8-79 | always 200, with `totalDocs` the number of the acting user's likes that survive both joins |
| SubscriptionController.ToggleSubscriptionsFlips | src/controllers/subscription.controller.js:14-30 | a toggle flips whether the (subscriber, channel) subscription exists, leaves every other subscription as it was, and keeps subscriptions unique |
| SubscriptionController.ToggleSubscriptionsTwice | src/controllers/subscription.controller.js:14-34 | two toggles restore the recorded (subscriber, channel) pairs, and the table itself when none existed |
| SubscriptionController.ToggleSubscription | src/controllers/subscription.controller.js:7-35 | 400 for an invalid channel id with the store unchanged; otherwise 200 and the acting user's subscription to the channel toggled, the channel being any id, the user's own included |
| SubscriptionController.SubscriberIds | src/controllers/subscription.controller.js:45-61 | exactly the subscriptions to the channel whose subscriber user exists, each once, as many as there are |
| SubscriptionController.SubscriberSummaries | src/controllers/subscription.controller.js:51-81 | the i-th entry carries the i-th subscription's own `_id` and the `_id`, `username` and `fullName` of its subscriber, an existing user |
| SubscriptionController.ChannelSubscriberList | src/controllers/subscription.controller.js:45-82 | the i-th entry is the i-th joined subscription, so every joined subscription is listed, each once |
| SubscriptionController.GetUserChannelSubscriber | src/controllers/subscription.controller.js:38-95 | 400 exactly for an invalid channel id; otherwise 200, every entry a subscription to the channel with its existing subscriber's summary, no subscription twice, and `subscriberCount` is both the list length and the number of joined subscriptions |
| SubscriptionController.SubscriberListed | src/controllers/subscription.controller.js:45-61 | every subscription to the channel whose subscriber exists appears in getUserChannelSubscriber's list, with that subscriber |
| SubscriptionController.SubscribersListedOnce | src/controllers/subscription.controller.js:45-82 | with one subscription per (subscriber, channel), no user is listed twice as a subscriber |
| SubscriptionController.ToggleSubscriberCount | src/controllers/subscription.controller.js:14-34 | a toggle by an existing user moves the channel's `subscriberCount` by exactly one; by an id that is no user it leaves the count alone |
| SubscriptionController.SubscribersAfterDelete | src/controllers/subscription.controller.js:19-20 | deleting the subscription removes exactly it from the channel's joined subscriptions |
| SubscriptionController.SubscribersAfterCreate | src/controllers/subscription.controller.js:27-30 | creating a subscription adds it to the channel's joined subscriptions exactly when the subscriber is a user |
| SubscriptionController.ChannelIds | src/controllers/subscription.controller.js:105-121 | exactly the user's subscriptions to existing channel users, each once, as many as there are |
| SubscriptionController.ChannelSummaries | src/controllers/subscription.controller.js:111-132 | the i-th entry is the `_id`, `username` and `fullName` of the i-th subscription's channel, an existing user the subscriber is subscribed to, without the subscription's id |
| SubscriptionController.SubscribedChannelList | src/controllers/subscription.controller.js:105-133 | the i-th entry is the channel of the i-th joined subscription, so every joined subscription's channel is listed |
| SubscriptionController.GetSubscribedChannels | src/controllers/subscription.controller.js:98-146 | 400 exactly for an invalid id; otherwise 200, every entry a channel the user subscribes to, and `subscriptionCount` is both the list length and the number of joined subscriptions |
| SubscriptionController.ChannelListed | src/controllers/subscription.controller.js:105-121 | the channel of every subscription of the user to an existing channel user appears in getSubscribedChannels' list |
| SubscriptionController.ChannelsListedOnce | src/controllers/subscription.controller.js:105-133 | with one subscription per (subscriber, channel), no channel is listed twice |
| UserController.Blank | src/controllers/user.controller.js:40-44 | a field is blank exactly when it is present and all whitespace; an absent field is not blank |
| UserController.CoverPath | src/controllers/user.controller.js:60-67 | the cover path is the first cover file's path when there is one, and undefined otherwise, never throwing |
| UserController.RegisterUser | src/controllers/user.controller.js:25-104 | the checks in source order: blank field 400, an existing email or as-given username 409, unreadable files 500, no avatar path 400, each with the store unchanged; both uploads logged, a failed avatar 400, an incomplete body 500 (an absent username throws; the other fields are taken as required by the schema, see "Left out"); otherwise 201 with the new user's public view and only that user added |
| UserController.UploadAndCreate | src/controllers/user.controller.js:73-97 | two uploads logged, avatar first; failed avatar 400; otherwise the user is created with the lower-cased username and `coverImage` "" when no cover was uploaded |
| UserController.RegisteredUsernameLowerCase | src/controllers/user.controller.js:87 | the stored username has the input's length and no upper-case ASCII letter |
| UserController.CaseVariantPassesCheck | src/controllers/user.controller.js:47-53 | with "alice" registered, "Alice" with another email passes the blank and existence checks, and is stored under the same username |
| UserController.Visible | src/controllers/user.controller.js:41 | a field whose first character is not whitespace is not blank |
| UserController.FindUser | src/controllers/user.controller.js:124-126 | no result exactly when no user has the email or the username; otherwise a matching user, the first in table order |
| UserController.WithToken | src/controllers/user.controller.js:13-14 | setting a refresh token changes that user's token and nothing else of the users table |
| UserController.LoginUser | src/controllers/user.controller.js:106-169 | no request data 500; missing username or email 400; no matching user 404; wrong password 401, each with the store unchanged; otherwise the new refresh token is stored on that user alone and both tokens are answered with the user's public view |
| UserController.LogoutUser | src/controllers/user.controller.js:171-194 | always 200; the acting user's refresh token is cleared (the undefined value read as null, see "Left out") and nothing else changes |
| UserController.LogoutUndoesLogin | src/controllers/user.controller.js:172-182 | logout after login leaves no refresh token, and leaves the table as logout alone would |
| UserController.PublicHidesSecrets | src/controllers/user.controller.js:91-93 | the public view does not depend on the password or the refresh token |

## Left out

- Routing and authentication middleware are not part of this model. Routes
  that skip authentication are the reason the acting user is `Option<Id>` in
  the video handlers.
- The ODM, MongoDB and `isValidObjectId` are abstract. An ObjectId is a
  natural number. Validity is the `ObjectId` case of `RawId`. The text-to-id
  casting of queries is assumed to work.
- The asset store is not called: the model records each upload and removal
  in the store's log. An upload's answer is a function parameter.
- Password hashing and comparison are left out. The comparison is a function
  parameter. Token generation is left out too: the two tokens are parameters.
  The clock is a parameter (`now`).
- The internals of `aggregatePaginate` are not modelled: its answer is taken to
  be the plain slice at the requested page. fetchAllComments and getLikedVideos
  hand it the already awaited result array rather than an aggregate; the model
  assumes the library pages that array as it would the aggregate's result.
  What it does with a non-positive or NaN `page` or `limit` is unknown, so the
  listings require a page and a limit of at least 1.
- The natural order of a collection scan is taken to be ascending identifier.
  The order of a `$lookup` is taken to be the joined collection's scan order.
- Schema validation, unique indexes and `timestamps` are not modelled beyond
  `createdAt`. So `updatedAt` is not produced, and a comment's `content` is not
  validated. The one exception is registration's required fields (next line).
- UserController.RegisterUser: an absent `username` answers 500 because
  `username.toLowerCase()` throws. The User schema is not part of this model.
  The model takes `fullName`, `email` and `password` to be required fields of
  it, so an absent one also makes `User.create` fail with 500. Without such a
  schema, the user would be created without that field.
- UserController.LogoutUser: the update is `$set: {refreshToken: undefined}`.
  The model reads the undefined value as null, so the token is cleared. That is
  what Mongoose 5 does. Mongoose 6 and later drop undefined keys from an
  update, so the `$set` is empty and the stored token stays. LogoutUndoesLogin
  rests on the same reading.
- Entities.Video: `duration` is an integer in the model, while the asset store
  reports it in seconds as a floating-point number. It is only passed through
  to the detail view and compared by `sortBy=duration`. An order-preserving
  rounding therefore changes no listing order beyond ties between durations
  that round alike.
- fetchAllComments' pipeline has a `$cond` without `then`/`else` for
  `isLiked`. MongoDB rejects that stage, so the whole aggregate fails. The
  model computes a corrected pipeline without `isLiked`.
- getUserChannelSubscriber's `isSubscribed` applies `$in` to a scalar, which
  fails as soon as one subscription reaches that stage. The model computes a
  corrected pipeline without `isSubscribed`.
- VideoController.GetVideoById: the detail pipeline applies `$first` to
  `owner`, which still holds an identifier, not an array. On a video with an
  owner, MongoDB would fail there, answer 500 and skip the view increment. The
  model computes the pipeline as if `$first` passed the identifier through, so
  it answers 200 and increments `views`.
- VideoController.ListingIds: a sort on a whole embedded asset document
  (`videoFile`, `thumbnail`) or on `updatedAt` is not modelled. Those keys are
  missing for every video, so such a listing keeps scan order. Sorts on their
  sub-fields (`videoFile.url`, `thumbnail.public_id`, ...) are modelled.
- Concurrency is left out. The two reads of removeVideoFromPlaylist are
  sequential, and the toggles' check-then-act race is outside a sequential
  model.
- Module resolution is not modelled. subscription.controller.js and
  comment.controller.js import some modules without the `.js` extension. Node's
  ES module loader would not resolve those imports; the model assumes the
  modules load.
- The video route's multer fields are named "videoFile" and "thumbnail", while
  publishVideo reads `req.files.video`. The model takes the files object as
  given, keyed by field name, so it shows what the handler does with whatever
  multer hands it.
- loginUser reads its fields from `req.data`, which Express does not set. The
  model takes that property as an `Option`, and `None` (destructuring
  `undefined`) answers 500.
- A filter `{email: undefined}` is taken to match no user. So are the other
  absent fields of the `$or` look-ups.
- A password comparison or token generation that throws is not modelled.
- getPlaylistById's `if (!playlistVideos)` and similar checks after a
  successful database call cannot fail in a sequential model, so they have no
  error path.
- JsString.ToLowerCase: lower-cases ASCII letters only. JavaScript's
  `toLowerCase` also maps non-ASCII letters, which the model does not.
- PlaylistController.GetUserPlaylists: its contract states the status and the
  number of entries. Which entries they are is in UserPlaylistAt,
  UserPlaylistOwned, UserPlaylistsDistinct and UserPlaylistVideos.
- PlaylistController.Summaries: its own contract states only the length. The
  entries are given by SummariesAt.
- PlaylistController.Summarise: its contract states the entry's id. The rest is
  in UserPlaylistOwned and SummaryVideos.
- LikeController.GetLikedVideos: its contract states the status and
  `totalDocs`. The entries are in LikedVideoAggregateSound, and their order is
  in LikedVideoIds.
- VideoController.GetAllVideos: its contract states the error case, the status
  and `totalDocs`. The entries are in ListingSound and UnpublishedNeverListed,
  and their order is in ListingIds.
- UserController.FindUser: `findOne` returns some matching document. The model
  fixes it to the one with the least identifier.
