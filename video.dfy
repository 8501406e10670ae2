/** Videos: the public listing, publishing, the detail view with its derived
    counts and view increment, and the three owner-only mutations. */
module VideoController {
  import opened Base
  import opened Entities
  import opened Storage
  import opened Sorting
  import opened Pagination
  import opened LikeController
  import opened CommentController

  // ------------------------------------------------------------ ownership

  /** The ownership guard on a video: `video.owner.toString() !==
      req.user?._id.toString()`. A video without an owner makes `toString`
      throw (500); no acting user, or another one, is a mismatch (400). */
  function VideoGuard(v: Video, actor: Option<Id>): (e: Option<int>)
    ensures e == None <==> v.owner.Some? && actor == v.owner
    ensures e.Some? ==> e.value == (if v.owner.None? then ServerError else BadRequest)
  {
    if v.owner.None? then Some(ServerError)
    else if actor != v.owner then Some(BadRequest)
    else None
  }

  // -------------------------------------------------------------- listing

  /** The owner sub-document of the listing: `_id` and `username` (the
      projected `avatar.url` does not exist on a string avatar). */
  datatype OwnerBrief = OwnerBrief(id: Id, username: string)

  datatype ListedVideo = ListedVideo(id: Id, video: Video, ownerDetails: OwnerBrief)

  datatype SortSpec = SortSpec(field: string, dir: Direction)

  /** The `$sort` stage getAllVideos builds from its query. */
  function ListingOrder(sortBy: Option<string>, sortType: Option<string>): (s: SortSpec)
    ensures Truthy(sortBy) && Truthy(sortType) ==>
      s.field == sortBy.value && (s.dir == Ascending <==> sortType.value == "asc")
    ensures !(Truthy(sortBy) && Truthy(sortType)) ==> s == SortSpec("createdAt", Descending)
  {
    if Truthy(sortBy) && Truthy(sortType) then
      SortSpec(sortBy.value, if sortType.value == "asc" then Ascending else Descending)
    else SortSpec("createdAt", Descending)
  }

  /** The value of a video at a sort field path. A path videos do not have is
      missing for every video; so, in this model, are the two embedded asset
      documents taken whole (`videoFile`, `thumbnail`) and `updatedAt`. */
  function FieldKey(id: Id, v: Video, field: string): SortKey {
    if field == "_id" then Oid(id)
    else if field == "videoFile.url" then Text(v.videoFile.url)
    else if field == "videoFile.public_id" then Text(v.videoFile.publicId)
    else if field == "thumbnail.url" then Text(v.thumbnail.url)
    else if field == "thumbnail.public_id" then Text(v.thumbnail.publicId)
    else if field == "title" then Text(v.title)
    else if field == "description" then Text(v.description)
    else if field == "duration" then Num(v.duration)
    else if field == "views" then Num(v.views)
    else if field == "isPublished" then Flag(v.isPublished)
    else if field == "createdAt" then Date(v.createdAt)
    else if field == "owner" then (if v.owner.Some? then Oid(v.owner.value) else Missing)
    else Missing
  }

  function VideoKey(videos: map<Id, Video>, field: string): Id -> SortKey {
    k => if k in videos then FieldKey(k, videos[k], field) else Missing
  }

  /** The optional `userId` filter: absent or empty means no filter. */
  function OwnerFilter(userId: Option<RawId>): (r: Response<Option<Id>>)
    ensures r.Err? <==> userId.Some? && PresentId(userId.value) && !IsValidObjectId(userId.value)
    ensures r.Err? ==> r.status == BadRequest
    ensures r.Ok? && r.data.Some? <==> userId.Some? && userId.value.ObjectId?
    ensures r.Ok? && r.data.Some? ==> r.data.value == userId.value.id
  {
    if userId.None? || !PresentId(userId.value) then Ok(OK, None)
    else if !IsValidObjectId(userId.value) then Err(BadRequest)
    else Ok(OK, Some(userId.value.id))
  }

  /** A video the listing keeps: published, of the requested owner if any, and
      with an owner user that exists (the `$unwind` drops the rest). */
  predicate Listable(videos: map<Id, Video>, users: map<Id, User>, owner: Option<Id>, k: Id) {
    Matched(videos, owner, k) && OwnerJoins(videos, users, k)
  }

  /** The two `$match` stages: the requested owner, if any, and `isPublished`. */
  predicate Matched(videos: map<Id, Video>, owner: Option<Id>, k: Id) {
    k in videos && (owner.Some? ==> videos[k].owner == owner) && videos[k].isPublished
  }

  /** `$lookup` + `$unwind` of the owner keep a video whose owner user exists. */
  predicate OwnerJoins(videos: map<Id, Video>, users: map<Id, User>, k: Id) {
    k in videos && videos[k].owner.Some? && videos[k].owner.value in users
  }

  function MatchedIds(videos: map<Id, Video>, owner: Option<Id>): (r: seq<Id>)
    ensures forall k :: k in r <==> Matched(videos, owner, k)
    ensures NoDuplicates(r)
  {
    Filter(ScanOrder(videos), (k: Id) => Matched(videos, owner, k))
  }

  /** The documents of getAllVideos' pipeline, in output order: `$match` owner,
      `$match` isPublished, `$sort`, then `$lookup` + `$unwind` of the owner. */
  function ListingIds(videos: map<Id, Video>, users: map<Id, User>, owner: Option<Id>, order: SortSpec): (r: seq<Id>)
    ensures forall k :: k in r <==> Listable(videos, users, owner, k)
    ensures NoDuplicates(r)
    ensures SortedBy(r, VideoKey(videos, order.field), order.dir)
  {
    var key := VideoKey(videos, order.field);
    var matched := MatchedIds(videos, owner);
    SortKeepsMembers(matched, key, order.dir);
    var sorted := Sort(matched, key, order.dir);
    FilterKeepsOrder(sorted, (k: Id) => OwnerJoins(videos, users, k), key, order.dir);
    Filter(sorted, (k: Id) => OwnerJoins(videos, users, k))
  }

  lemma {:induction false} FilterKeepsOrder(s: seq<Id>, p: Id -> bool, key: Id -> SortKey, dir: Direction)
    requires SortedBy(s, key, dir)
    ensures SortedBy(Filter(s, p), key, dir)
  {
    if s != [] {
      FilterKeepsOrder(s[1..], p, key, dir);
      var rest := Filter(s[1..], p);
      if p(s[0]) {
        forall j | 0 <= j < |rest|
          ensures Before(key(s[0]), key(rest[j]), dir)
        {
          assert rest[j] in s[1..];
          var i :| 0 <= i < |s[1..]| && s[1..][i] == rest[j];
          assert s[i + 1] == rest[j];
        }
      }
    }
  }

  function Listed(videos: map<Id, Video>, users: map<Id, User>, k: Id): ListedVideo
    requires OwnerJoins(videos, users, k)
  {
    var o := videos[k].owner.value;
    ListedVideo(k, videos[k], OwnerBrief(o, users[o].username))
  }

  function ListAll(videos: map<Id, Video>, users: map<Id, User>, ids: seq<Id>): (r: seq<ListedVideo>)
    requires forall k :: k in ids ==> OwnerJoins(videos, users, k)
    ensures |r| == |ids|
    ensures forall i :: 0 <= i < |ids| ==> r[i] == Listed(videos, users, ids[i])
  {
    if ids == [] then []
    else [Listed(videos, users, ids[0])] + ListAll(videos, users, ids[1..])
  }

  function ListingAggregate(videos: map<Id, Video>, users: map<Id, User>, owner: Option<Id>, order: SortSpec): seq<ListedVideo> {
    ListAll(videos, users, ListingIds(videos, users, owner, order))
  }

  /** getAllVideos: 400 for a present but invalid `userId`; otherwise the page of
      the pipeline's result. */
  function GetAllVideos(videos: map<Id, Video>, users: map<Id, User>, userId: Option<RawId>,
                        sortBy: Option<string>, sortType: Option<string>, opts: PageOptions): (r: Response<Page<ListedVideo>>)
    requires Windowed(opts)
    ensures r.Err? <==> OwnerFilter(userId).Err?
    ensures r.Err? ==> r.status == BadRequest
    ensures r.Ok? ==> (r.status == OK &&
      r.data.totalDocs == |ListingIds(videos, users, OwnerFilter(userId).data, ListingOrder(sortBy, sortType))|)
  {
    match OwnerFilter(userId)
    case Err(e) => Err(e)
    case Ok(_, owner) => Ok(OK, Paginate(ListingAggregate(videos, users, owner, ListingOrder(sortBy, sortType)), opts))
  }

  /** Every listed video is published, has the requested owner, and has an
      owner user; its record is returned as stored. */
  lemma ListingSound(videos: map<Id, Video>, users: map<Id, User>, owner: Option<Id>, order: SortSpec, e: ListedVideo)
    requires e in ListingAggregate(videos, users, owner, order)
    ensures e.id in videos && e.video == videos[e.id] && e.video.isPublished
    ensures owner.Some? ==> e.video.owner == owner
    ensures e.video.owner.Some? && e.video.owner.value in users && e.ownerDetails.id == e.video.owner.value
  {
    var ids := ListingIds(videos, users, owner, order);
    var all := ListingAggregate(videos, users, owner, order);
    var i :| 0 <= i < |all| && all[i] == e;
    assert ids[i] in ids;
    assert e == Listed(videos, users, ids[i]);
  }

  /** Unpublished videos are never listed, whoever asks and whatever the filter. */
  lemma UnpublishedNeverListed(videos: map<Id, Video>, users: map<Id, User>, owner: Option<Id>, order: SortSpec, k: Id)
    requires k in videos && !videos[k].isPublished
    ensures k !in ListingIds(videos, users, owner, order)
  {
  }

  // ----------------------------------------------------------- publishing

  /** The record `Video.create` receives. */
  function NewVideo(title: string, description: string, file: Uploaded, thumb: Uploaded, actor: Option<Id>, now: int): Video {
    Video(Asset(file.url, file.publicId), Asset(thumb.url, thumb.publicId), title, description,
          file.duration, 0, true, actor, now)
  }

  /** publishVideo. Checks, in order: title and description (400), reading the
      two upload paths (500 when the files object lacks a field), the two paths
      (400); then both files are uploaded, a failed upload gives 400, and the
      video is created published, owned by the acting user, with 0 views. */
  method PublishVideo(db: Store, actor: Option<Id>, title: Option<string>, description: Option<string>,
                      files: Option<Files>, upload: Option<string> -> Option<Uploaded>, now: int)
    returns (r: Response<Video>)
    requires db.Valid()
    modifies db
    ensures db.Valid()
    ensures !Truthy(title) || !Truthy(description) ==> r == Err(BadRequest) && db.State() == old(db.State())
    ensures Truthy(title) && Truthy(description) && (LocalPath(files, "video").Err? || LocalPath(files, "thumbnail").Err?) ==>
      r == Err(ServerError) && db.State() == old(db.State())
    ensures Truthy(title) && Truthy(description) && LocalPath(files, "video").Ok? && LocalPath(files, "thumbnail").Ok? ==>
      var file, thumb := LocalPath(files, "video").data, LocalPath(files, "thumbnail").data;
      && (!Truthy(file) || !Truthy(thumb) ==> r == Err(BadRequest) && db.State() == old(db.State()))
      && (Truthy(file) && Truthy(thumb) ==>
            && db.log == old(db.log) + [Upload(file), Upload(thumb)]
            && (upload(file).None? || upload(thumb).None? ==>
                  r == Err(BadRequest) && db.State() == old(db.State()).(log := db.log))
            && (upload(file).Some? && upload(thumb).Some? ==>
                  && r == Ok(OK, NewVideo(title.value, description.value, upload(file).value, upload(thumb).value, actor, now))
                  && db.State() == old(db.State()).(videos := old(db.videos)[old(db.nextId) := r.data],
                                                    log := db.log, nextId := old(db.nextId) + 1)))
  {
    if !Truthy(title) || !Truthy(description) {
      return Err(BadRequest);
    }
    var file := LocalPath(files, "video");
    if file.Err? {
      return Err(ServerError);
    }
    var thumb := LocalPath(files, "thumbnail");
    if thumb.Err? {
      return Err(ServerError);
    }
    if !Truthy(file.data) {
      return Err(BadRequest);
    }
    if !Truthy(thumb.data) {
      return Err(BadRequest);
    }
    db.log := db.log + [Upload(file.data)];
    var uploadedFile := upload(file.data);
    db.log := db.log + [Upload(thumb.data)];
    var uploadedThumb := upload(thumb.data);
    if uploadedFile.None? || uploadedThumb.None? {
      return Err(BadRequest);
    }
    var v := NewVideo(title.value, description.value, uploadedFile.value, uploadedThumb.value, actor, now);
    var id := db.NewId();
    db.videos := db.videos[id := v];
    r := Ok(OK, v);
  }

  // ---------------------------------------------------------- detail view

  /** The detail view's projection: the video's own fields and the derived
      counts. The owner sub-document the pipeline joins is not among the
      projected fields, so it is not part of the response. */
  datatype VideoDetail = VideoDetail(
    id: Id,
    videoUrl: string,
    thumbnailUrl: string,
    duration: int,
    title: string,
    description: string,
    views: nat,
    createdAt: int,
    likeCount: nat,
    commentCount: nat,
    isLiked: bool)

  /** The first document of the detail aggregate, `None` when it is empty. */
  function DetailOf(videos: map<Id, Video>, likes: map<Id, Like>, comments: map<Id, Comment>, id: Id, actor: Option<Id>): Option<VideoDetail> {
    if id !in videos then None
    else
      var v := videos[id];
      Some(VideoDetail(id, v.videoFile.url, v.thumbnail.url, v.duration, v.title, v.description, v.views, v.createdAt,
                       LikeCount(likes, OfVideo(id)), |CommentsOn(comments, id)|, IsLiked(likes, OfVideo(id), actor)))
  }

  /** An anonymous viewer never sees `isLiked`. */
  lemma AnonymousNotLiked(videos: map<Id, Video>, likes: map<Id, Like>, comments: map<Id, Comment>, id: Id)
    requires id in videos
    ensures !DetailOf(videos, likes, comments, id, None).value.isLiked
  {
  }

  /** A like toggle by a user is seen by the detail view at once: `isLiked`
      flips for that user and `likeCount` moves by one in the same direction. */
  lemma DetailAfterLikeToggle(videos: map<Id, Video>, likes: map<Id, Like>, comments: map<Id, Comment>,
                              id: Id, actor: Id, newId: Id, now: int)
    requires id in videos && newId !in likes && LikesUnique(likes)
    ensures var before := DetailOf(videos, likes, comments, id, Some(actor)).value;
            var after := DetailOf(videos, ToggleLikes(likes, OfVideo(id), actor, newId, now), comments, id, Some(actor)).value;
            && after.isLiked == !before.isLiked
            && after.likeCount == (if before.isLiked then before.likeCount - 1 else before.likeCount + 1)
            && after.commentCount == before.commentCount
  {
    ToggleLikesFlips(likes, OfVideo(id), actor, newId, now);
    ToggleLikesCount(likes, OfVideo(id), actor, newId, now);
  }

  /** A comment added to a video shows in its detail view: `commentCount`
      grows by one, the like fields stay. */
  lemma DetailAfterComment(videos: map<Id, Video>, likes: map<Id, Like>, comments: map<Id, Comment>,
                           id: Id, actor: Option<Id>, c: Comment, newId: Id)
    requires id in videos && newId !in comments && c.video == id
    ensures var before := DetailOf(videos, likes, comments, id, actor).value;
            var after := DetailOf(videos, likes, comments[newId := c], id, actor).value;
            after == before.(commentCount := before.commentCount + 1)
  {
    CommentsOnAfterAdd(comments, c, newId, id);
  }

  /** getVideoById. `videoId` empty: 400; otherwise not an ObjectId: the
      ObjectId constructor throws (500). The response is the detail computed
      before the increment (`None` for an unknown video, which is still 200);
      the video's `views` then grows by exactly one. The watch-history update
      addresses the videos table with the user's id and changes no user. */
  method GetVideoById(db: Store, videoId: RawId, actor: Option<Id>) returns (r: Response<Option<VideoDetail>>)
    requires db.Valid()
    modifies db
    ensures db.Valid()
    ensures videoId == Malformed("") ==> r == Err(BadRequest) && db.State() == old(db.State())
    ensures videoId.Malformed? && videoId != Malformed("") ==> r == Err(ServerError) && db.State() == old(db.State())
    ensures videoId.ObjectId? ==>
      && r == Ok(OK, DetailOf(old(db.videos), old(db.likes), old(db.comments), videoId.id, actor))
      && db.State() == old(db.State()).(videos :=
           if videoId.id in old(db.videos)
           then old(db.videos)[videoId.id := old(db.videos)[videoId.id].(views := old(db.videos)[videoId.id].views + 1)]
           else old(db.videos))
  {
    if !PresentId(videoId) {
      return Err(BadRequest);
    }
    if videoId.Malformed? {
      return Err(ServerError);
    }
    var id := videoId.id;
    var detail := DetailOf(db.videos, db.likes, db.comments, id, actor);
    if id in db.videos {
      db.videos := db.videos[id := db.videos[id].(views := db.videos[id].views + 1)];
    }
    // `Video.findByIdAndUpdate(req.user?._id, {$addToSet: {watchHistory}})`:
    // video records carry no watch history, and no user record is addressed.
    r := Ok(OK, detail);
  }

  // ------------------------------------------------------------ mutations

  /** updateVideo. Checks, in order: empty id (400), title and description
      (400), a malformed id reaching `findById` (500), a missing video (400), the
      ownership guard, the new thumbnail's path (400). Then the thumbnail is
      uploaded (a failed upload throws: 500), title, description and thumbnail
      are set, and the old thumbnail is removed from the asset store. */
  method UpdateVideo(db: Store, videoId: RawId, actor: Option<Id>, title: Option<string>, description: Option<string>,
                     thumbnailPath: Option<string>, upload: Option<string> -> Option<Uploaded>)
    returns (r: Response<Video>)
    requires db.Valid()
    modifies db
    ensures db.Valid()
    ensures r.Err? ==> db.State() == old(db.State()).(log := db.log)
    ensures r.Err? && r.status != ServerError ==> db.State() == old(db.State())
    ensures !PresentId(videoId) || !Truthy(title) || !Truthy(description) ==> r == Err(BadRequest)
    ensures PresentId(videoId) && Truthy(title) && Truthy(description) && videoId.Malformed? ==>
      r == Err(ServerError) && db.State() == old(db.State())
    ensures Truthy(title) && Truthy(description) && videoId.ObjectId? ==>
      var id := videoId.id;
      && (id !in old(db.videos) ==> r == Err(BadRequest))
      && (id in old(db.videos) && VideoGuard(old(db.videos)[id], actor).Some? ==>
            r == Err(VideoGuard(old(db.videos)[id], actor).value) && db.State() == old(db.State()))
      && (id in old(db.videos) && VideoGuard(old(db.videos)[id], actor).None? ==>
            var v := old(db.videos)[id];
            && (!Truthy(thumbnailPath) ==> r == Err(BadRequest))
            && (Truthy(thumbnailPath) && upload(thumbnailPath).None? ==>
                  r == Err(ServerError) && db.log == old(db.log) + [Upload(thumbnailPath)])
            && (Truthy(thumbnailPath) && upload(thumbnailPath).Some? ==>
                  var t := upload(thumbnailPath).value;
                  && r == Ok(OK, v.(title := title.value, description := description.value, thumbnail := Asset(t.url, t.publicId)))
                  && db.State() == old(db.State()).(videos := old(db.videos)[id := r.data],
                       log := old(db.log) + [Upload(thumbnailPath), Destroy(v.thumbnail.publicId)])))
  {
    if !PresentId(videoId) {
      return Err(BadRequest);
    }
    if !Truthy(title) || !Truthy(description) {
      return Err(BadRequest);
    }
    if videoId.Malformed? {
      return Err(ServerError);
    }
    var id := videoId.id;
    if id !in db.videos {
      return Err(BadRequest);
    }
    var v := db.videos[id];
    var denied := VideoGuard(v, actor);
    if denied.Some? {
      return Err(denied.value);
    }
    if !Truthy(thumbnailPath) {
      return Err(BadRequest);
    }
    db.log := db.log + [Upload(thumbnailPath)];
    var uploaded := upload(thumbnailPath);
    if uploaded.None? {
      return Err(ServerError);
    }
    var updated := v.(title := title.value, description := description.value,
                      thumbnail := Asset(uploaded.value.url, uploaded.value.publicId));
    db.videos := db.videos[id := updated];
    db.log := db.log + [Destroy(v.thumbnail.publicId)];
    r := Ok(OK, updated);
  }

  /** deleteVideo. Invalid id: 400; missing video: 400; then the ownership
      guard. By the owner, the record is removed and then exactly two asset
      removals follow, the video file first and the thumbnail second. Comments,
      likes and playlist entries that refer to the video are left in place. */
  method DeleteVideo(db: Store, videoId: RawId, actor: Option<Id>) returns (r: Response<()>)
    requires db.Valid()
    modifies db
    ensures db.Valid()
    ensures r.Err? ==> db.State() == old(db.State())
    ensures !IsValidObjectId(videoId) ==> r == Err(BadRequest)
    ensures IsValidObjectId(videoId) ==>
      var id := videoId.id;
      && (id !in old(db.videos) ==> r == Err(BadRequest))
      && (id in old(db.videos) && VideoGuard(old(db.videos)[id], actor).Some? ==>
            r == Err(VideoGuard(old(db.videos)[id], actor).value))
      && (id in old(db.videos) && VideoGuard(old(db.videos)[id], actor).None? ==>
            && r == Ok(OK, ())
            && id !in db.videos
            && db.State() == old(db.State()).(videos := old(db.videos) - {id},
                 log := old(db.log) + [Destroy(old(db.videos)[id].videoFile.publicId), Destroy(old(db.videos)[id].thumbnail.publicId)]))
  {
    if !IsValidObjectId(videoId) {
      return Err(BadRequest);
    }
    var id := videoId.id;
    if id !in db.videos {
      return Err(BadRequest);
    }
    var v := db.videos[id];
    var denied := VideoGuard(v, actor);
    if denied.Some? {
      return Err(denied.value);
    }
    db.videos := db.videos - {id};
    db.log := db.log + [Destroy(v.videoFile.publicId)];
    db.log := db.log + [Destroy(v.thumbnail.publicId)];
    r := Ok(OK, ());
  }

  /** The videos table with one video's `isPublished` negated. */
  function FlipPublished(videos: map<Id, Video>, id: Id): map<Id, Video>
    requires id in videos
  {
    videos[id := videos[id].(isPublished := !videos[id].isPublished)]
  }

  /** Two status toggles restore the table. */
  lemma FlipPublishedTwice(videos: map<Id, Video>, id: Id)
    requires id in videos
    ensures id in FlipPublished(videos, id) && FlipPublished(FlipPublished(videos, id), id) == videos
  {
    assert FlipPublished(FlipPublished(videos, id), id)[id] == videos[id];
  }

  /** togglePublicStatus. Invalid id: 400; missing video: 400; then the
      ownership guard; by the owner, `isPublished` is negated and nothing else
      changes. */
  method TogglePublicStatus(db: Store, videoId: RawId, actor: Option<Id>) returns (r: Response<Video>)
    requires db.Valid()
    modifies db
    ensures db.Valid()
    ensures r.Err? ==> db.State() == old(db.State())
    ensures !IsValidObjectId(videoId) ==> r == Err(BadRequest)
    ensures IsValidObjectId(videoId) ==>
      var id := videoId.id;
      && (id !in old(db.videos) ==> r == Err(BadRequest))
      && (id in old(db.videos) && VideoGuard(old(db.videos)[id], actor).Some? ==>
            r == Err(VideoGuard(old(db.videos)[id], actor).value))
      && (id in old(db.videos) && VideoGuard(old(db.videos)[id], actor).None? ==>
            && db.State() == old(db.State()).(videos := FlipPublished(old(db.videos), id))
            && r == Ok(OK, db.videos[id])
            && r.data.isPublished == !old(db.videos)[id].isPublished)
  {
    if !IsValidObjectId(videoId) {
      return Err(BadRequest);
    }
    var id := videoId.id;
    if id !in db.videos {
      return Err(BadRequest);
    }
    var denied := VideoGuard(db.videos[id], actor);
    if denied.Some? {
      return Err(denied.value);
    }
    db.videos := FlipPublished(db.videos, id);
    r := Ok(OK, db.videos[id]);
  }
}
