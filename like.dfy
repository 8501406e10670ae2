/** Likes: the two toggles, the derived `likeCount` / `isLiked` fields the
    video and comment views join in, and the liked-videos listing. */
module LikeController {
  import opened Base
  import opened Entities
  import opened Storage
  import opened Sorting
  import opened Pagination

  predicate Matches(l: Like, target: LikeTarget, actor: Id) {
    l.target == target && l.likedBy == actor
  }

  /** The likes a `$lookup` on `target` joins. */
  function LikesOn(likes: map<Id, Like>, target: LikeTarget): set<Id> {
    set k | k in likes && likes[k].target == target
  }

  /** `likeCount`: the size of the joined likes. */
  function LikeCount(likes: map<Id, Like>, target: LikeTarget): nat {
    |LikesOn(likes, target)|
  }

  /** `findOne({target, likedBy: actor})` finds something. */
  predicate HasLike(likes: map<Id, Like>, target: LikeTarget, actor: Id) {
    exists k :: k in likes && Matches(likes[k], target, actor)
  }

  /** `isLiked`: the acting user's id is among the joined likes' `likedBy`; an
      anonymous request is never counted as liking. */
  predicate IsLiked(likes: map<Id, Like>, target: LikeTarget, actor: Option<Id>) {
    actor.Some? && HasLike(likes, target, actor.value)
  }

  lemma IsLikedMeansAmongLikers(likes: map<Id, Like>, target: LikeTarget, actor: Option<Id>)
    ensures IsLiked(likes, target, actor) <==>
      actor.Some? && actor.value in (set k | k in LikesOn(likes, target) :: likes[k].likedBy)
  {
    if actor.Some? && actor.value in (set k | k in LikesOn(likes, target) :: likes[k].likedBy) {
      var k :| k in LikesOn(likes, target) && likes[k].likedBy == actor.value;
      assert Matches(likes[k], target, actor.value);
    }
  }

  /** All likes except the (target, actor) pair's. */
  function Others(likes: map<Id, Like>, target: LikeTarget, actor: Id): map<Id, Like> {
    map k | k in likes && !Matches(likes[k], target, actor) :: likes[k]
  }

  /** The (target, likedBy) pairs the table records. */
  function Pairs(likes: map<Id, Like>): set<(LikeTarget, Id)> {
    set k | k in likes :: (likes[k].target, likes[k].likedBy)
  }

  /** The likes table after a toggle: the pair's like deleted if there is one,
      otherwise a new like `newId` created. */
  function ToggleLikes(likes: map<Id, Like>, target: LikeTarget, actor: Id, newId: Id, now: int): map<Id, Like> {
    if HasLike(likes, target, actor) then Others(likes, target, actor)
    else likes[newId := Like(target, actor, now)]
  }

  /** A toggle flips the pair's presence, touches no other like, and keeps the
      table free of duplicate pairs. */
  lemma ToggleLikesFlips(likes: map<Id, Like>, target: LikeTarget, actor: Id, newId: Id, now: int)
    requires newId !in likes
    ensures HasLike(ToggleLikes(likes, target, actor, newId, now), target, actor) == !HasLike(likes, target, actor)
    ensures Others(ToggleLikes(likes, target, actor, newId, now), target, actor) == Others(likes, target, actor)
    ensures LikesUnique(likes) ==> LikesUnique(ToggleLikes(likes, target, actor, newId, now))
  {
    var r := ToggleLikes(likes, target, actor, newId, now);
    if !HasLike(likes, target, actor) {
      assert Matches(r[newId], target, actor);
    }
  }

  /** Toggling a video's like leaves every comment like as it was, and the
      other way round. */
  lemma ToggleLeavesOtherKind(likes: map<Id, Like>, target: LikeTarget, actor: Id, newId: Id, now: int)
    requires newId !in likes
    ensures forall k :: k in likes && likes[k].target.OfVideo? != target.OfVideo? ==>
      k in ToggleLikes(likes, target, actor, newId, now) && ToggleLikes(likes, target, actor, newId, now)[k] == likes[k]
    ensures forall k :: (k in ToggleLikes(likes, target, actor, newId, now)
      && ToggleLikes(likes, target, actor, newId, now)[k].target.OfVideo? != target.OfVideo?) ==> k in likes
  {
  }

  /** A toggle moves the target's `likeCount` by exactly one. */
  lemma ToggleLikesCount(likes: map<Id, Like>, target: LikeTarget, actor: Id, newId: Id, now: int)
    requires newId !in likes && LikesUnique(likes)
    ensures LikeCount(ToggleLikes(likes, target, actor, newId, now), target) ==
      if HasLike(likes, target, actor) then LikeCount(likes, target) - 1 else LikeCount(likes, target) + 1
  {
    if HasLike(likes, target, actor) {
      var k :| k in likes && Matches(likes[k], target, actor);
      CountAfterDelete(likes, target, actor, k);
    } else {
      CountAfterCreate(likes, target, actor, newId, now);
    }
  }

  lemma CountAfterDelete(likes: map<Id, Like>, target: LikeTarget, actor: Id, k: Id)
    requires LikesUnique(likes) && k in likes && Matches(likes[k], target, actor)
    ensures LikeCount(Others(likes, target, actor), target) == LikeCount(likes, target) - 1
  {
    var before := LikesOn(likes, target);
    LikesOnAfterDelete(likes, target, actor, k);
    assert k in before;
  }

  lemma CountAfterCreate(likes: map<Id, Like>, target: LikeTarget, actor: Id, newId: Id, now: int)
    requires newId !in likes
    ensures LikeCount(likes[newId := Like(target, actor, now)], target) == LikeCount(likes, target) + 1
  {
    var before := LikesOn(likes, target);
    assert LikesOn(likes[newId := Like(target, actor, now)], target) == before + {newId};
  }

  /** ... and leaves every other target's count alone. */
  lemma ToggleLikesCountElsewhere(likes: map<Id, Like>, target: LikeTarget, actor: Id, newId: Id, now: int, t: LikeTarget)
    requires newId !in likes && t != target
    ensures LikeCount(ToggleLikes(likes, target, actor, newId, now), t) == LikeCount(likes, t)
  {
    LikesOnOtherTarget(likes, target, actor, newId, now, t);
  }

  lemma LikesOnAfterDelete(likes: map<Id, Like>, target: LikeTarget, actor: Id, k: Id)
    requires LikesUnique(likes) && k in likes && Matches(likes[k], target, actor)
    ensures LikesOn(Others(likes, target, actor), target) == LikesOn(likes, target) - {k}
  {
  }

  lemma LikesOnOtherTarget(likes: map<Id, Like>, target: LikeTarget, actor: Id, newId: Id, now: int, t: LikeTarget)
    requires newId !in likes && t != target
    ensures LikesOn(ToggleLikes(likes, target, actor, newId, now), t) == LikesOn(likes, t)
  {
  }

  /** Two toggles of the same pair restore the recorded pairs; starting from no
      like they restore the table itself. */
  lemma ToggleLikesTwice(likes: map<Id, Like>, target: LikeTarget, actor: Id, f1: Id, n1: int, f2: Id, n2: int)
    requires f1 !in likes && f2 !in ToggleLikes(likes, target, actor, f1, n1) && LikesUnique(likes)
    ensures Pairs(ToggleLikes(ToggleLikes(likes, target, actor, f1, n1), target, actor, f2, n2)) == Pairs(likes)
    ensures !HasLike(likes, target, actor) ==>
      ToggleLikes(ToggleLikes(likes, target, actor, f1, n1), target, actor, f2, n2) == likes
  {
    var once := ToggleLikes(likes, target, actor, f1, n1);
    var twice := ToggleLikes(once, target, actor, f2, n2);
    ToggleLikesFlips(likes, target, actor, f1, n1);
    if HasLike(likes, target, actor) {
      var k :| k in likes && Matches(likes[k], target, actor);
      assert twice == once[f2 := Like(target, actor, n2)];
      forall p | p in Pairs(likes)
        ensures p in Pairs(twice)
      {
        var j :| j in likes && p == (likes[j].target, likes[j].likedBy);
        if Matches(likes[j], target, actor) {
          assert p == (twice[f2].target, twice[f2].likedBy);
        } else {
          assert j in twice;
        }
      }
      forall p | p in Pairs(twice)
        ensures p in Pairs(likes)
      {
        var j :| j in twice && p == (twice[j].target, twice[j].likedBy);
        if j == f2 {
          assert p == (likes[k].target, likes[k].likedBy);
        } else {
          assert j in likes;
        }
      }
    } else {
      assert once == likes[f1 := Like(target, actor, n1)];
      assert HasLike(once, target, actor);
      assert twice == Others(once, target, actor);
      assert twice == likes;
    }
  }

  /** `findOne` then `findByIdAndDelete` or `create`, for either kind of target. */
  method ToggleLike(db: Store, target: LikeTarget, actor: Id, now: int) returns (p: Presence)
    requires db.Valid()
    modifies db
    ensures db.Valid()
    ensures p == if old(HasLike(db.likes, target, actor)) then Absent else Present
    ensures db.State() == old(db.State()).(
      likes := ToggleLikes(old(db.likes), target, actor, old(db.nextId), now),
      nextId := if p == Present then old(db.nextId) + 1 else old(db.nextId))
  {
    ToggleLikesFlips(db.likes, target, actor, db.nextId, now);
    if k :| k in db.likes && Matches(db.likes[k], target, actor) {
      assert forall j :: j in db.likes && Matches(db.likes[j], target, actor) ==> j == k;
      db.likes := map j | j in db.likes && j != k :: db.likes[j];
      p := Absent;
    } else {
      var id := db.NewId();
      db.likes := db.likes[id := Like(target, actor, now)];
      p := Present;
    }
  }

  /** toggleVideoLike: 400 for an invalid id; otherwise the (video, actor) like
      is deleted if it exists and created if not. The video need not exist. */
  method ToggleVideoLike(db: Store, videoId: RawId, actor: Id, now: int) returns (r: Response<Presence>)
    requires db.Valid()
    modifies db
    ensures db.Valid()
    ensures !IsValidObjectId(videoId) ==> r == Err(BadRequest) && db.State() == old(db.State())
    ensures IsValidObjectId(videoId) ==>
      && r == Ok(OK, if old(HasLike(db.likes, OfVideo(videoId.id), actor)) then Absent else Present)
      && db.State() == old(db.State()).(
        likes := ToggleLikes(old(db.likes), OfVideo(videoId.id), actor, old(db.nextId), now),
        nextId := if r.data == Present then old(db.nextId) + 1 else old(db.nextId))
  {
    if !IsValidObjectId(videoId) {
      return Err(BadRequest);
    }
    var p := ToggleLike(db, OfVideo(videoId.id), actor, now);
    r := Ok(OK, p);
  }

  /** toggleCommentLike: the same, keyed on (comment, likedBy). */
  method ToggleCommentLike(db: Store, commentId: RawId, actor: Id, now: int) returns (r: Response<Presence>)
    requires db.Valid()
    modifies db
    ensures db.Valid()
    ensures !IsValidObjectId(commentId) ==> r == Err(BadRequest) && db.State() == old(db.State())
    ensures IsValidObjectId(commentId) ==>
      && r == Ok(OK, if old(HasLike(db.likes, OfComment(commentId.id), actor)) then Absent else Present)
      && db.State() == old(db.State()).(
        likes := ToggleLikes(old(db.likes), OfComment(commentId.id), actor, old(db.nextId), now),
        nextId := if r.data == Present then old(db.nextId) + 1 else old(db.nextId))
  {
    if !IsValidObjectId(commentId) {
      return Err(BadRequest);
    }
    var p := ToggleLike(db, OfComment(commentId.id), actor, now);
    r := Ok(OK, p);
  }

  // ---------------------------------------------------------------- listing

  /** One entry of the liked-videos listing (the `likedVideos` projection). */
  datatype LikedVideo = LikedVideo(
    id: Id,
    title: string,
    description: string,
    videoUrl: string,
    thumbnailUrl: string,
    owner: Option<Id>,
    ownerDetails: UserSummary)

  /** A like survives both unwinds: it points at a video that exists and whose
      owner exists. */
  predicate JoinsVideo(likes: map<Id, Like>, videos: map<Id, Video>, users: map<Id, User>, k: Id) {
    && k in likes
    && likes[k].target.OfVideo?
    && likes[k].target.video in videos
    && videos[likes[k].target.video].owner.Some?
    && videos[likes[k].target.video].owner.value in users
  }

  function LikeCreatedAt(likes: map<Id, Like>): Id -> SortKey {
    k => if k in likes then Date(likes[k].createdAt) else Missing
  }

  /** The likes behind getLikedVideos, in output order: `$match` on likedBy,
      the two `$lookup`/`$unwind` joins, `$sort` on the like's createdAt, newest first. */
  function LikedVideoIds(likes: map<Id, Like>, videos: map<Id, Video>, users: map<Id, User>, actor: Id): (r: seq<Id>)
    ensures forall k :: k in r <==> k in likes && likes[k].likedBy == actor && JoinsVideo(likes, videos, users, k)
    ensures NoDuplicates(r)
    ensures SortedBy(r, LikeCreatedAt(likes), Descending)
  {
    var matched := Filter(ScanOrder(likes), (k: Id) => k in likes && likes[k].likedBy == actor);
    var joined := Filter(matched, (k: Id) => JoinsVideo(likes, videos, users, k));
    SortKeepsMembers(joined, LikeCreatedAt(likes), Descending);
    Sort(joined, LikeCreatedAt(likes), Descending)
  }

  function ProjectLikedVideo(likes: map<Id, Like>, videos: map<Id, Video>, users: map<Id, User>, k: Id): LikedVideo
    requires JoinsVideo(likes, videos, users, k)
  {
    var vid := likes[k].target.video;
    var v := videos[vid];
    LikedVideo(vid, v.title, v.description, v.videoFile.url, v.thumbnail.url, v.owner, Summary(v.owner.value, users[v.owner.value]))
  }

  function ProjectLikedVideos(likes: map<Id, Like>, videos: map<Id, Video>, users: map<Id, User>, ids: seq<Id>): (r: seq<LikedVideo>)
    requires forall k :: k in ids ==> JoinsVideo(likes, videos, users, k)
    ensures |r| == |ids|
    ensures forall i :: 0 <= i < |ids| ==> r[i] == ProjectLikedVideo(likes, videos, users, ids[i])
  {
    if ids == [] then []
    else [ProjectLikedVideo(likes, videos, users, ids[0])] + ProjectLikedVideos(likes, videos, users, ids[1..])
  }

  /** The aggregate handed to the paginator. */
  function LikedVideoAggregate(likes: map<Id, Like>, videos: map<Id, Video>, users: map<Id, User>, actor: Id): seq<LikedVideo> {
    ProjectLikedVideos(likes, videos, users, LikedVideoIds(likes, videos, users, actor))
  }

  /** Every listed video is one the acting user liked, that exists, and whose
      owner exists; unpublished videos are not filtered out. */
  lemma LikedVideoAggregateSound(likes: map<Id, Like>, videos: map<Id, Video>, users: map<Id, User>, actor: Id, e: LikedVideo)
    requires e in LikedVideoAggregate(likes, videos, users, actor)
    ensures e.id in videos && e.owner == videos[e.id].owner && e.owner.Some?
    ensures e.ownerDetails == Summary(e.owner.value, users[e.owner.value])
    ensures exists k :: k in likes && likes[k].likedBy == actor && likes[k].target == OfVideo(e.id)
  {
    var ids := LikedVideoIds(likes, videos, users, actor);
    var all := LikedVideoAggregate(likes, videos, users, actor);
    var i :| 0 <= i < |all| && all[i] == e;
    var k := ids[i];
    assert k in ids;
    assert e == ProjectLikedVideo(likes, videos, users, k);
    assert likes[k].likedBy == actor && likes[k].target == OfVideo(e.id);
  }

  /** getLikedVideos: always succeeds; the page is cut from the aggregate above. */
  function GetLikedVideos(likes: map<Id, Like>, videos: map<Id, Video>, users: map<Id, User>, actor: Id, opts: PageOptions): (r: Response<Page<LikedVideo>>)
    requires Windowed(opts)
    ensures r.Ok? && r.status == OK
    ensures r.data.totalDocs == |LikedVideoIds(likes, videos, users, actor)|
  {
    Ok(OK, Paginate(LikedVideoAggregate(likes, videos, users, actor), opts))
  }
}
