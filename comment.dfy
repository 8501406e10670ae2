/** Comments: the paginated listing of a video's comments with their like
    counts, and the owner-only create, update and delete. */
module CommentController {
  import opened Base
  import opened Entities
  import opened Storage
  import opened Pagination
  import opened LikeController

  /** The comments a `$match` on `video` keeps. */
  function CommentsOn(comments: map<Id, Comment>, video: Id): set<Id> {
    set k | k in comments && comments[k].video == video
  }

  function CommentIds(comments: map<Id, Comment>, video: Id): (r: seq<Id>)
    ensures forall k :: k in r <==> k in comments && comments[k].video == video
    ensures NoDuplicates(r)
    ensures |r| == |CommentsOn(comments, video)|
  {
    var r := Filter(ScanOrder(comments), (k: Id) => k in comments && comments[k].video == video);
    DistinctLength(r, CommentsOn(comments, video));
    r
  }

  /** One listed comment: its `_id`, `content`, `createdAt`, `likeCount`, and the
      owner restricted to `_id`, `fullName` and `username`. `$first`
      of an empty join leaves `owner` out, so a comment whose owner is gone is
      still listed, without one. */
  datatype ListedComment = ListedComment(id: Id, content: string, createdAt: int, likeCount: nat, owner: Option<UserSummary>)

  function ListComment(comments: map<Id, Comment>, users: map<Id, User>, likes: map<Id, Like>, k: Id): ListedComment
    requires k in comments
  {
    var c := comments[k];
    ListedComment(k, c.content, c.createdAt, LikeCount(likes, OfComment(k)),
                  if c.owner in users then Some(Summary(c.owner, users[c.owner])) else None)
  }

  /** What a listed comment says about the stored one. */
  predicate Describes(comments: map<Id, Comment>, users: map<Id, User>, likes: map<Id, Like>, video: Id, e: ListedComment) {
    && e.id in comments
    && comments[e.id].video == video
    && e.content == comments[e.id].content
    && e.createdAt == comments[e.id].createdAt
    && e.likeCount == LikeCount(likes, OfComment(e.id))
    && (e.owner.Some? <==> comments[e.id].owner in users)
    && (e.owner.Some? ==> e.owner.value == Summary(comments[e.id].owner, users[comments[e.id].owner]))
  }

  function ListComments(comments: map<Id, Comment>, users: map<Id, User>, likes: map<Id, Like>, video: Id, ids: seq<Id>): (r: seq<ListedComment>)
    requires forall k :: k in ids ==> k in comments && comments[k].video == video
    ensures |r| == |ids|
    ensures forall i :: 0 <= i < |ids| ==> r[i].id == ids[i] && Describes(comments, users, likes, video, r[i])
  {
    if ids == [] then []
    else [ListComment(comments, users, likes, ids[0])] + ListComments(comments, users, likes, video, ids[1..])
  }

  /** fetchAllComments: 400 for an invalid id or a video that does not exist;
      otherwise a page of the video's comments, every one of them as stored with
      its own like count. */
  function FetchAllComments(videos: map<Id, Video>, comments: map<Id, Comment>, users: map<Id, User>, likes: map<Id, Like>,
                            videoId: RawId, opts: PageOptions): (r: Response<Page<ListedComment>>)
    requires Windowed(opts)
    ensures r.Err? <==> !IsValidObjectId(videoId) || videoId.id !in videos
    ensures r.Err? ==> r.status == BadRequest
    ensures r.Ok? ==> r.status == OK && r.data.totalDocs == |CommentsOn(comments, videoId.id)|
    ensures r.Ok? ==> forall e :: e in r.data.docs ==> Describes(comments, users, likes, videoId.id, e)
  {
    if !IsValidObjectId(videoId) then Err(BadRequest)
    else if videoId.id !in videos then Err(BadRequest)
    else
      var video := videoId.id;
      var all := ListComments(comments, users, likes, video, CommentIds(comments, video));
      PageDescribes(comments, users, likes, video, all, opts);
      Ok(OK, Paginate(all, opts))
  }

  lemma PageDescribes(comments: map<Id, Comment>, users: map<Id, User>, likes: map<Id, Like>, video: Id,
                      all: seq<ListedComment>, opts: PageOptions)
    requires Windowed(opts)
    requires forall i :: 0 <= i < |all| ==> Describes(comments, users, likes, video, all[i])
    ensures forall e :: e in Paginate(all, opts).docs ==> Describes(comments, users, likes, video, e)
  {
    forall e | e in Paginate(all, opts).docs
      ensures Describes(comments, users, likes, video, e)
    {
      PageDocsFromResult(all, opts, e);
      var i :| 0 <= i < |all| && all[i] == e;
    }
  }

  // ------------------------------------------------------------- mutations

  /** addComment: 400 for an invalid id or a video that does not exist;
      otherwise a new comment on that video, owned by the acting user. */
  method AddComment(db: Store, videoId: RawId, actor: Id, content: string, now: int) returns (r: Response<Comment>)
    requires db.Valid()
    modifies db
    ensures db.Valid()
    ensures r.Err? <==> !IsValidObjectId(videoId) || videoId.id !in old(db.videos)
    ensures r.Err? ==> r.status == BadRequest && db.State() == old(db.State())
    ensures r.Ok? ==>
      && r == Ok(OK, Comment(content, videoId.id, actor, now))
      && db.State() == old(db.State()).(comments := old(db.comments)[old(db.nextId) := r.data], nextId := old(db.nextId) + 1)
  {
    if !IsValidObjectId(videoId) {
      return Err(BadRequest);
    }
    if videoId.id !in db.videos {
      return Err(BadRequest);
    }
    var c := Comment(content, videoId.id, actor, now);
    var id := db.NewId();
    db.comments := db.comments[id := c];
    r := Ok(OK, c);
  }

  /** updateComment: 400 for an invalid id or a missing comment, 403 for
      anybody but its owner; by the owner only `content` changes. The check
      after the update tests the handler itself rather than its result, so it
      never fails. */
  method UpdateComment(db: Store, commentId: RawId, actor: Id, content: string) returns (r: Response<Comment>)
    requires db.Valid()
    modifies db
    ensures db.Valid()
    ensures r.Err? ==> db.State() == old(db.State())
    ensures !IsValidObjectId(commentId) || commentId.id !in old(db.comments) ==> r == Err(BadRequest)
    ensures IsValidObjectId(commentId) && commentId.id in old(db.comments) ==>
      var id := commentId.id;
      && (old(db.comments)[id].owner != actor ==> r == Err(Forbidden))
      && (old(db.comments)[id].owner == actor ==>
            && r == Ok(OK, old(db.comments)[id].(content := content))
            && db.State() == old(db.State()).(comments := old(db.comments)[id := r.data]))
  {
    if !IsValidObjectId(commentId) {
      return Err(BadRequest);
    }
    var id := commentId.id;
    if id !in db.comments {
      return Err(BadRequest);
    }
    if db.comments[id].owner != actor {
      return Err(Forbidden);
    }
    var updated := db.comments[id].(content := content);
    db.comments := db.comments[id := updated];
    r := Ok(OK, updated);
  }

  /** deleteComment: 400 for an invalid id or a missing comment, 403 for
      anybody but its owner; by the owner the comment is removed. Its likes are
      left in place. */
  method DeleteComment(db: Store, commentId: RawId, actor: Id) returns (r: Response<()>)
    requires db.Valid()
    modifies db
    ensures db.Valid()
    ensures r.Err? ==> db.State() == old(db.State())
    ensures !IsValidObjectId(commentId) || commentId.id !in old(db.comments) ==> r == Err(BadRequest)
    ensures IsValidObjectId(commentId) && commentId.id in old(db.comments) ==>
      var id := commentId.id;
      && (old(db.comments)[id].owner != actor ==> r == Err(Forbidden))
      && (old(db.comments)[id].owner == actor ==>
            && r == Ok(OK, ())
            && id !in db.comments
            && db.State() == old(db.State()).(comments := old(db.comments) - {id}))
  {
    if !IsValidObjectId(commentId) {
      return Err(BadRequest);
    }
    var id := commentId.id;
    if id !in db.comments {
      return Err(BadRequest);
    }
    if db.comments[id].owner != actor {
      return Err(Forbidden);
    }
    db.comments := db.comments - {id};
    r := Ok(OK, ());
  }

  /** Adding a comment to a video raises that video's comment count by one and
      leaves every other video's count alone. */
  lemma CommentsOnAfterAdd(comments: map<Id, Comment>, c: Comment, newId: Id, video: Id)
    requires newId !in comments
    ensures |CommentsOn(comments[newId := c], video)| ==
      if c.video == video then |CommentsOn(comments, video)| + 1 else |CommentsOn(comments, video)|
  {
    if c.video == video {
      assert CommentsOn(comments[newId := c], video) == CommentsOn(comments, video) + {newId};
    } else {
      assert CommentsOn(comments[newId := c], video) == CommentsOn(comments, video);
    }
  }

  /** Deleting a comment lowers its video's comment count by one. */
  lemma CommentsOnAfterDelete(comments: map<Id, Comment>, id: Id)
    requires id in comments
    ensures |CommentsOn(comments - {id}, comments[id].video)| == |CommentsOn(comments, comments[id].video)| - 1
  {
    assert CommentsOn(comments - {id}, comments[id].video) == CommentsOn(comments, comments[id].video) - {id};
  }
}
