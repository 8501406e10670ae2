/** The documents of the six collections, and the calls made to the external
    asset store. */
module Entities {
  import opened Base

  /** A file kept on the asset store: its public URL and its asset-store identifier. */
  datatype Asset = Asset(url: string, publicId: string)

  /** What the asset store answers to a successful upload. */
  datatype Uploaded = Uploaded(url: string, publicId: string, duration: int)

  /** A user. `avatar` and `coverImage` hold URLs, as registration stores them;
      `password` is kept as handed to the ODM (hashing is not modelled). */
  datatype User = User(
    username: string,
    email: string,
    fullName: string,
    avatar: string,
    coverImage: string,
    password: string,
    refreshToken: Option<string>,
    watchHistory: seq<Id>,
    createdAt: int)

  /** A video. `owner` is whatever the publishing request carried as its user. */
  datatype Video = Video(
    videoFile: Asset,
    thumbnail: Asset,
    title: string,
    description: string,
    duration: int,
    views: nat,
    isPublished: bool,
    owner: Option<Id>,
    createdAt: int)

  datatype Comment = Comment(content: string, video: Id, owner: Id, createdAt: int)

  /** A like points at exactly one thing: a video or a comment. */
  datatype LikeTarget = OfVideo(video: Id) | OfComment(comment: Id)

  datatype Like = Like(target: LikeTarget, likedBy: Id, createdAt: int)

  datatype Subscription = Subscription(subscriber: Id, channel: Id, createdAt: int)

  datatype Playlist = Playlist(name: string, description: string, owner: Id, videos: seq<Id>, createdAt: int)

  /** A call to the asset store, in the order the handlers make them. */
  datatype Event = Upload(localPath: Option<string>) | Destroy(publicId: string)

  /** The files multer attached to a request, by field name. */
  type Files = map<string, seq<string>>

  /** `req.files?.<field>[0]?.path`: no files at all gives `undefined`; files
      without that field make `[0]` throw (500); an empty list gives `undefined`. */
  function LocalPath(files: Option<Files>, field: string): (r: Response<Option<string>>)
    ensures r.Err? <==> files.Some? && field !in files.value
    ensures r.Err? ==> r.status == ServerError
    ensures r.Ok? && r.data.Some? <==> files.Some? && field in files.value && files.value[field] != []
    ensures r.Ok? && r.data.Some? ==> r.data.value == files.value[field][0]
  {
    if files.None? then Ok(OK, None)
    else if field !in files.value then Err(ServerError)
    else if files.value[field] == [] then Ok(OK, None)
    else Ok(OK, Some(files.value[field][0]))
  }

  /** The user sub-document the listings project: `_id`, `username` and
      `fullName`. The projections also name `avatar.url`, but `avatar` holds a
      URL string, and a sub-field of a string is not there to project. */
  datatype UserSummary = UserSummary(id: Id, username: string, fullName: string)

  function Summary(id: Id, u: User): UserSummary {
    UserSummary(id, u.username, u.fullName)
  }
}
