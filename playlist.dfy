/** Playlists: creation, the two read views (the acting user's playlists, one
    playlist with its video count), adding and removing a video, deletion. */
module PlaylistController {
  import opened Base
  import opened Entities
  import opened Storage

  /** The playlist ownership guard: `playlist.owner.toString() !==
      req.user?._id.toString()`. */
  predicate OwnsPlaylist(p: Playlist, actor: Id) {
    p.owner == actor
  }

  /** createPlaylist: 400 unless both name and description are non-empty;
      otherwise 201 and a new, empty playlist owned by the acting user. */
  method CreatePlaylist(db: Store, actor: Id, name: Option<string>, description: Option<string>, now: int)
    returns (r: Response<Playlist>)
    requires db.Valid()
    modifies db
    ensures db.Valid()
    ensures r.Err? <==> !Truthy(name) || !Truthy(description)
    ensures r.Err? ==> r.status == BadRequest && db.State() == old(db.State())
    ensures r.Ok? ==>
      && r == Ok(Created, Playlist(name.value, description.value, actor, [], now))
      && db.State() == old(db.State()).(playlists := old(db.playlists)[old(db.nextId) := r.data], nextId := old(db.nextId) + 1)
  {
    if !Truthy(name) || !Truthy(description) {
      return Err(BadRequest);
    }
    var p := Playlist(name.value, description.value, actor, [], now);
    var id := db.NewId();
    db.playlists := db.playlists[id := p];
    r := Ok(Created, p);
  }

  // ------------------------------------------------------------ read views

  function ExistingVideos(videos: map<Id, Video>, list: seq<Id>): set<Id> {
    set k | k in list && k in videos
  }

  /** The videos a `$lookup` on the playlist's `videos` array joins: the listed
      ids that name an existing video, each once, in the videos table's order. */
  function JoinedVideos(videos: map<Id, Video>, list: seq<Id>): (r: seq<Id>)
    ensures forall k :: k in r <==> k in videos && k in list
    ensures NoDuplicates(r)
    ensures |r| == |ExistingVideos(videos, list)|
  {
    var r := Filter(ScanOrder(videos), (k: Id) => k in list);
    DistinctLength(r, ExistingVideos(videos, list));
    r
  }

  /** A video entry of the user's playlists: `_id`, `title`, `description` and
      the two URLs. */
  datatype PlaylistVideo = PlaylistVideo(id: Id, title: string, description: string, videoUrl: string, thumbnailUrl: string)

  datatype PlaylistSummary = PlaylistSummary(id: Id, name: string, description: string, videos: seq<PlaylistVideo>)

  function PlaylistVideos(videos: map<Id, Video>, ids: seq<Id>): (r: seq<PlaylistVideo>)
    requires forall k :: k in ids ==> k in videos
    ensures |r| == |ids|
    ensures forall i :: 0 <= i < |ids| ==>
      r[i] == PlaylistVideo(ids[i], videos[ids[i]].title, videos[ids[i]].description,
                            videos[ids[i]].videoFile.url, videos[ids[i]].thumbnail.url)
  {
    if ids == [] then []
    else
      var v := videos[ids[0]];
      [PlaylistVideo(ids[0], v.title, v.description, v.videoFile.url, v.thumbnail.url)] + PlaylistVideos(videos, ids[1..])
  }

  /** A playlist the `$match` on `owner` keeps. */
  predicate OwnedBy(playlists: map<Id, Playlist>, actor: Id, k: Id) {
    k in playlists && OwnsPlaylist(playlists[k], actor)
  }

  function OwnedPlaylists(playlists: map<Id, Playlist>, actor: Id): set<Id> {
    set k | k in playlists && OwnedBy(playlists, actor, k)
  }

  function OwnedPlaylistIds(playlists: map<Id, Playlist>, actor: Id): (r: seq<Id>)
    ensures NoDuplicates(r)
    ensures |r| == |OwnedPlaylists(playlists, actor)|
    ensures forall i :: 0 <= i < |r| ==> r[i] in playlists
    ensures forall i :: 0 <= i < |r| ==> OwnedBy(playlists, actor, r[i])
  {
    var r := Filter(ScanOrder(playlists), (k: Id) => OwnedBy(playlists, actor, k));
    DistinctLength(r, OwnedPlaylists(playlists, actor));
    forall i | 0 <= i < |r|
      ensures OwnedBy(playlists, actor, r[i])
    {
      assert r[i] in r;
    }
    r
  }

  /** One entry of getUserPlaylists: the playlist's name and description and
      the projection of the videos it joins. */
  function Summarise(playlists: map<Id, Playlist>, videos: map<Id, Video>, k: Id): (e: PlaylistSummary)
    requires k in playlists
    ensures e.id == k
  {
    var p := playlists[k];
    PlaylistSummary(k, p.name, p.description, PlaylistVideos(videos, JoinedVideos(videos, p.videos)))
  }

  /** An entry lists each existing video of its playlist once: as many entries
      as existing listed videos, each of them an existing listed video. */
  lemma SummaryVideos(playlists: map<Id, Playlist>, videos: map<Id, Video>, k: Id)
    requires k in playlists
    ensures var e := Summarise(playlists, videos, k);
      && |e.videos| == |ExistingVideos(videos, playlists[k].videos)|
      && forall j :: 0 <= j < |e.videos| ==> e.videos[j].id in videos && e.videos[j].id in playlists[k].videos
  {
    var joined := JoinedVideos(videos, playlists[k].videos);
    var e := Summarise(playlists, videos, k);
    forall j | 0 <= j < |e.videos|
      ensures e.videos[j].id in videos && e.videos[j].id in playlists[k].videos
    {
      assert joined[j] in joined;
    }
  }

  function Summaries(playlists: map<Id, Playlist>, videos: map<Id, Video>, ids: seq<Id>): (r: seq<PlaylistSummary>)
    requires forall i :: 0 <= i < |ids| ==> ids[i] in playlists
    ensures |r| == |ids|
  {
    if ids == [] then [] else [Summarise(playlists, videos, ids[0])] + Summaries(playlists, videos, ids[1..])
  }

  /** The `i`-th entry of the summaries is the summary of the `i`-th playlist. */
  lemma {:induction false} SummariesAt(playlists: map<Id, Playlist>, videos: map<Id, Video>, ids: seq<Id>, i: nat)
    requires forall j :: 0 <= j < |ids| ==> ids[j] in playlists
    requires i < |ids|
    ensures Summaries(playlists, videos, ids)[i] == Summarise(playlists, videos, ids[i])
  {
    if i > 0 {
      SummariesAt(playlists, videos, ids[1..], i - 1);
      assert ids[1..][i - 1] == ids[i];
    }
  }

  /** getUserPlaylists: one entry per playlist the acting user owns. Which
      entries those are is stated by the three lemmas below. */
  function GetUserPlaylists(playlists: map<Id, Playlist>, videos: map<Id, Video>, actor: Id): (r: Response<seq<PlaylistSummary>>)
    ensures r.Ok? && r.status == OK
    ensures |r.data| == |OwnedPlaylists(playlists, actor)|
  {
    var ids := OwnedPlaylistIds(playlists, actor);
    Ok(OK, Summaries(playlists, videos, ids))
  }

  /** The `i`-th entry of getUserPlaylists summarises the `i`-th owned playlist. */
  lemma UserPlaylistAt(playlists: map<Id, Playlist>, videos: map<Id, Video>, actor: Id, i: nat)
    requires i < |OwnedPlaylistIds(playlists, actor)|
    ensures i < |GetUserPlaylists(playlists, videos, actor).data|
    ensures OwnedPlaylistIds(playlists, actor)[i] in playlists
    ensures GetUserPlaylists(playlists, videos, actor).data[i] == Summarise(playlists, videos, OwnedPlaylistIds(playlists, actor)[i])
  {
    SummariesAt(playlists, videos, OwnedPlaylistIds(playlists, actor), i);
  }

  /** Each entry of getUserPlaylists is the summary of a playlist the acting
      user owns, with that playlist's name and description. */
  lemma UserPlaylistOwned(playlists: map<Id, Playlist>, videos: map<Id, Video>, actor: Id, i: nat)
    requires i < |GetUserPlaylists(playlists, videos, actor).data|
    ensures var e := GetUserPlaylists(playlists, videos, actor).data[i];
      && OwnedBy(playlists, actor, e.id)
      && e.name == playlists[e.id].name && e.description == playlists[e.id].description
  {
    UserPlaylistAt(playlists, videos, actor, i);
  }

  /** No playlist appears twice; with the count in getUserPlaylists' contract,
      every owned playlist appears. */
  lemma UserPlaylistsDistinct(playlists: map<Id, Playlist>, videos: map<Id, Video>, actor: Id, i: nat, j: nat)
    requires i < j < |GetUserPlaylists(playlists, videos, actor).data|
    ensures GetUserPlaylists(playlists, videos, actor).data[i].id != GetUserPlaylists(playlists, videos, actor).data[j].id
  {
    UserPlaylistAt(playlists, videos, actor, i);
    UserPlaylistAt(playlists, videos, actor, j);
    var ids := OwnedPlaylistIds(playlists, actor);
    assert ids[i] != ids[j];
  }

  /** Each entry of getUserPlaylists carries the existing videos its playlist
      lists, each once. */
  lemma UserPlaylistVideos(playlists: map<Id, Playlist>, videos: map<Id, Video>, actor: Id, i: nat)
    requires i < |GetUserPlaylists(playlists, videos, actor).data|
    ensures var e := GetUserPlaylists(playlists, videos, actor).data[i];
      && e.id in playlists
      && |e.videos| == |ExistingVideos(videos, playlists[e.id].videos)|
      && forall j :: 0 <= j < |e.videos| ==> e.videos[j].id in videos && e.videos[j].id in playlists[e.id].videos
  {
    UserPlaylistAt(playlists, videos, actor, i);
    SummaryVideos(playlists, videos, OwnedPlaylistIds(playlists, actor)[i]);
  }

  /** A video entry of one playlist's view: as above, with `createdAt`. The
      owner each entry is joined with is not among the projected fields. */
  datatype DetailVideo = DetailVideo(id: Id, title: string, description: string, videoUrl: string, thumbnailUrl: string, createdAt: int)

  /** The one document of getPlaylistById's aggregate. The projection names
      sub-fields of `owner`, which holds an identifier, so no owner is shown. */
  datatype PlaylistDetail = PlaylistDetail(id: Id, name: string, description: string, totalvideos: nat, videos: seq<DetailVideo>)

  function DetailVideos(videos: map<Id, Video>, ids: seq<Id>): (r: seq<DetailVideo>)
    requires forall k :: k in ids ==> k in videos
    ensures |r| == |ids|
    ensures forall i :: 0 <= i < |ids| ==>
      r[i] == DetailVideo(ids[i], videos[ids[i]].title, videos[ids[i]].description,
                          videos[ids[i]].videoFile.url, videos[ids[i]].thumbnail.url, videos[ids[i]].createdAt)
  {
    if ids == [] then []
    else
      var v := videos[ids[0]];
      [DetailVideo(ids[0], v.title, v.description, v.videoFile.url, v.thumbnail.url, v.createdAt)] + DetailVideos(videos, ids[1..])
  }

  /** getPlaylistById: 400 for an invalid id, 404 for a missing playlist;
      otherwise a one-element array whose `totalvideos` is the number of
      existing videos the playlist lists, and equals the length of `videos`. */
  function GetPlaylistById(playlists: map<Id, Playlist>, videos: map<Id, Video>, playlistId: RawId): (r: Response<seq<PlaylistDetail>>)
    ensures !IsValidObjectId(playlistId) ==> r == Err(BadRequest)
    ensures IsValidObjectId(playlistId) && playlistId.id !in playlists ==> r == Err(NotFound)
    ensures IsValidObjectId(playlistId) && playlistId.id in playlists ==>
      && r.Ok? && r.status == OK && |r.data| == 1
      && var d := r.data[0];
      && var p := playlists[playlistId.id];
      && d.id == playlistId.id && d.name == p.name && d.description == p.description
      && d.totalvideos == |d.videos| == |ExistingVideos(videos, p.videos)|
      && d.videos == DetailVideos(videos, JoinedVideos(videos, p.videos))
      && (forall i :: 0 <= i < |d.videos| ==> d.videos[i].id in videos && d.videos[i].id in p.videos)
      && (forall i, j :: 0 <= i < j < |d.videos| ==> d.videos[i].id != d.videos[j].id)
  {
    if !IsValidObjectId(playlistId) then Err(BadRequest)
    else if playlistId.id !in playlists then Err(NotFound)
    else
      var p := playlists[playlistId.id];
      var joined := JoinedVideos(videos, p.videos);
      var shown := DetailVideos(videos, joined);
      forall i | 0 <= i < |shown|
        ensures shown[i].id in videos && shown[i].id in p.videos
      {
        assert joined[i] in joined;
      }
      Ok(OK, [PlaylistDetail(playlistId.id, p.name, p.description, |shown|, shown)])
  }

  // ------------------------------------------------------------- mutations

  /** addVideoToPlaylist. Checks, in order: both ids (400), the playlist (404),
      the video (404), the ownership guard (403), the video already listed
      (400). Then the video is appended to the playlist's list. */
  method AddVideoToPlaylist(db: Store, playlistId: RawId, videoId: RawId, actor: Id) returns (r: Response<Playlist>)
    requires db.Valid()
    modifies db
    ensures db.Valid()
    ensures r.Err? ==> db.State() == old(db.State())
    ensures !IsValidObjectId(playlistId) || !IsValidObjectId(videoId) ==> r == Err(BadRequest)
    ensures IsValidObjectId(playlistId) && IsValidObjectId(videoId) ==>
      var pid, vid := playlistId.id, videoId.id;
      && (pid !in old(db.playlists) ==> r == Err(NotFound))
      && (pid in old(db.playlists) && vid !in old(db.videos) ==> r == Err(NotFound))
      && (pid in old(db.playlists) && vid in old(db.videos) ==>
            var p := old(db.playlists)[pid];
            && (!OwnsPlaylist(p, actor) ==> r == Err(Forbidden))
            && (OwnsPlaylist(p, actor) && vid in p.videos ==> r == Err(BadRequest))
            && (OwnsPlaylist(p, actor) && vid !in p.videos ==>
                  && r == Ok(OK, p.(videos := p.videos + [vid]))
                  && db.State() == old(db.State()).(playlists := old(db.playlists)[pid := r.data])))
  {
    if !IsValidObjectId(playlistId) || !IsValidObjectId(videoId) {
      return Err(BadRequest);
    }
    var pid, vid := playlistId.id, videoId.id;
    if pid !in db.playlists {
      return Err(NotFound);
    }
    if vid !in db.videos {
      return Err(NotFound);
    }
    var p := db.playlists[pid];
    if !OwnsPlaylist(p, actor) {
      return Err(Forbidden);
    }
    if vid in p.videos {
      return Err(BadRequest);
    }
    var updated := p.(videos := p.videos + [vid]);
    AppendKeepsDistinct(p.videos, vid);
    db.playlists := db.playlists[pid := updated];
    r := Ok(OK, updated);
  }

  lemma AppendKeepsDistinct(s: seq<Id>, x: Id)
    requires NoDuplicates(s) && x !in s
    ensures NoDuplicates(s + [x])
  {
    forall i, j | 0 <= i < j < |s + [x]|
      ensures (s + [x])[i] != (s + [x])[j]
    {
      if j == |s| {
        assert (s + [x])[i] == s[i];
      }
    }
  }

  /** removeVideoFromPlaylist. Checks, in order: both ids (400), the playlist
      (404), the video (404), the ownership guard (403). Then every occurrence
      of the video is pulled from the list; a video that was not listed leaves
      it as it was. */
  method RemoveVideoFromPlaylist(db: Store, playlistId: RawId, videoId: RawId, actor: Id) returns (r: Response<Playlist>)
    requires db.Valid()
    modifies db
    ensures db.Valid()
    ensures r.Err? ==> db.State() == old(db.State())
    ensures !IsValidObjectId(playlistId) || !IsValidObjectId(videoId) ==> r == Err(BadRequest)
    ensures IsValidObjectId(playlistId) && IsValidObjectId(videoId) ==>
      var pid, vid := playlistId.id, videoId.id;
      && (pid !in old(db.playlists) ==> r == Err(NotFound))
      && (pid in old(db.playlists) && vid !in old(db.videos) ==> r == Err(NotFound))
      && (pid in old(db.playlists) && vid in old(db.videos) ==>
            var p := old(db.playlists)[pid];
            && (!OwnsPlaylist(p, actor) ==> r == Err(Forbidden))
            && (OwnsPlaylist(p, actor) ==>
                  && r == Ok(OK, p.(videos := Without(p.videos, vid)))
                  && db.State() == old(db.State()).(playlists := old(db.playlists)[pid := r.data])))
  {
    if !IsValidObjectId(playlistId) || !IsValidObjectId(videoId) {
      return Err(BadRequest);
    }
    var pid, vid := playlistId.id, videoId.id;
    if pid !in db.playlists {
      return Err(NotFound);
    }
    if vid !in db.videos {
      return Err(NotFound);
    }
    var p := db.playlists[pid];
    if !OwnsPlaylist(p, actor) {
      return Err(Forbidden);
    }
    var updated := p.(videos := Without(p.videos, vid));
    db.playlists := db.playlists[pid := updated];
    r := Ok(OK, updated);
  }

  /** deletePlaylist: 400 for an invalid id, 404 for a missing playlist, 403
      for anybody but its owner; by the owner the playlist is removed. */
  method DeletePlaylist(db: Store, playlistId: RawId, actor: Id) returns (r: Response<()>)
    requires db.Valid()
    modifies db
    ensures db.Valid()
    ensures r.Err? ==> db.State() == old(db.State())
    ensures !IsValidObjectId(playlistId) ==> r == Err(BadRequest)
    ensures IsValidObjectId(playlistId) ==>
      var pid := playlistId.id;
      && (pid !in old(db.playlists) ==> r == Err(NotFound))
      && (pid in old(db.playlists) && !OwnsPlaylist(old(db.playlists)[pid], actor) ==> r == Err(Forbidden))
      && (pid in old(db.playlists) && OwnsPlaylist(old(db.playlists)[pid], actor) ==>
            && r == Ok(OK, ())
            && db.State() == old(db.State()).(playlists := old(db.playlists) - {pid}))
  {
    if !IsValidObjectId(playlistId) {
      return Err(BadRequest);
    }
    var pid := playlistId.id;
    if pid !in db.playlists {
      return Err(NotFound);
    }
    if !OwnsPlaylist(db.playlists[pid], actor) {
      return Err(Forbidden);
    }
    db.playlists := db.playlists - {pid};
    r := Ok(OK, ());
  }

  // -------------------------------------------------------------- lemmas

  /** Adding a video that was not listed and then removing it gives the list
      back. */
  lemma {:induction false} RemoveUndoesAdd(s: seq<Id>, v: Id)
    requires v !in s
    ensures Without(s + [v], v) == s
  {
    if s == [] {
      assert [] + [v] == [v];
    } else {
      RemoveUndoesAdd(s[1..], v);
      assert s + [v] == [s[0]] + (s[1..] + [v]);
      assert (s + [v])[1..] == s[1..] + [v];
      assert s == [s[0]] + s[1..];
    }
  }

  /** Removing twice is removing once. */
  lemma RemoveIdempotent(s: seq<Id>, v: Id)
    ensures Without(Without(s, v), v) == Without(s, v)
  {
  }

  /** Adding an existing video raises `totalvideos` by one; removing a listed
      existing video lowers it by one. */
  lemma TotalAfterAdd(videos: map<Id, Video>, s: seq<Id>, v: Id)
    requires v in videos && v !in s
    ensures |ExistingVideos(videos, s + [v])| == |ExistingVideos(videos, s)| + 1
  {
    assert ExistingVideos(videos, s + [v]) == ExistingVideos(videos, s) + {v};
  }

  lemma TotalAfterRemove(videos: map<Id, Video>, s: seq<Id>, v: Id)
    requires v in videos && v in s
    ensures |ExistingVideos(videos, Without(s, v))| == |ExistingVideos(videos, s)| - 1
  {
    assert ExistingVideos(videos, Without(s, v)) == ExistingVideos(videos, s) - {v};
  }
}
