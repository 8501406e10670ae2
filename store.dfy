/** The entity store: one table per collection, the log of calls made to the
    asset store, and the allocator of new document identifiers. */
module Storage {
  import opened Base
  import opened Entities

  /** A snapshot of everything the store holds. */
  datatype Db = Db(
    users: map<Id, User>,
    videos: map<Id, Video>,
    comments: map<Id, Comment>,
    likes: map<Id, Like>,
    subscriptions: map<Id, Subscription>,
    playlists: map<Id, Playlist>,
    log: seq<Event>,
    nextId: nat)

  predicate KeysBelow<T>(m: map<Id, T>, n: nat) {
    forall k :: k in m ==> k < n
  }

  /** At most one like per (target, likedBy) pair: what the look-up before every
      insert in the like toggles maintains. */
  predicate LikesUnique(likes: map<Id, Like>) {
    forall a, b :: a in likes && b in likes && a != b ==>
      likes[a].target != likes[b].target || likes[a].likedBy != likes[b].likedBy
  }

  /** At most one subscription per (subscriber, channel) pair. */
  predicate SubscriptionsUnique(subscriptions: map<Id, Subscription>) {
    forall a, b :: a in subscriptions && b in subscriptions && a != b ==>
      subscriptions[a].subscriber != subscriptions[b].subscriber
      || subscriptions[a].channel != subscriptions[b].channel
  }

  /** Every playlist's video list is duplicate-free. */
  predicate PlaylistsDuplicateFree(playlists: map<Id, Playlist>) {
    forall k :: k in playlists ==> NoDuplicates(playlists[k].videos)
  }

  predicate ValidDb(d: Db) {
    && KeysBelow(d.users, d.nextId)
    && KeysBelow(d.videos, d.nextId)
    && KeysBelow(d.comments, d.nextId)
    && KeysBelow(d.likes, d.nextId)
    && KeysBelow(d.subscriptions, d.nextId)
    && KeysBelow(d.playlists, d.nextId)
    && LikesUnique(d.likes)
    && SubscriptionsUnique(d.subscriptions)
    && PlaylistsDuplicateFree(d.playlists)
  }

  class Store {
    var users: map<Id, User>
    var videos: map<Id, Video>
    var comments: map<Id, Comment>
    var likes: map<Id, Like>
    var subscriptions: map<Id, Subscription>
    var playlists: map<Id, Playlist>
    /** Calls made to the asset store, oldest first. */
    var log: seq<Event>
    /** The next identifier the ODM hands out. */
    var nextId: nat

    function State(): Db
      reads this
    {
      Db(users, videos, comments, likes, subscriptions, playlists, log, nextId)
    }

    predicate Valid()
      reads this
    {
      ValidDb(State())
    }

    constructor ()
      ensures Valid()
      ensures State() == Db(map[], map[], map[], map[], map[], map[], [], 0)
    {
      users, videos, comments, likes := map[], map[], map[], map[];
      subscriptions, playlists, log, nextId := map[], map[], [], 0;
    }

    /** A new document identifier, distinct from every identifier in use. */
    method NewId() returns (id: Id)
      requires Valid()
      modifies this
      ensures Valid()
      ensures id == old(nextId)
      ensures State() == old(State()).(nextId := id + 1)
      ensures id !in users && id !in videos && id !in comments
      ensures id !in likes && id !in subscriptions && id !in playlists
    {
      id := nextId;
      nextId := nextId + 1;
    }
  }
}
