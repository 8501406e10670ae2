/** Subscriptions: the toggle and the two listings (a channel's subscribers,
    the channels a user subscribes to). */
module SubscriptionController {
  import opened Base
  import opened Entities
  import opened Storage

  predicate Subscribes(s: Subscription, subscriber: Id, channel: Id) {
    s.subscriber == subscriber && s.channel == channel
  }

  /** `findOne({channel, subscriber})` finds something. */
  predicate IsSubscribed(subscriptions: map<Id, Subscription>, subscriber: Id, channel: Id) {
    exists k :: k in subscriptions && Subscribes(subscriptions[k], subscriber, channel)
  }

  /** All subscriptions except the pair's. */
  function OtherSubscriptions(subscriptions: map<Id, Subscription>, subscriber: Id, channel: Id): map<Id, Subscription> {
    map k | k in subscriptions && !Subscribes(subscriptions[k], subscriber, channel) :: subscriptions[k]
  }

  /** The (subscriber, channel) pairs the table records. */
  function SubscriptionPairs(subscriptions: map<Id, Subscription>): set<(Id, Id)> {
    set k | k in subscriptions :: (subscriptions[k].subscriber, subscriptions[k].channel)
  }

  /** The table after a toggle: the pair's subscription deleted if there is
      one, otherwise a new one `newId` created. Nothing forbids a user from
      subscribing to themself. */
  function ToggleSubscriptions(subscriptions: map<Id, Subscription>, subscriber: Id, channel: Id, newId: Id, now: int): map<Id, Subscription> {
    if IsSubscribed(subscriptions, subscriber, channel) then OtherSubscriptions(subscriptions, subscriber, channel)
    else subscriptions[newId := Subscription(subscriber, channel, now)]
  }

  /** A toggle flips the pair's presence, touches no other subscription, and
      keeps the table free of duplicate pairs. */
  lemma ToggleSubscriptionsFlips(subscriptions: map<Id, Subscription>, subscriber: Id, channel: Id, newId: Id, now: int)
    requires newId !in subscriptions
    ensures IsSubscribed(ToggleSubscriptions(subscriptions, subscriber, channel, newId, now), subscriber, channel)
         == !IsSubscribed(subscriptions, subscriber, channel)
    ensures OtherSubscriptions(ToggleSubscriptions(subscriptions, subscriber, channel, newId, now), subscriber, channel)
         == OtherSubscriptions(subscriptions, subscriber, channel)
    ensures SubscriptionsUnique(subscriptions) ==>
      SubscriptionsUnique(ToggleSubscriptions(subscriptions, subscriber, channel, newId, now))
  {
    var r := ToggleSubscriptions(subscriptions, subscriber, channel, newId, now);
    if !IsSubscribed(subscriptions, subscriber, channel) {
      assert Subscribes(r[newId], subscriber, channel);
    }
  }

  /** Two toggles of the same pair restore the recorded pairs; starting from no
      subscription they restore the table itself. */
  lemma ToggleSubscriptionsTwice(subscriptions: map<Id, Subscription>, subscriber: Id, channel: Id,
                                 f1: Id, n1: int, f2: Id, n2: int)
    requires f1 !in subscriptions && SubscriptionsUnique(subscriptions)
    requires f2 !in ToggleSubscriptions(subscriptions, subscriber, channel, f1, n1)
    ensures var twice := ToggleSubscriptions(ToggleSubscriptions(subscriptions, subscriber, channel, f1, n1), subscriber, channel, f2, n2);
      && SubscriptionPairs(twice) == SubscriptionPairs(subscriptions)
      && (!IsSubscribed(subscriptions, subscriber, channel) ==> twice == subscriptions)
  {
    var once := ToggleSubscriptions(subscriptions, subscriber, channel, f1, n1);
    var twice := ToggleSubscriptions(once, subscriber, channel, f2, n2);
    ToggleSubscriptionsFlips(subscriptions, subscriber, channel, f1, n1);
    if IsSubscribed(subscriptions, subscriber, channel) {
      var k :| k in subscriptions && Subscribes(subscriptions[k], subscriber, channel);
      assert twice == once[f2 := Subscription(subscriber, channel, n2)];
      forall p | p in SubscriptionPairs(subscriptions)
        ensures p in SubscriptionPairs(twice)
      {
        var j :| j in subscriptions && p == (subscriptions[j].subscriber, subscriptions[j].channel);
        if Subscribes(subscriptions[j], subscriber, channel) {
          assert p == (twice[f2].subscriber, twice[f2].channel);
        } else {
          assert j in twice;
        }
      }
      forall p | p in SubscriptionPairs(twice)
        ensures p in SubscriptionPairs(subscriptions)
      {
        var j :| j in twice && p == (twice[j].subscriber, twice[j].channel);
        if j == f2 {
          assert p == (subscriptions[k].subscriber, subscriptions[k].channel);
        } else {
          assert j in subscriptions;
        }
      }
    } else {
      assert once == subscriptions[f1 := Subscription(subscriber, channel, n1)];
      assert IsSubscribed(once, subscriber, channel);
      assert twice == OtherSubscriptions(once, subscriber, channel);
      assert twice == subscriptions;
    }
  }

  /** toggleSubscription: 400 for an invalid channel id; otherwise the acting
      user's subscription to the channel is deleted if it exists and created if
      not, whether or not the channel is an existing user. */
  method ToggleSubscription(db: Store, channelId: RawId, actor: Id, now: int) returns (r: Response<Presence>)
    requires db.Valid()
    modifies db
    ensures db.Valid()
    ensures !IsValidObjectId(channelId) ==> r == Err(BadRequest) && db.State() == old(db.State())
    ensures IsValidObjectId(channelId) ==>
      && r == Ok(OK, if old(IsSubscribed(db.subscriptions, actor, channelId.id)) then Absent else Present)
      && db.State() == old(db.State()).(
        subscriptions := ToggleSubscriptions(old(db.subscriptions), actor, channelId.id, old(db.nextId), now),
        nextId := if r.data == Present then old(db.nextId) + 1 else old(db.nextId))
  {
    if !IsValidObjectId(channelId) {
      return Err(BadRequest);
    }
    var channel := channelId.id;
    ToggleSubscriptionsFlips(db.subscriptions, actor, channel, db.nextId, now);
    if k :| k in db.subscriptions && Subscribes(db.subscriptions[k], actor, channel) {
      assert forall j :: j in db.subscriptions && Subscribes(db.subscriptions[j], actor, channel) ==> j == k;
      db.subscriptions := map j | j in db.subscriptions && j != k :: db.subscriptions[j];
      r := Ok(OK, Absent);
    } else {
      var id := db.NewId();
      db.subscriptions := db.subscriptions[id := Subscription(actor, channel, now)];
      r := Ok(OK, Present);
    }
  }

  // ---------------------------------------------------------------- listings

  /** A subscription to `channel` whose subscriber is an existing user (the
      `$unwind` after the `$lookup` drops the others). */
  predicate JoinsSubscriber(subscriptions: map<Id, Subscription>, users: map<Id, User>, channel: Id, k: Id) {
    k in subscriptions && subscriptions[k].channel == channel && subscriptions[k].subscriber in users
  }

  /** The channel's joined subscriptions, as a set. */
  function SubscribersOf(subscriptions: map<Id, Subscription>, users: map<Id, User>, channel: Id): set<Id> {
    set k | k in subscriptions && JoinsSubscriber(subscriptions, users, channel, k)
  }

  function SubscriberIds(subscriptions: map<Id, Subscription>, users: map<Id, User>, channel: Id): (r: seq<Id>)
    ensures forall k :: k in r <==> JoinsSubscriber(subscriptions, users, channel, k)
    ensures NoDuplicates(r)
    ensures |r| == |SubscribersOf(subscriptions, users, channel)|
    ensures forall i :: 0 <= i < |r| ==> r[i] in subscriptions && JoinsSubscriber(subscriptions, users, channel, r[i])
  {
    var r := Filter(ScanOrder(subscriptions), (k: Id) => JoinsSubscriber(subscriptions, users, channel, k));
    DistinctLength(r, SubscribersOf(subscriptions, users, channel));
    forall i | 0 <= i < |r|
      ensures r[i] in subscriptions && JoinsSubscriber(subscriptions, users, channel, r[i])
    {
      assert r[i] in r;
    }
    r
  }

  /** One listed subscriber: the subscription's own `_id`, which the `$project`
      keeps, and the `subscriber` sub-document. */
  datatype ListedSubscriber = ListedSubscriber(id: Id, subscriber: UserSummary)

  /** What a listed subscriber is: a subscription to `channel` together with
      the summary of its subscriber, an existing user. */
  predicate SubscriberEntry(subscriptions: map<Id, Subscription>, users: map<Id, User>, channel: Id, e: ListedSubscriber) {
    && e.id in subscriptions
    && subscriptions[e.id].channel == channel
    && subscriptions[e.id].subscriber == e.subscriber.id
    && e.subscriber.id in users
    && e.subscriber == Summary(e.subscriber.id, users[e.subscriber.id])
  }

  /** The documents of the joined subscriptions, in order. */
  function SubscriberSummaries(subscriptions: map<Id, Subscription>, users: map<Id, User>, channel: Id, ids: seq<Id>): (r: seq<ListedSubscriber>)
    requires forall i :: 0 <= i < |ids| ==> ids[i] in subscriptions && JoinsSubscriber(subscriptions, users, channel, ids[i])
    ensures |r| == |ids|
    ensures forall i :: 0 <= i < |ids| ==> r[i].id == ids[i]
    ensures forall i :: 0 <= i < |ids| ==> SubscriberEntry(subscriptions, users, channel, r[i])
  {
    if ids == [] then []
    else
      var rest := SubscriberSummaries(subscriptions, users, channel, ids[1..]);
      assert ids[0] in subscriptions && JoinsSubscriber(subscriptions, users, channel, ids[0]);
      var u := subscriptions[ids[0]].subscriber;
      var r := [ListedSubscriber(ids[0], Summary(u, users[u]))] + rest;
      forall i | 1 <= i < |ids|
        ensures r[i].id == ids[i] && SubscriberEntry(subscriptions, users, channel, r[i])
      {
        assert r[i] == rest[i - 1] && ids[i] == ids[1..][i - 1];
      }
      r
  }

  /** The listed subscribers of `channel`: the `i`-th entry is the `i`-th
      joined subscription. */
  function ChannelSubscriberList(subscriptions: map<Id, Subscription>, users: map<Id, User>, channel: Id): (r: seq<ListedSubscriber>)
    ensures |r| == |SubscriberIds(subscriptions, users, channel)|
    ensures forall i :: 0 <= i < |r| ==> r[i].id == SubscriberIds(subscriptions, users, channel)[i]
    ensures forall i :: 0 <= i < |r| ==> SubscriberEntry(subscriptions, users, channel, r[i])
  {
    var ids := SubscriberIds(subscriptions, users, channel);
    SubscriberSummaries(subscriptions, users, channel, ids)
  }

  datatype ChannelSubscribers = ChannelSubscribers(subscribers: seq<ListedSubscriber>, subscriberCount: nat)

  /** getUserChannelSubscriber: 400 for an invalid channel id; otherwise one
      entry per subscription to the channel whose subscriber exists, none
      twice, and their number. */
  function GetUserChannelSubscriber(subscriptions: map<Id, Subscription>, users: map<Id, User>, channelId: RawId): (r: Response<ChannelSubscribers>)
    ensures r.Err? <==> !IsValidObjectId(channelId)
    ensures r.Err? ==> r.status == BadRequest
    ensures r.Ok? ==> r.status == OK && r.data.subscriberCount == |r.data.subscribers|
    ensures r.Ok? ==> r.data.subscriberCount == |SubscribersOf(subscriptions, users, channelId.id)|
    ensures r.Ok? ==> forall i :: 0 <= i < |r.data.subscribers| ==> SubscriberEntry(subscriptions, users, channelId.id, r.data.subscribers[i])
    ensures r.Ok? ==> forall i, j :: 0 <= i < j < |r.data.subscribers| ==> r.data.subscribers[i].id != r.data.subscribers[j].id
  {
    if !IsValidObjectId(channelId) then Err(BadRequest)
    else
      var subscribers := ChannelSubscriberList(subscriptions, users, channelId.id);
      Ok(OK, ChannelSubscribers(subscribers, |subscribers|))
  }

  /** Every subscription to the channel whose subscriber exists is listed. */
  lemma SubscriberListed(subscriptions: map<Id, Subscription>, users: map<Id, User>, channel: Id, k: Id)
    requires JoinsSubscriber(subscriptions, users, channel, k)
    ensures var l := GetUserChannelSubscriber(subscriptions, users, ObjectId(channel)).data.subscribers;
      exists i :: 0 <= i < |l| && l[i].id == k && l[i].subscriber.id == subscriptions[k].subscriber
  {
    var ids := SubscriberIds(subscriptions, users, channel);
    var l := ChannelSubscriberList(subscriptions, users, channel);
    var i :| 0 <= i < |ids| && ids[i] == k;
    assert l[i].id == k;
  }

  /** With one subscription per (subscriber, channel), as the store keeps,
      no user is listed twice as a subscriber. */
  lemma SubscribersListedOnce(subscriptions: map<Id, Subscription>, users: map<Id, User>, channel: Id, i: nat, j: nat)
    requires SubscriptionsUnique(subscriptions)
    requires i < j < |GetUserChannelSubscriber(subscriptions, users, ObjectId(channel)).data.subscribers|
    ensures var l := GetUserChannelSubscriber(subscriptions, users, ObjectId(channel)).data.subscribers;
      l[i].subscriber.id != l[j].subscriber.id
  {
    var l := ChannelSubscriberList(subscriptions, users, channel);
    assert SubscriberEntry(subscriptions, users, channel, l[i]);
    assert SubscriberEntry(subscriptions, users, channel, l[j]);
  }

  /** A toggle by an existing user moves the channel's `subscriberCount` by
      exactly one; by an id that is no user it leaves the count alone. */
  lemma ToggleSubscriberCount(subscriptions: map<Id, Subscription>, users: map<Id, User>, actor: Id, channel: Id, newId: Id, now: int)
    requires newId !in subscriptions && SubscriptionsUnique(subscriptions)
    ensures var after := |SubscribersOf(ToggleSubscriptions(subscriptions, actor, channel, newId, now), users, channel)|;
            var before := |SubscribersOf(subscriptions, users, channel)|;
            after == if actor !in users then before
                     else if IsSubscribed(subscriptions, actor, channel) then before - 1 else before + 1
  {
    if IsSubscribed(subscriptions, actor, channel) {
      var k :| k in subscriptions && Subscribes(subscriptions[k], actor, channel);
      SubscribersAfterDelete(subscriptions, users, actor, channel, k);
    } else {
      SubscribersAfterCreate(subscriptions, users, actor, channel, newId, now);
    }
  }

  lemma SubscribersAfterDelete(subscriptions: map<Id, Subscription>, users: map<Id, User>, actor: Id, channel: Id, k: Id)
    requires SubscriptionsUnique(subscriptions) && k in subscriptions && Subscribes(subscriptions[k], actor, channel)
    ensures SubscribersOf(OtherSubscriptions(subscriptions, actor, channel), users, channel)
         == SubscribersOf(subscriptions, users, channel) - {k}
    ensures actor in users <==> k in SubscribersOf(subscriptions, users, channel)
  {
  }

  lemma SubscribersAfterCreate(subscriptions: map<Id, Subscription>, users: map<Id, User>, actor: Id, channel: Id, newId: Id, now: int)
    requires newId !in subscriptions
    ensures SubscribersOf(subscriptions[newId := Subscription(actor, channel, now)], users, channel)
         == SubscribersOf(subscriptions, users, channel) + (if actor in users then {newId} else {})
  {
  }

  /** A subscription made by `subscriber` to an existing channel user. */
  predicate JoinsChannel(subscriptions: map<Id, Subscription>, users: map<Id, User>, subscriber: Id, k: Id) {
    k in subscriptions && subscriptions[k].subscriber == subscriber && subscriptions[k].channel in users
  }

  function ChannelsOf(subscriptions: map<Id, Subscription>, users: map<Id, User>, subscriber: Id): set<Id> {
    set k | k in subscriptions && JoinsChannel(subscriptions, users, subscriber, k)
  }

  function ChannelIds(subscriptions: map<Id, Subscription>, users: map<Id, User>, subscriber: Id): (r: seq<Id>)
    ensures forall k :: k in r <==> JoinsChannel(subscriptions, users, subscriber, k)
    ensures NoDuplicates(r)
    ensures |r| == |ChannelsOf(subscriptions, users, subscriber)|
    ensures forall i :: 0 <= i < |r| ==> r[i] in subscriptions && JoinsChannel(subscriptions, users, subscriber, r[i])
  {
    var r := Filter(ScanOrder(subscriptions), (k: Id) => JoinsChannel(subscriptions, users, subscriber, k));
    DistinctLength(r, ChannelsOf(subscriptions, users, subscriber));
    forall i | 0 <= i < |r|
      ensures r[i] in subscriptions && JoinsChannel(subscriptions, users, subscriber, r[i])
    {
      assert r[i] in r;
    }
    r
  }

  /** What a listed channel is: the summary of an existing user to whom
      `subscriber` is subscribed. */
  predicate ChannelEntry(subscriptions: map<Id, Subscription>, users: map<Id, User>, subscriber: Id, e: UserSummary) {
    e.id in users && e == Summary(e.id, users[e.id]) && IsSubscribed(subscriptions, subscriber, e.id)
  }

  /** The `channelDetails` sub-documents of the joined subscriptions, in order. */
  function ChannelSummaries(subscriptions: map<Id, Subscription>, users: map<Id, User>, subscriber: Id, ids: seq<Id>): (r: seq<UserSummary>)
    requires forall i :: 0 <= i < |ids| ==> ids[i] in subscriptions && JoinsChannel(subscriptions, users, subscriber, ids[i])
    ensures |r| == |ids|
    ensures forall i :: 0 <= i < |ids| ==> r[i].id == subscriptions[ids[i]].channel
    ensures forall i :: 0 <= i < |ids| ==> ChannelEntry(subscriptions, users, subscriber, r[i])
  {
    if ids == [] then []
    else
      var rest := ChannelSummaries(subscriptions, users, subscriber, ids[1..]);
      assert ids[0] in subscriptions && JoinsChannel(subscriptions, users, subscriber, ids[0]);
      var c := subscriptions[ids[0]].channel;
      assert Subscribes(subscriptions[ids[0]], subscriber, c);
      var r := [Summary(c, users[c])] + rest;
      forall i | 1 <= i < |ids|
        ensures r[i].id == subscriptions[ids[i]].channel && ChannelEntry(subscriptions, users, subscriber, r[i])
      {
        assert r[i] == rest[i - 1] && ids[i] == ids[1..][i - 1];
      }
      r
  }

  /** The listed channels of `subscriber`: the `i`-th entry is the channel of
      the `i`-th joined subscription. */
  function SubscribedChannelList(subscriptions: map<Id, Subscription>, users: map<Id, User>, subscriber: Id): (r: seq<UserSummary>)
    ensures |r| == |ChannelIds(subscriptions, users, subscriber)|
    ensures forall i :: 0 <= i < |r| ==> r[i].id == subscriptions[ChannelIds(subscriptions, users, subscriber)[i]].channel
    ensures forall i :: 0 <= i < |r| ==> ChannelEntry(subscriptions, users, subscriber, r[i])
  {
    var ids := ChannelIds(subscriptions, users, subscriber);
    ChannelSummaries(subscriptions, users, subscriber, ids)
  }

  datatype SubscribedChannels = SubscribedChannels(channels: seq<UserSummary>, subscriptionCount: nat)

  /** getSubscribedChannels: 400 for an invalid subscriber id; otherwise one
      summary per subscription of the user to an existing channel, and their
      number. */
  function GetSubscribedChannels(subscriptions: map<Id, Subscription>, users: map<Id, User>, subscriberId: RawId): (r: Response<SubscribedChannels>)
    ensures r.Err? <==> !IsValidObjectId(subscriberId)
    ensures r.Err? ==> r.status == BadRequest
    ensures r.Ok? ==> r.status == OK && r.data.subscriptionCount == |r.data.channels|
    ensures r.Ok? ==> r.data.subscriptionCount == |ChannelsOf(subscriptions, users, subscriberId.id)|
    ensures r.Ok? ==> forall i :: 0 <= i < |r.data.channels| ==> ChannelEntry(subscriptions, users, subscriberId.id, r.data.channels[i])
  {
    if !IsValidObjectId(subscriberId) then Err(BadRequest)
    else
      var channels := SubscribedChannelList(subscriptions, users, subscriberId.id);
      Ok(OK, SubscribedChannels(channels, |channels|))
  }

  /** Every subscription of the user to an existing channel user is listed. */
  lemma ChannelListed(subscriptions: map<Id, Subscription>, users: map<Id, User>, subscriber: Id, k: Id)
    requires JoinsChannel(subscriptions, users, subscriber, k)
    ensures var l := GetSubscribedChannels(subscriptions, users, ObjectId(subscriber)).data.channels;
      exists i :: 0 <= i < |l| && l[i].id == subscriptions[k].channel
  {
    var ids := ChannelIds(subscriptions, users, subscriber);
    var l := SubscribedChannelList(subscriptions, users, subscriber);
    var i :| 0 <= i < |ids| && ids[i] == k;
    assert l[i].id == subscriptions[k].channel;
  }

  /** With one subscription per (subscriber, channel), as the store keeps,
      no channel is listed twice. */
  lemma ChannelsListedOnce(subscriptions: map<Id, Subscription>, users: map<Id, User>, subscriber: Id, i: nat, j: nat)
    requires SubscriptionsUnique(subscriptions)
    requires i < j < |GetSubscribedChannels(subscriptions, users, ObjectId(subscriber)).data.channels|
    ensures var l := GetSubscribedChannels(subscriptions, users, ObjectId(subscriber)).data.channels;
      l[i].id != l[j].id
  {
    var ids := ChannelIds(subscriptions, users, subscriber);
    var l := SubscribedChannelList(subscriptions, users, subscriber);
    assert ids[i] != ids[j];
    assert JoinsChannel(subscriptions, users, subscriber, ids[i]);
    assert JoinsChannel(subscriptions, users, subscriber, ids[j]);
  }
}
