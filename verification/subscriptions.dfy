/**
 * The subscription handlers. A subscription is a (subscriber, channel) pair
 * and the store keeps a set of them. The self-subscription guard of
 * `toggleSubscription` compares the path string with the caller's ObjectId
 * using `===`, which is never true for a string and an object; the model keeps
 * that (`ToggleSubscription`) and adds the guard as evidently intended
 * (`ToggleSubscriptionFixed`). The two listings match the stored ObjectIds
 * against the raw path string, which an aggregate does not cast, so as
 * written they list nobody; the `Fixed` listings cast as the other
 * controllers' pipelines do.
 */
module SubscriptionController {
  import opened Wrappers
  import opened ObjectIds
  import opened Paging
  import opened Http
  import opened Db

  /** Flip one pair; no other pair comes or goes. `true` means it was added. */
  function Flip(subs: set<Subscription>, p: Subscription): (r: (set<Subscription>, bool))
    ensures p in r.0 <==> p !in subs
    ensures r.1 <==> p !in subs
    ensures forall q :: q != p ==> (q in r.0 <==> q in subs)
  {
    if p in subs then (subs - {p}, false) else (subs + {p}, true)
  }

  lemma FlipTwice(subs: set<Subscription>, p: Subscription)
    ensures Flip(Flip(subs, p).0, p).0 == subs
  {
    var once := Flip(subs, p).0;
    var twice := Flip(once, p).0;
    forall q ensures q in twice <==> q in subs {
      if q != p {
        assert q in twice <==> q in once;
      }
    }
  }

  /** Apply the flip and answer with the word for what happened. */
  function FlipReply(s: Store, p: Subscription): (r: Reply<string>)
    ensures r.result.Ok? && r.result.value.status == 200
    ensures r.store == s.(subscriptions := Flip(s.subscriptions, p).0)
    ensures p !in s.subscriptions ==> r.result.value.data == "Subscribed" && r.result.value.message == "Channel subscribed successfully"
    ensures p in s.subscriptions ==> r.result.value.data == "Unsubscribed" && r.result.value.message == "Channel unsubscribed successfully"
  {
    var (subs, added) := Flip(s.subscriptions, p);
    if added then Answer(s.(subscriptions := subs), 200, "Subscribed", "Channel subscribed successfully")
    else Answer(s.(subscriptions := subs), 200, "Unsubscribed", "Channel unsubscribed successfully")
  }

  /**
   * `toggleSubscription` as written: a well-formed channel id (400), then the
   * caller's subscription to it flips. The channel need not exist, and the
   * self-subscription guard never fires.
   */
  function ToggleSubscription(s: Store, caller: Id, channelId: string): (r: Reply<string>)
    ensures r.result.Err? ==> r.store == s
    ensures !IsValidObjectId(channelId) ==> RejectedWith(r, 400, "Id is not valid")
    ensures r.result.Ok? <==> IsValidObjectId(channelId)
    ensures r.result.Ok? ==> r == FlipReply(s, Subscription(caller, Cast(channelId)))
  {
    if !IsValidObjectId(channelId) then Reject(s, 400, "Id is not valid")
    else FlipReply(s, Subscription(caller, Cast(channelId)))
  }

  /** Two toggles of the same channel give the store back. */
  lemma ToggleSubscriptionTwice(s: Store, caller: Id, channelId: string)
    requires IsValidObjectId(channelId)
    ensures var once := ToggleSubscription(s, caller, channelId).store;
            ToggleSubscription(once, caller, channelId).store == s
  {
    FlipTwice(s.subscriptions, Subscription(caller, Cast(channelId)));
  }

  /** No user is subscribed to their own channel. */
  predicate NoSelfSubscriptions(subs: set<Subscription>) {
    forall p :: p in subs ==> p.subscriber != p.channel
  }

  /** As written, a caller who sends their own id ends up subscribed to themselves. */
  lemma SelfSubscriptionAdmitted(s: Store, caller: Id)
    requires NoSelfSubscriptions(s.subscriptions)
    ensures ToggleSubscription(s, caller, caller).result.Ok?
    ensures !NoSelfSubscriptions(ToggleSubscription(s, caller, caller).store.subscriptions)
  {
    CastRoundTrip(caller);
    assert Subscription(caller, caller) in ToggleSubscription(s, caller, caller).store.subscriptions;
  }

  /** `toggleSubscription` with the self-subscription guard comparing ids rather than a string with an object. */
  function ToggleSubscriptionFixed(s: Store, caller: Id, channelId: string): (r: Reply<string>)
    ensures r.result.Err? ==> r.store == s
    ensures !IsValidObjectId(channelId) ==> RejectedWith(r, 400, "Id is not valid")
    ensures IsValidObjectId(channelId) && Cast(channelId) == caller ==> RejectedWith(r, 400, "You can not subscribe to yourself")
    ensures r.result.Ok? <==> IsValidObjectId(channelId) && Cast(channelId) != caller
    ensures r.result.Ok? ==> r == FlipReply(s, Subscription(caller, Cast(channelId)))
  {
    if !IsValidObjectId(channelId) then Reject(s, 400, "Id is not valid")
    else if Cast(channelId) == caller then Reject(s, 400, "You can not subscribe to yourself")
    else FlipReply(s, Subscription(caller, Cast(channelId)))
  }

  /** With the guard, no toggle creates a self-subscription. */
  lemma FixedToggleKeepsNoSelfSubscriptions(s: Store, caller: Id, channelId: string)
    requires NoSelfSubscriptions(s.subscriptions)
    ensures NoSelfSubscriptions(ToggleSubscriptionFixed(s, caller, channelId).store.subscriptions)
  {
    var r := ToggleSubscriptionFixed(s, caller, channelId);
    if r.result.Ok? {
      var p := Subscription(caller, Cast(channelId));
      forall q | q in r.store.subscriptions ensures q.subscriber != q.channel {
        if q != p {
          assert q in s.subscriptions;
        }
      }
    }
  }

  /**
   * The guards of both listings: a well-formed id (400), an existing user
   * (404 with `missing`), and the caller's own id in exactly its canonical
   * spelling (403, a raw string comparison). The answer is the normalised
   * paging of the aggregate.
   */
  function ListFor(s: Store, caller: Id, userId: string, missing: string, found: string,
                   page: Option<string>, limit: Option<string>, sortBy: Option<string>, sortType: Option<string>): (r: Reply<PageQuery>)
    ensures r.store == s
    ensures !IsValidObjectId(userId) ==> RejectedWith(r, 400, "Id is not valid")
    ensures IsValidObjectId(userId) && FindUser(s.users, Cast(userId)).None? ==> RejectedWith(r, 404, missing)
    ensures (IsValidObjectId(userId) && FindUser(s.users, Cast(userId)).Some? && userId != caller) ==>
      RejectedWith(r, 403, "You dont have access to this")
    ensures r.result.Ok? <==> userId == caller && FindUser(s.users, caller).Some?
    ensures r.result.Ok? ==> WellFormed(r.result.value.data)
                             && r.result.value.data == Normalize(page, limit, sortBy, sortType)
                             && r.result.value.message == found
  {
    CastRoundTrip(caller);
    if !IsValidObjectId(userId) then Reject(s, 400, "Id is not valid")
    else if FindUser(s.users, Cast(userId)).None? then Reject(s, 404, missing)
    else if caller != userId then Reject(s, 403, "You dont have access to this")
    else Answer(s, 200, Normalize(page, limit, sortBy, sortType), found)
  }

  /** A listing page: the normalised paging and the ids of the users the `$match` selects. */
  datatype ListedUsers = ListedUsers(paging: PageQuery, users: set<Id>)

  /**
   * `getUserChannelSubscribers` as written: only the channel itself may list
   * its subscribers, and the pipeline's `$match: { channel: channelId }`
   * compares the stored ObjectId with the raw path string. An aggregate does
   * not cast its stages, so no subscription matches and the page is empty.
   */
  function GetUserChannelSubscribers(s: Store, caller: Id, channelId: string,
                                     page: Option<string>, limit: Option<string>, sortBy: Option<string>, sortType: Option<string>): (r: Reply<ListedUsers>)
    ensures r.store == s
    ensures !IsValidObjectId(channelId) ==> RejectedWith(r, 400, "Id is not valid")
    ensures IsValidObjectId(channelId) && FindUser(s.users, Cast(channelId)).None? ==> RejectedWith(r, 404, "Channel does not exist")
    ensures (IsValidObjectId(channelId) && FindUser(s.users, Cast(channelId)).Some? && channelId != caller) ==>
      RejectedWith(r, 403, "You dont have access to this")
    ensures r.result.Ok? <==> channelId == caller && FindUser(s.users, caller).Some?
    ensures r.result.Ok? ==> r.result.value.message == "Subscribers fetched successfully"
    ensures r.result.Ok? ==> r.result.value.data.paging == Normalize(page, limit, sortBy, sortType)
    ensures r.result.Ok? ==> r.result.value.data.users == {}
  {
    var l := ListFor(s, caller, channelId, "Channel does not exist", "Subscribers fetched successfully", page, limit, sortBy, sortType);
    match l.result
    case Err(e) => Reply(Err(e), s)
    case Ok(resp) => Answer(s, 200, ListedUsers(resp.data, {}), resp.message)
  }

  /**
   * `getSubscribedChannels` as written: only the user themselves may list
   * what they subscribe to; `$match: { subscriber: subscriberId }` has the
   * same uncast string, so the page is empty too.
   */
  function GetSubscribedChannels(s: Store, caller: Id, subscriberId: string,
                                 page: Option<string>, limit: Option<string>, sortBy: Option<string>, sortType: Option<string>): (r: Reply<ListedUsers>)
    ensures r.store == s
    ensures !IsValidObjectId(subscriberId) ==> RejectedWith(r, 400, "Id is not valid")
    ensures IsValidObjectId(subscriberId) && FindUser(s.users, Cast(subscriberId)).None? ==> RejectedWith(r, 404, "User does not exist")
    ensures (IsValidObjectId(subscriberId) && FindUser(s.users, Cast(subscriberId)).Some? && subscriberId != caller) ==>
      RejectedWith(r, 403, "You dont have access to this")
    ensures r.result.Ok? <==> subscriberId == caller && FindUser(s.users, caller).Some?
    ensures r.result.Ok? ==> r.result.value.message == "Subscribed channels fetched successfully"
    ensures r.result.Ok? ==> r.result.value.data.paging == Normalize(page, limit, sortBy, sortType)
    ensures r.result.Ok? ==> r.result.value.data.users == {}
  {
    var l := ListFor(s, caller, subscriberId, "User does not exist", "Subscribed channels fetched successfully", page, limit, sortBy, sortType);
    match l.result
    case Err(e) => Reply(Err(e), s)
    case Ok(resp) => Answer(s, 200, ListedUsers(resp.data, {}), resp.message)
  }

  /**
   * `getUserChannelSubscribers` as intended, matching on
   * `new mongoose.Types.ObjectId(channelId)` as the other listings do: the
   * page holds exactly the users subscribed to the channel.
   */
  function GetUserChannelSubscribersFixed(s: Store, caller: Id, channelId: string,
                                          page: Option<string>, limit: Option<string>, sortBy: Option<string>, sortType: Option<string>): (r: Reply<ListedUsers>)
    ensures r.store == s
    ensures !IsValidObjectId(channelId) ==> RejectedWith(r, 400, "Id is not valid")
    ensures IsValidObjectId(channelId) && FindUser(s.users, Cast(channelId)).None? ==> RejectedWith(r, 404, "Channel does not exist")
    ensures (IsValidObjectId(channelId) && FindUser(s.users, Cast(channelId)).Some? && channelId != caller) ==>
      RejectedWith(r, 403, "You dont have access to this")
    ensures r.result.Ok? <==> channelId == caller && FindUser(s.users, caller).Some?
    ensures r.result.Ok? ==> r.result.value.data.paging == Normalize(page, limit, sortBy, sortType)
    ensures r.result.Ok? ==> forall u :: u in r.result.value.data.users <==> Subscription(u, caller) in s.subscriptions
    ensures r.result.Ok? ==> r.result.value.message == "Subscribers fetched successfully"
  {
    var l := ListFor(s, caller, channelId, "Channel does not exist", "Subscribers fetched successfully", page, limit, sortBy, sortType);
    match l.result
    case Err(e) => Reply(Err(e), s)
    case Ok(resp) =>
      var subscribers := set p | p in s.subscriptions && p.channel == caller :: p.subscriber;
      Answer(s, 200, ListedUsers(resp.data, subscribers), resp.message)
  }

  /** `getSubscribedChannels` as intended: the page holds exactly the channels the user subscribes to. */
  function GetSubscribedChannelsFixed(s: Store, caller: Id, subscriberId: string,
                                      page: Option<string>, limit: Option<string>, sortBy: Option<string>, sortType: Option<string>): (r: Reply<ListedUsers>)
    ensures r.store == s
    ensures !IsValidObjectId(subscriberId) ==> RejectedWith(r, 400, "Id is not valid")
    ensures IsValidObjectId(subscriberId) && FindUser(s.users, Cast(subscriberId)).None? ==> RejectedWith(r, 404, "User does not exist")
    ensures (IsValidObjectId(subscriberId) && FindUser(s.users, Cast(subscriberId)).Some? && subscriberId != caller) ==>
      RejectedWith(r, 403, "You dont have access to this")
    ensures r.result.Ok? <==> subscriberId == caller && FindUser(s.users, caller).Some?
    ensures r.result.Ok? ==> r.result.value.data.paging == Normalize(page, limit, sortBy, sortType)
    ensures r.result.Ok? ==> forall c :: c in r.result.value.data.users <==> Subscription(caller, c) in s.subscriptions
    ensures r.result.Ok? ==> r.result.value.message == "Subscribed channels fetched successfully"
  {
    var l := ListFor(s, caller, subscriberId, "User does not exist", "Subscribed channels fetched successfully", page, limit, sortBy, sortType);
    match l.result
    case Err(e) => Reply(Err(e), s)
    case Ok(resp) =>
      var channels := set p | p in s.subscriptions && p.subscriber == caller :: p.channel;
      Answer(s, 200, ListedUsers(resp.data, channels), resp.message)
  }

  /**
   * As written, a subscription the toggle just stored shows up in neither
   * listing, though both requests succeed and the intended listings show it.
   */
  lemma SubscriptionMissingFromListings(s: Store, caller: Id, channel: Id,
                                        page: Option<string>, limit: Option<string>, sortBy: Option<string>, sortType: Option<string>)
    requires Subscription(caller, channel) !in s.subscriptions
    requires FindUser(s.users, caller).Some? && FindUser(s.users, channel).Some?
    ensures var t := ToggleSubscription(s, caller, channel).store;
            && Subscription(caller, channel) in t.subscriptions
            && GetSubscribedChannels(t, caller, caller, page, limit, sortBy, sortType).result.Ok?
            && channel !in GetSubscribedChannels(t, caller, caller, page, limit, sortBy, sortType).result.value.data.users
            && channel in GetSubscribedChannelsFixed(t, caller, caller, page, limit, sortBy, sortType).result.value.data.users
            && GetUserChannelSubscribers(t, channel, channel, page, limit, sortBy, sortType).result.Ok?
            && caller !in GetUserChannelSubscribers(t, channel, channel, page, limit, sortBy, sortType).result.value.data.users
            && caller in GetUserChannelSubscribersFixed(t, channel, channel, page, limit, sortBy, sortType).result.value.data.users
  {
    CastRoundTrip(channel);
  }

  /**
   * With the cast, a toggle that subscribes shows up in both listings: the
   * channel among the caller's subscriptions, and the caller among the
   * channel's subscribers.
   */
  lemma SubscribeShowsInListings(s: Store, caller: Id, channel: Id,
                                 page: Option<string>, limit: Option<string>, sortBy: Option<string>, sortType: Option<string>)
    requires Subscription(caller, channel) !in s.subscriptions
    requires FindUser(s.users, caller).Some? && FindUser(s.users, channel).Some?
    ensures var t := ToggleSubscription(s, caller, channel).store;
            && GetSubscribedChannelsFixed(t, caller, caller, page, limit, sortBy, sortType).result.Ok?
            && channel in GetSubscribedChannelsFixed(t, caller, caller, page, limit, sortBy, sortType).result.value.data.users
            && GetUserChannelSubscribersFixed(t, channel, channel, page, limit, sortBy, sortType).result.Ok?
            && caller in GetUserChannelSubscribersFixed(t, channel, channel, page, limit, sortBy, sortType).result.value.data.users
  {
    CastRoundTrip(channel);
  }
}
