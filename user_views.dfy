// user/views.py: subscribing to and unsubscribing from an author, and the
// list of the authors the caller follows.
module UserViews {
  import opened Common
  import opened Seqs
  import opened Models
  import opened UserSerializers

  /** `SubscribeView.get_queryset`: the users the caller follows, in user
      table order. The source filters on `following__user`, a lookup the
      models do not declare (the reverse name of Subscription.following is
      `followings`); this models the query the code evidently means. */
  function FollowedUsers(users: seq<UserId>, subscriptions: seq<Subscription>, user: UserId): (followed: seq<UserId>)
    ensures forall u :: u in followed <==> u in users && Subscription(user, u) in subscriptions
  {
    Filter(users, (u: UserId) => Subscription(user, u) in subscriptions)
  }

  /** Every author in the caller's subscription list reads `is_subscribed:
      true` for the caller, and nobody follows themselves there. */
  lemma FollowedAreSubscribed(users: seq<UserId>, subscriptions: seq<Subscription>, user: UserId)
    requires SubscriptionsValid(subscriptions, users)
    ensures forall u :: u in FollowedUsers(users, subscriptions, user) ==>
      IsSubscribed(Some(User(user)), u, subscriptions) && u != user
  {
  }

  /** `UserSubscribeView.post`: 401 for anonymous callers (the default
      IsAuthenticatedOrReadOnly), 404 for an unknown author, 400 when the
      validation refuses, otherwise the subscription is saved and returned
      with 201. */
  method SubscribePost(db: Store, caller: Caller, followingId: UserId) returns (response: Response<Subscription>)
    requires db.Valid()
    requires caller.User? ==> caller.id in db.users
    modifies db`subscriptions
    ensures db.Valid()
    ensures caller.Anonymous? ==> response == Unauthorized
    ensures caller.User? && followingId !in db.users ==> response == NotFound
    ensures caller.User? && followingId in db.users ==>
      match ValidateSubscription(old(db.subscriptions), caller.id, followingId)
      case Failure(reason) => response == BadRequest([reason])
      case Success(s) => response == Created(s)
    ensures !response.Created? ==> db.subscriptions == old(db.subscriptions)
    ensures response.Created? ==>
      && db.subscriptions == old(db.subscriptions) + [response.body]
      && IsSubscribed(Some(caller), followingId, db.subscriptions)
  {
    if caller.Anonymous? {
      return Unauthorized;
    }
    if followingId !in db.users {
      return NotFound;
    }
    var validated := ValidateSubscription(db.subscriptions, caller.id, followingId);
    if validated.Failure? {
      return BadRequest([validated.error]);
    }
    AcceptedKeepsSubscriptionsValid(db.subscriptions, db.users, caller.id, followingId);
    db.subscriptions := db.subscriptions + [validated.value];
    response := Created(validated.value);
  }

  /** `UserSubscribeView.delete`: 401 for anonymous callers, 404 for an
      unknown author, 400 when the caller does not follow them, otherwise
      the subscription is deleted and 204 returned. */
  method SubscribeDelete(db: Store, caller: Caller, followingId: UserId) returns (response: Response<Subscription>)
    requires db.Valid()
    modifies db`subscriptions
    ensures db.Valid()
    ensures caller.Anonymous? ==> response == Unauthorized
    ensures caller.User? && followingId !in db.users ==> response == NotFound
    ensures caller.User? && followingId in db.users ==>
      response == if Subscription(caller.id, followingId) in old(db.subscriptions)
        then NoContent else BadRequest([NotSubscribed])
    ensures !response.NoContent? ==> db.subscriptions == old(db.subscriptions)
    ensures response.NoContent? ==>
      && (forall s :: s in db.subscriptions <==> s in old(db.subscriptions) && s != Subscription(caller.id, followingId))
      && !IsSubscribed(Some(caller), followingId, db.subscriptions)
  {
    if caller.Anonymous? {
      return Unauthorized;
    }
    if followingId !in db.users {
      return NotFound;
    }
    var pair := Subscription(caller.id, followingId);
    if pair !in db.subscriptions {
      return BadRequest([NotSubscribed]);
    }
    FilterNoDup(db.subscriptions, (s: Subscription) => s != pair);
    db.subscriptions := Filter(db.subscriptions, (s: Subscription) => s != pair);
    response := NoContent;
  }

  /** Subscribing and then unsubscribing leaves the caller following the same
      authors as before. */
  lemma SubscribeThenUnsubscribe(users: seq<UserId>, subscriptions: seq<Subscription>, user: UserId, following: UserId)
    requires ValidateSubscription(subscriptions, user, following).Success?
    ensures var after := Filter(subscriptions + [Subscription(user, following)],
        (s: Subscription) => s != Subscription(user, following));
      FollowedUsers(users, after, user) == FollowedUsers(users, subscriptions, user)
  {
    var pair := Subscription(user, following);
    var after := Filter(subscriptions + [pair], (s: Subscription) => s != pair);
    assert forall s :: s in after <==> s in subscriptions;
    FilterSame(users,
      (u: UserId) => Subscription(user, u) in after,
      (u: UserId) => Subscription(user, u) in subscriptions);
  }
}
