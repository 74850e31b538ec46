// user/serializers.py: the subscription flag of the user representation,
// the recipes shown with a followed author, and the subscription
// serializer's validation.
module UserSerializers {
  import opened Common
  import opened Seqs
  import opened Models
  import opened RecipeSerializers
  import opened Report
  import opened Strings

  /** `get_is_subscribed`: false without a request in the context, false for
      an anonymous user, otherwise whether the caller follows `obj`. */
  function IsSubscribed(request: Option<Caller>, obj: UserId, subscriptions: seq<Subscription>): (subscribed: bool)
    ensures subscribed <==> request.Some? && request.value.User? && Subscription(request.value.id, obj) in subscriptions
  {
    match request
    case None => false
    case Some(Anonymous) => false
    case Some(User(u)) => Subscription(u, obj) in subscriptions
  }

  /** `SubscriptionSerializer.validate`: following yourself and following the
      same user twice are rejected, in that order. */
  function ValidateSubscription(subscriptions: seq<Subscription>, user: UserId, following: UserId)
    : (r: Result<Subscription, Reason>)
    ensures user == following ==> r == Failure(SelfSubscription)
    ensures user != following && Subscription(user, following) in subscriptions ==> r == Failure(AlreadySubscribed)
    ensures r.Success? <==> user != following && Subscription(user, following) !in subscriptions
    ensures r.Success? ==> r.value == Subscription(user, following)
  {
    if user == following then Failure(SelfSubscription)
    else if Subscription(user, following) in subscriptions then Failure(AlreadySubscribed)
    else Success(Subscription(user, following))
  }

  /** Saving what the validation accepted keeps the subscription table free of
      duplicates and of self-subscriptions. */
  lemma {:induction false} AcceptedKeepsSubscriptionsValid(subscriptions: seq<Subscription>, users: seq<UserId>,
    user: UserId, following: UserId)
    requires SubscriptionsValid(subscriptions, users)
    requires user in users && following in users
    requires ValidateSubscription(subscriptions, user, following).Success?
    ensures SubscriptionsValid(subscriptions + [Subscription(user, following)], users)
  {
    var s := Subscription(user, following);
    var all := subscriptions + [s];
    forall i, j | 0 <= i < j < |all| ensures all[i] != all[j] {
      if j == |subscriptions| {
        assert all[i] in subscriptions;
      } else {
        assert all[i] == subscriptions[i] && all[j] == subscriptions[j];
      }
    }
  }

  /** `Recipe.objects.filter(author=obj)`, in table order. */
  function RecipesBy(recipes: seq<Recipe>, author: UserId): (mine: seq<Recipe>)
    ensures forall r :: r in mine <==> r in recipes && r.author == author
  {
    Filter(recipes, (r: Recipe) => r.author == author)
  }

  /** The author column of the recipe table. */
  function Authors(recipes: seq<Recipe>): (authors: seq<UserId>)
    ensures |authors| == |recipes|
    ensures forall k :: 0 <= k < |recipes| ==> authors[k] == recipes[k].author
  {
    seq(|recipes|, k requires 0 <= k < |recipes| => recipes[k].author)
  }

  /** Filtering by author keeps as many recipes as the author occurs in the
      author column. */
  lemma {:induction false} RecipesByCount(recipes: seq<Recipe>, author: UserId)
    ensures |RecipesBy(recipes, author)| == multiset(Authors(recipes))[author]
  {
    if |recipes| > 0 {
      RecipesByCount(recipes[1..], author);
      assert Authors(recipes) == [recipes[0].author] + Authors(recipes[1..]);
    }
  }

  /** `get_recipes_count`: `obj.recipes.count()`, the number of recipes whose
      author is `obj`. */
  function RecipesCount(recipes: seq<Recipe>, author: UserId): (count: nat)
    ensures count == multiset(Authors(recipes))[author]
    ensures count <= |recipes|
    ensures count == 0 <==> forall r :: r in recipes ==> r.author != author
  {
    RecipesByCount(recipes, author);
    |RecipesBy(recipes, author)|
  }

  /** An optional sign, then decimal digits. */
  predicate SignedDigits(t: string) {
    || (|t| > 0 && AllDigits(t))
    || (|t| > 1 && (t[0] == '-' || t[0] == '+') && AllDigits(t[1..]))
  }

  function SignedValue(t: string): int
    requires SignedDigits(t)
  {
    if t[0] == '-' then -(ParseDigits(t[1..]) as int)
    else if t[0] == '+' then ParseDigits(t[1..]) as int
    else ParseDigits(t) as int
  }

  /** A `recipes_limit` value `int()` can read: surrounding whitespace, then
      an optional sign, then decimal digits. */
  predicate IsIntLiteral(s: string) {
    SignedDigits(Strip(s))
  }

  /** The value `int()` reads from such a string. */
  function IntValue(s: string): int
    requires IsIntLiteral(s)
  {
    SignedValue(Strip(s))
  }

  /** `get_recipes`: the author's recipes in short form, cut to
      `recipes_limit` when that parameter is present and not empty. None
      stands for the exception the source raises: a value `int()` cannot read,
      or a negative limit, which a queryset slice refuses. "0" is not empty,
      so it yields no recipes. */
  function GetRecipes(recipes: seq<Recipe>, author: UserId, recipesLimit: Option<string>)
    : (shown: Option<seq<Summary>>)
    ensures shown.None? <==>
      (recipesLimit.Some? && recipesLimit.value != "" &&
       (!IsIntLiteral(recipesLimit.value) || IntValue(recipesLimit.value) < 0))
    ensures shown.Some? ==> |shown.value| <= RecipesCount(recipes, author)
    ensures shown.Some? ==> forall k :: 0 <= k < |shown.value| ==>
      shown.value[k] == SummaryOf(RecipesBy(recipes, author)[k])
  {
    var mine := RecipesBy(recipes, author);
    var all := seq(|mine|, k requires 0 <= k < |mine| => SummaryOf(mine[k]));
    match recipesLimit
    case None => Some(all)
    case Some(s) =>
      if s == "" then Some(all)
      else if !IsIntLiteral(s) then None
      else
        var n := IntValue(s);
        if n < 0 then None
        else if n < |all| then Some(all[..n]) else Some(all)
  }

  /** Without a limit, or with an empty one (`if limit:` is false for ""),
      every recipe of the author is shown; with a `recipes_limit` that reads
      as a non-negative `n` ("3", "007", "+3", " 3 "), exactly `min(n, count)`
      are. */
  lemma GetRecipesLength(recipes: seq<Recipe>, author: UserId, limit: string)
    ensures GetRecipes(recipes, author, None).Some?
    ensures |GetRecipes(recipes, author, None).value| == RecipesCount(recipes, author)
    ensures GetRecipes(recipes, author, Some("")) == GetRecipes(recipes, author, None)
    ensures IsIntLiteral(limit) && IntValue(limit) >= 0 ==>
      var shown := GetRecipes(recipes, author, Some(limit));
      && shown.Some?
      && |shown.value| == if IntValue(limit) < RecipesCount(recipes, author) then IntValue(limit)
                          else RecipesCount(recipes, author)
  {
    if IsIntLiteral(limit) && IntValue(limit) >= 0 {
      assert limit != "" by { assert Strip(limit) != ""; }
    }
  }
}
