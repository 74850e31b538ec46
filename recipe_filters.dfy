// recipes/filters.py: the recipe list filters (author, tags by slug,
// is_favorited, is_in_shopping_cart) and the ingredient search parameter.
module RecipeFilters {
  import opened Common
  import opened Seqs
  import opened Models
  import opened RecipeSerializers

  /** The query string of GET /recipes/. An absent parameter is None (or no
      slug); the text of a boolean is taken as already parsed. */
  datatype RecipeQuery = RecipeQuery(
    author: Option<UserId>,
    tags: seq<string>,
    isFavorited: Option<bool>,
    isInShoppingCart: Option<bool>)

  /** The ids of the tags whose slug is one of `slugs` (`to_field_name="slug"`). */
  function TagIdsForSlugs(tags: seq<Tag>, slugs: seq<string>): (ids: set<TagId>)
    ensures forall id :: id in ids <==> exists t :: t in tags && t.id == id && t.slug in slugs
  {
    set t | t in tags && t.slug in slugs :: t.id
  }

  predicate SlugKnown(tags: seq<Tag>, slug: string) {
    exists t :: t in tags && t.slug == slug
  }

  /** `filter_is_favorited` / `filter_is_in_shopping_cart`: only an
      authenticated caller asking for `true` narrows the list. */
  predicate MarkMatches(relation: set<JoinPair>, caller: Caller, value: Option<bool>, r: Recipe) {
    caller.User? && value == Some(true) ==> IsMarked(relation, caller, r.id)
  }

  /** Whether one recipe passes all four filters. The tag filter is an OR over
      the given slugs (a recipe with any of them passes). */
  predicate Matches(q: RecipeQuery, tags: seq<Tag>, favorites: set<JoinPair>, shoppingList: set<JoinPair>,
    caller: Caller, r: Recipe)
  {
    && (q.author.Some? ==> r.author == q.author.value)
    && (|q.tags| > 0 ==> r.tags * TagIdsForSlugs(tags, q.tags) != {})
    && MarkMatches(favorites, caller, q.isFavorited, r)
    && MarkMatches(shoppingList, caller, q.isInShoppingCart, r)
  }

  /** RecipeFilter applied to the recipe list. An author id or a slug naming
      nothing is a form error (400); otherwise the list keeps, in order, the
      recipes that pass every filter. */
  function FilterRecipes(q: RecipeQuery, users: seq<UserId>, tags: seq<Tag>, recipes: seq<Recipe>,
    favorites: set<JoinPair>, shoppingList: set<JoinPair>, caller: Caller): (r: Result<seq<Recipe>, Reason>)
    ensures r.Failure? <==> (q.author.Some? && q.author.value !in users) || (exists s :: s in q.tags && !SlugKnown(tags, s))
    ensures r.Failure? ==> r.error == InvalidFilter
    ensures r.Success? ==> |r.value| <= |recipes|
    ensures r.Success? ==> forall x :: x in r.value <==> x in recipes && Matches(q, tags, favorites, shoppingList, caller, x)
  {
    if (q.author.Some? && q.author.value !in users) || (exists s :: s in q.tags && !SlugKnown(tags, s)) then
      Failure(InvalidFilter)
    else
      Success(Filter(recipes, (x: Recipe) => Matches(q, tags, favorites, shoppingList, caller, x)))
  }

  /** With no parameters, the list is the whole recipe list in its order. */
  lemma EmptyQueryKeepsAll(users: seq<UserId>, tags: seq<Tag>, recipes: seq<Recipe>,
    favorites: set<JoinPair>, shoppingList: set<JoinPair>, caller: Caller)
    ensures FilterRecipes(RecipeQuery(None, [], None, None), users, tags, recipes, favorites, shoppingList, caller)
      == Success(recipes)
  {
    FilterAll(recipes, (x: Recipe) => Matches(RecipeQuery(None, [], None, None), tags, favorites, shoppingList, caller, x));
  }

  /** `filter_is_favorited` and `filter_is_in_shopping_cart` return their
      queryset unchanged for an anonymous caller or a value other than true:
      the answer is the one without that parameter. */
  lemma MarkFiltersIdentity(q: RecipeQuery, users: seq<UserId>, tags: seq<Tag>, recipes: seq<Recipe>,
    favorites: set<JoinPair>, shoppingList: set<JoinPair>, caller: Caller)
    ensures caller.Anonymous? || q.isFavorited != Some(true) ==>
      FilterRecipes(q, users, tags, recipes, favorites, shoppingList, caller)
      == FilterRecipes(q.(isFavorited := None), users, tags, recipes, favorites, shoppingList, caller)
    ensures caller.Anonymous? || q.isInShoppingCart != Some(true) ==>
      FilterRecipes(q, users, tags, recipes, favorites, shoppingList, caller)
      == FilterRecipes(q.(isInShoppingCart := None), users, tags, recipes, favorites, shoppingList, caller)
  {
    if caller.Anonymous? || q.isFavorited != Some(true) {
      var q' := q.(isFavorited := None);
      FilterSame(recipes,
        (x: Recipe) => Matches(q, tags, favorites, shoppingList, caller, x),
        (x: Recipe) => Matches(q', tags, favorites, shoppingList, caller, x));
    }
    if caller.Anonymous? || q.isInShoppingCart != Some(true) {
      var q' := q.(isInShoppingCart := None);
      FilterSame(recipes,
        (x: Recipe) => Matches(q, tags, favorites, shoppingList, caller, x),
        (x: Recipe) => Matches(q', tags, favorites, shoppingList, caller, x));
    }
  }

  /** The list filter and the serializer flags agree: every recipe a user gets
      with `is_favorited=1` reads `is_favorited: true` for that user, and
      likewise for the shopping cart. */
  lemma FilteredAreMarked(q: RecipeQuery, users: seq<UserId>, tags: seq<Tag>, recipes: seq<Recipe>,
    favorites: set<JoinPair>, shoppingList: set<JoinPair>, user: UserId)
    requires FilterRecipes(q, users, tags, recipes, favorites, shoppingList, User(user)).Success?
    ensures var listed := FilterRecipes(q, users, tags, recipes, favorites, shoppingList, User(user)).value;
      && (q.isFavorited == Some(true) ==> forall x :: x in listed ==> IsMarked(favorites, User(user), x.id))
      && (q.isInShoppingCart == Some(true) ==> forall x :: x in listed ==> IsMarked(shoppingList, User(user), x.id))
  {
  }

  // ---------------------------------------------------------------------
  // IngredientFilter
  // ---------------------------------------------------------------------

  /** The query parameter IngredientFilter reads its search terms from. */
  const IngredientSearchParam: string := "name"

  /** `get_search_terms`: the value of the `name` parameter split into terms
      (`split` stands for the framework's splitting on commas and
      whitespace); no parameter, no terms. */
  function SearchTerms(params: map<string, string>, split: string -> seq<string>): (terms: seq<string>)
    ensures IngredientSearchParam !in params ==> terms == []
    ensures IngredientSearchParam in params ==> terms == split(params["name"])
  {
    if IngredientSearchParam in params then split(params[IngredientSearchParam]) else []
  }

  /** The search over `search_fields = ("name",)`: an ingredient is kept when
      every term of the `name` parameter matches its name. `contains` stands
      for the database's case-insensitive containment, which is not
      modelled. */
  function SearchIngredients(ingredients: seq<Ingredient>, params: map<string, string>,
    split: string -> seq<string>, contains: (string, string) -> bool)
    : (found: seq<Ingredient>)
    ensures forall i :: i in found <==>
      i in ingredients && forall t :: t in SearchTerms(params, split) ==> contains(i.name, t)
  {
    var terms := SearchTerms(params, split);
    Filter(ingredients, (i: Ingredient) => forall t :: t in terms ==> contains(i.name, t))
  }

  /** Without a `name` parameter, or with one that holds no term, the search
      returns every ingredient, in order. */
  lemma NoTermsFindsAll(ingredients: seq<Ingredient>, params: map<string, string>,
    split: string -> seq<string>, contains: (string, string) -> bool)
    requires SearchTerms(params, split) == []
    ensures SearchIngredients(ingredients, params, split, contains) == ingredients
  {
    var terms := SearchTerms(params, split);
    FilterAll(ingredients, (i: Ingredient) => forall t :: t in terms ==> contains(i.name, t));
  }
}
