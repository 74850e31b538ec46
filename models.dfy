// The relational store of recipes/models.py: one record type per model,
// the field bounds and unique constraints as predicates, and the store
// itself as an object whose tables the request handlers update in place.
module Models {
  import opened Common
  import opened Seqs

  /** `MinValueValidator(1)` on Recipe.cooking_time. */
  const MinCookingTime := 1
  /** `MinValueValidator(1)` on IngredientInRecipe.amount. */
  const MinAmount := 1
  /** The upper end of the backend's range for a PositiveIntegerField, which
      Django adds to Recipe.cooking_time as a `MaxValueValidator`. */
  const MaxCookingTime := 2147483647
  /** `max_length=254` on Recipe.name. */
  const MaxNameLength := 254

  datatype Tag = Tag(id: TagId, name: string, color: string, slug: string)

  datatype Ingredient = Ingredient(id: IngredientId, name: string, measurementUnit: string)

  /** A recipe row together with its tag links (the `tags` many-to-many). */
  datatype Recipe = Recipe(
    id: RecipeId,
    author: UserId,
    name: string,
    image: string,
    text: string,
    tags: set<TagId>,
    cookingTime: int)

  /** IngredientInRecipe: the through table of Recipe.ingredients. */
  datatype IngredientInRecipe = IngredientInRecipe(recipe: RecipeId, ingredient: IngredientId, amount: int)

  /** A Favorite or a ShoppingList row: the pair (user, recipe). */
  datatype JoinPair = JoinPair(user: UserId, recipe: RecipeId)

  /** A Subscription row: `user` follows `following`. */
  datatype Subscription = Subscription(user: UserId, following: UserId)

  function TagIds(tags: seq<Tag>): set<TagId> {
    set t | t in tags :: t.id
  }

  function IngredientIds(ingredients: seq<Ingredient>): set<IngredientId> {
    set i | i in ingredients :: i.id
  }

  function RecipeIds(recipes: seq<Recipe>): set<RecipeId> {
    set r | r in recipes :: r.id
  }

  /** `Recipe.objects.get(id=id)`, or None where Django raises DoesNotExist. */
  function FindRecipe(recipes: seq<Recipe>, id: RecipeId): (r: Option<Recipe>)
    ensures r.Some? <==> id in RecipeIds(recipes)
    ensures r.Some? ==> r.value in recipes && r.value.id == id
  {
    if |recipes| == 0 then None
    else if recipes[0].id == id then Some(recipes[0])
    else FindRecipe(recipes[1..], id)
  }

  /** `Ingredient.objects.get(id=id)`, or None where Django raises DoesNotExist. */
  function FindIngredient(ingredients: seq<Ingredient>, id: IngredientId): (r: Option<Ingredient>)
    ensures r.Some? <==> id in IngredientIds(ingredients)
    ensures r.Some? ==> r.value in ingredients && r.value.id == id
  {
    if |ingredients| == 0 then None
    else if ingredients[0].id == id then Some(ingredients[0])
    else FindIngredient(ingredients[1..], id)
  }

  // ---------------------------------------------------------------------
  // Field bounds and unique constraints
  // ---------------------------------------------------------------------

  /** Tag.name, Tag.color and Tag.slug are each `unique=True`; id is the key. */
  predicate TagsUnique(tags: seq<Tag>) {
    && NoDup(tags)
    && forall a, b :: a in tags && b in tags ==>
         (a.id == b.id || a.name == b.name || a.color == b.color || a.slug == b.slug) ==> a == b
  }

  predicate IngredientsKeyed(ingredients: seq<Ingredient>) {
    && NoDup(ingredients)
    && forall a, b :: a in ingredients && b in ingredients && a.id == b.id ==> a == b
  }

  /** The per-row bounds of a recipe: its author and tags exist, and
      cooking_time respects its minimum. */
  predicate RecipeBounded(r: Recipe, users: seq<UserId>, tagIds: set<TagId>, nextRecipeId: int) {
    && r.author in users
    && r.tags <= tagIds
    && r.cookingTime >= MinCookingTime
    && 0 <= r.id < nextRecipeId
  }

  predicate RecipesValid(recipes: seq<Recipe>, users: seq<UserId>, tagIds: set<TagId>, nextRecipeId: int) {
    && NoDup(recipes)
    && (forall a, b :: a in recipes && b in recipes && a.id == b.id ==> a == b)
    && forall r :: r in recipes ==> RecipeBounded(r, users, tagIds, nextRecipeId)
  }

  /** `UniqueConstraint(fields=("recipe", "ingredient"))`, amount >= 1, and
      both foreign keys resolve. */
  predicate RowsValid(rows: seq<IngredientInRecipe>, recipeIds: set<RecipeId>, ingredientIds: set<IngredientId>) {
    && NoDup(rows)
    && (forall a, b :: a in rows && b in rows && a.recipe == b.recipe && a.ingredient == b.ingredient ==> a == b)
    && forall row :: row in rows ==>
         row.amount >= MinAmount && row.recipe in recipeIds && row.ingredient in ingredientIds
  }

  /** Favorite and ShoppingList rows: a set, so `UniqueConstraint(fields=("user",
      "recipe"))` holds by construction; both foreign keys resolve. */
  predicate PairsValid(pairs: set<JoinPair>, users: seq<UserId>, recipeIds: set<RecipeId>) {
    forall p :: p in pairs ==> p.user in users && p.recipe in recipeIds
  }

  /** The subscription table has no working unique constraint (the one declared
      names a field `followings` that does not exist); uniqueness and
      "nobody follows themselves" are kept by the subscription serializer and
      stated here as the invariant it preserves. */
  predicate SubscriptionsValid(subscriptions: seq<Subscription>, users: seq<UserId>) {
    && NoDup(subscriptions)
    && forall s :: s in subscriptions ==> s.user != s.following && s.user in users && s.following in users
  }

  /** The whole schema over the tables' values. */
  predicate Schema(
    users: seq<UserId>, tags: seq<Tag>, ingredients: seq<Ingredient>,
    recipes: seq<Recipe>, nextRecipeId: int, ingredientRows: seq<IngredientInRecipe>,
    favorites: set<JoinPair>, shoppingList: set<JoinPair>, subscriptions: seq<Subscription>)
  {
    && 0 <= nextRecipeId
    && NoDup(users)
    && TagsUnique(tags)
    && IngredientsKeyed(ingredients)
    && RecipesValid(recipes, users, TagIds(tags), nextRecipeId)
    && RowsValid(ingredientRows, RecipeIds(recipes), IngredientIds(ingredients))
    && PairsValid(favorites, users, RecipeIds(recipes))
    && PairsValid(shoppingList, users, RecipeIds(recipes))
    && SubscriptionsValid(subscriptions, users)
  }

  // ---------------------------------------------------------------------
  // Cascades (on_delete=models.CASCADE)
  // ---------------------------------------------------------------------

  function RecipesWithout(recipes: seq<Recipe>, id: RecipeId): (r: seq<Recipe>)
    ensures forall x :: x in r <==> x in recipes && x.id != id
  {
    Filter(recipes, (x: Recipe) => x.id != id)
  }

  function RowsWithout(rows: seq<IngredientInRecipe>, id: RecipeId): (r: seq<IngredientInRecipe>)
    ensures forall x :: x in r <==> x in rows && x.recipe != id
  {
    Filter(rows, (x: IngredientInRecipe) => x.recipe != id)
  }

  function PairsWithout(pairs: set<JoinPair>, id: RecipeId): (r: set<JoinPair>)
    ensures forall p :: p in r <==> p in pairs && p.recipe != id
  {
    set p | p in pairs && p.recipe != id
  }

  /** `recipe.save()` on an existing row: the recipe with the same id is
      replaced, every other recipe stays where it was. */
  function ReplaceRecipe(recipes: seq<Recipe>, r: Recipe): (res: seq<Recipe>)
    ensures |res| == |recipes|
    ensures forall k :: 0 <= k < |recipes| ==> res[k] == if recipes[k].id == r.id then r else recipes[k]
  {
    seq(|recipes|, k requires 0 <= k < |recipes| => if recipes[k].id == r.id then r else recipes[k])
  }

  lemma LastReplaced(prefix: seq<Recipe>, before: Recipe, after: Recipe)
    requires before.id == after.id && before.id !in RecipeIds(prefix)
    ensures ReplaceRecipe(prefix + [before], after) == prefix + [after]
  {
    forall k | 0 <= k < |prefix| ensures prefix[k].id != after.id {
      assert prefix[k] in prefix;
    }
  }

  /** Reading a recipe back after `save()` returns the saved record. */
  lemma {:induction false} FindReplaced(recipes: seq<Recipe>, r: Recipe)
    requires r.id in RecipeIds(recipes)
    ensures FindRecipe(ReplaceRecipe(recipes, r), r.id) == Some(r)
  {
    var res := ReplaceRecipe(recipes, r);
    if recipes[0].id != r.id {
      assert r.id in RecipeIds(recipes[1..]) by {
        var x :| x in recipes && x.id == r.id;
        var k :| 0 <= k < |recipes| && recipes[k] == x;
        assert recipes[1..][k - 1] == x;
      }
      assert res[1..] == ReplaceRecipe(recipes[1..], r);
      FindReplaced(recipes[1..], r);
    }
  }

  /** Saving the same recipe twice keeps only the second version. */
  lemma ReplaceTwice(recipes: seq<Recipe>, first: Recipe, second: Recipe)
    requires first.id == second.id
    ensures ReplaceRecipe(ReplaceRecipe(recipes, first), second) == ReplaceRecipe(recipes, second)
  {
  }

  /** `recipe.amount_ingredient.all()`: the ingredient rows of one recipe, in
      table order. */
  function RowsOf(rows: seq<IngredientInRecipe>, id: RecipeId): (res: seq<IngredientInRecipe>)
    ensures forall x :: x in res <==> x in rows && x.recipe == id
  {
    Filter(rows, (x: IngredientInRecipe) => x.recipe == id)
  }

  /** No ingredient row refers to the next primary key yet. */
  lemma FreshIdHasNoRows(
    users: seq<UserId>, tags: seq<Tag>, ingredients: seq<Ingredient>,
    recipes: seq<Recipe>, nextRecipeId: int, ingredientRows: seq<IngredientInRecipe>,
    favorites: set<JoinPair>, shoppingList: set<JoinPair>, subscriptions: seq<Subscription>)
    requires Schema(users, tags, ingredients, recipes, nextRecipeId, ingredientRows, favorites, shoppingList, subscriptions)
    ensures forall x :: x in ingredientRows ==> x.recipe != nextRecipeId
  {
    forall x | x in ingredientRows ensures x.recipe != nextRecipeId {
      var r :| r in recipes && r.id == x.recipe;
    }
  }

  /** Inserting a bounded recipe under the next primary key keeps the schema. */
  lemma AppendRecipeKeepsSchema(
    users: seq<UserId>, tags: seq<Tag>, ingredients: seq<Ingredient>,
    recipes: seq<Recipe>, nextRecipeId: int, ingredientRows: seq<IngredientInRecipe>,
    favorites: set<JoinPair>, shoppingList: set<JoinPair>, subscriptions: seq<Subscription>,
    r: Recipe)
    requires Schema(users, tags, ingredients, recipes, nextRecipeId, ingredientRows, favorites, shoppingList, subscriptions)
    requires r.id == nextRecipeId && RecipeBounded(r, users, TagIds(tags), nextRecipeId + 1)
    ensures r.id !in RecipeIds(recipes)
    ensures RecipeIds(recipes + [r]) == RecipeIds(recipes) + {r.id}
    ensures Schema(users, tags, ingredients, recipes + [r], nextRecipeId + 1, ingredientRows, favorites, shoppingList, subscriptions)
  {
    var rs := recipes + [r];
    assert r !in recipes;
    assert forall x :: x in rs <==> x in recipes || x == r;
    assert RecipeIds(rs) == RecipeIds(recipes) + {r.id};
    assert NoDup(rs) by {
      forall i, j | 0 <= i < j < |rs| ensures rs[i] != rs[j] {
        if j == |recipes| { assert rs[i] in recipes; }
      }
    }
  }

  /** Replacing a recipe by a bounded record with the same id keeps the schema
      and the set of recipe ids. */
  lemma ReplaceRecipeKeepsSchema(
    users: seq<UserId>, tags: seq<Tag>, ingredients: seq<Ingredient>,
    recipes: seq<Recipe>, nextRecipeId: int, ingredientRows: seq<IngredientInRecipe>,
    favorites: set<JoinPair>, shoppingList: set<JoinPair>, subscriptions: seq<Subscription>,
    r: Recipe)
    requires Schema(users, tags, ingredients, recipes, nextRecipeId, ingredientRows, favorites, shoppingList, subscriptions)
    requires r.id in RecipeIds(recipes) && RecipeBounded(r, users, TagIds(tags), nextRecipeId)
    ensures RecipeIds(ReplaceRecipe(recipes, r)) == RecipeIds(recipes)
    ensures Schema(users, tags, ingredients, ReplaceRecipe(recipes, r), nextRecipeId, ingredientRows, favorites, shoppingList, subscriptions)
  {
    var rs := ReplaceRecipe(recipes, r);
    assert forall x :: x in rs ==> x == r || (x in recipes && x.id != r.id);
    assert forall x :: x in recipes && x.id != r.id ==> x in rs by {
      forall x | x in recipes && x.id != r.id ensures x in rs {
        var k :| 0 <= k < |recipes| && recipes[k] == x;
        assert rs[k] == x;
      }
    }
    assert r in rs by {
      var x :| x in recipes && x.id == r.id;
      var k :| 0 <= k < |recipes| && recipes[k] == x;
      assert rs[k] == r;
    }
    assert RecipeIds(rs) == RecipeIds(recipes);
    assert NoDup(rs) by {
      forall i, j | 0 <= i < j < |rs| ensures rs[i] != rs[j] {
        assert recipes[i] != recipes[j];
        assert recipes[i] in recipes && recipes[j] in recipes;
      }
    }
  }

  /** Removing every ingredient row of one recipe keeps the schema. */
  lemma RemoveRowsKeepsSchema(
    users: seq<UserId>, tags: seq<Tag>, ingredients: seq<Ingredient>,
    recipes: seq<Recipe>, nextRecipeId: int, ingredientRows: seq<IngredientInRecipe>,
    favorites: set<JoinPair>, shoppingList: set<JoinPair>, subscriptions: seq<Subscription>,
    id: RecipeId)
    requires Schema(users, tags, ingredients, recipes, nextRecipeId, ingredientRows, favorites, shoppingList, subscriptions)
    ensures Schema(users, tags, ingredients, recipes, nextRecipeId, RowsWithout(ingredientRows, id), favorites, shoppingList, subscriptions)
  {
    FilterNoDup(ingredientRows, (x: IngredientInRecipe) => x.recipe != id);
  }

  /** The database: one field per table, in table order where order is visible. */
  class Store {
    var users: seq<UserId>
    var tags: seq<Tag>
    var ingredients: seq<Ingredient>
    var recipes: seq<Recipe>
    /** The next value of Recipe's auto-increment primary key. */
    var nextRecipeId: int
    var ingredientRows: seq<IngredientInRecipe>
    var favorites: set<JoinPair>
    var shoppingList: set<JoinPair>
    var subscriptions: seq<Subscription>

    ghost predicate Valid()
      reads this
    {
      Schema(users, tags, ingredients, recipes, nextRecipeId, ingredientRows,
             favorites, shoppingList, subscriptions)
    }

    /** An empty database, with users and reference data already loaded. */
    constructor (users: seq<UserId>, tags: seq<Tag>, ingredients: seq<Ingredient>)
      requires NoDup(users) && TagsUnique(tags) && IngredientsKeyed(ingredients)
      ensures Valid()
      ensures this.users == users && this.tags == tags && this.ingredients == ingredients
      ensures recipes == [] && ingredientRows == [] && subscriptions == []
      ensures favorites == {} && shoppingList == {}
    {
      this.users, this.tags, this.ingredients := users, tags, ingredients;
      recipes, nextRecipeId, ingredientRows := [], 0, [];
      favorites, shoppingList, subscriptions := {}, {}, [];
    }

    /** `Recipe.objects.create(...)`: stores the record under the next
        primary key; no ingredient row refers to it yet. */
    method InsertRecipe(r: Recipe)
      requires Valid()
      requires r.id == nextRecipeId && RecipeBounded(r, users, TagIds(tags), nextRecipeId + 1)
      modifies this`recipes, this`nextRecipeId
      ensures Valid()
      ensures r.id !in RecipeIds(old(recipes)) && r.id in RecipeIds(recipes)
      ensures recipes == old(recipes) + [r] && nextRecipeId == old(nextRecipeId) + 1
      ensures forall x :: x in ingredientRows ==> x.recipe != r.id
    {
      FreshIdHasNoRows(users, tags, ingredients, recipes, nextRecipeId, ingredientRows, favorites, shoppingList, subscriptions);
      AppendRecipeKeepsSchema(users, tags, ingredients, recipes, nextRecipeId, ingredientRows,
        favorites, shoppingList, subscriptions, r);
      recipes := recipes + [r];
      nextRecipeId := nextRecipeId + 1;
    }

    /** `recipe.save()` or `recipe.tags.set(...)` on a stored recipe: the
        record with that id is replaced. */
    method SaveRecipe(r: Recipe)
      requires Valid()
      requires r.id in RecipeIds(recipes) && RecipeBounded(r, users, TagIds(tags), nextRecipeId)
      modifies this`recipes
      ensures Valid()
      ensures recipes == ReplaceRecipe(old(recipes), r)
      ensures RecipeIds(recipes) == RecipeIds(old(recipes))
    {
      ReplaceRecipeKeepsSchema(users, tags, ingredients, recipes, nextRecipeId, ingredientRows,
        favorites, shoppingList, subscriptions, r);
      recipes := ReplaceRecipe(recipes, r);
    }

    /** `recipe.ingredients.clear()`: deletes the recipe's rows of the through
        table. */
    method ClearIngredientRows(id: RecipeId)
      requires Valid()
      modifies this`ingredientRows
      ensures Valid()
      ensures ingredientRows == RowsWithout(old(ingredientRows), id)
      ensures forall x :: x in ingredientRows ==> x.recipe != id
    {
      RemoveRowsKeepsSchema(users, tags, ingredients, recipes, nextRecipeId, ingredientRows,
        favorites, shoppingList, subscriptions, id);
      ingredientRows := RowsWithout(ingredientRows, id);
    }

    /** Deleting a recipe deletes, by cascade, its ingredient rows, its
        favorites and its shopping-list rows, and nothing else. */
    method DeleteRecipe(id: RecipeId)
      requires Valid()
      modifies this`recipes, this`ingredientRows, this`favorites, this`shoppingList
      ensures Valid()
      ensures id !in RecipeIds(recipes)
      ensures recipes == RecipesWithout(old(recipes), id)
      ensures ingredientRows == RowsWithout(old(ingredientRows), id)
      ensures favorites == PairsWithout(old(favorites), id)
      ensures shoppingList == PairsWithout(old(shoppingList), id)
    {
      FilterNoDup(recipes, (x: Recipe) => x.id != id);
      FilterNoDup(ingredientRows, (x: IngredientInRecipe) => x.recipe != id);
      var before := recipes;
      recipes := RecipesWithout(recipes, id);
      ingredientRows := RowsWithout(ingredientRows, id);
      favorites := PairsWithout(favorites, id);
      shoppingList := PairsWithout(shoppingList, id);
      assert forall r :: r in RecipeIds(before) && r != id ==> r in RecipeIds(recipes) by {
        forall r | r in RecipeIds(before) && r != id ensures r in RecipeIds(recipes) {
          var x :| x in before && x.id == r;
          assert x in recipes;
        }
      }
    }
  }
}
