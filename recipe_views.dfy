// recipes/views.py: the recipe viewset's serializer choice, the write
// endpoints, the favorite and shopping-cart actions, and the shopping-list
// export.
module RecipeViews {
  import opened Common
  import opened Seqs
  import opened Models
  import opened RecipeSerializers
  import opened Report

  // ---------------------------------------------------------------------
  // get_serializer_class
  // ---------------------------------------------------------------------

  /** RecipeSerializer (the nested read form) or RecipeCreateSerializer. */
  datatype SerializerKind = ReadSerializer | WriteSerializer

  /** Only GET reads; every other method writes. */
  function SerializerFor(m: HttpMethod): (k: SerializerKind)
    ensures k == ReadSerializer <==> m == Get
  {
    if m == Get then ReadSerializer else WriteSerializer
  }

  // ---------------------------------------------------------------------
  // Create, update and destroy a recipe
  // ---------------------------------------------------------------------

  /** POST /recipes/: anonymous callers are refused by IsAuthenticatedOrReadOnly,
      an invalid body is answered with its field errors, and a valid one is
      saved with the caller as author (`perform_create`). */
  method CreateRecipe(db: Store, caller: Caller, input: RecipeInput) returns (response: Response<Recipe>)
    requires db.Valid()
    requires caller.User? ==> caller.id in db.users
    modifies db`recipes, db`nextRecipeId, db`ingredientRows
    ensures db.Valid()
    ensures caller.Anonymous? ==> response == Unauthorized
    ensures caller.User? ==>
      (response.Created? <==> Acceptable(input, false, TagIds(db.tags), IngredientIds(db.ingredients)))
    ensures !response.Created? ==>
      && (response.Unauthorized? || (response.BadRequest? && |response.errors| > 0))
      && db.recipes == old(db.recipes) && db.ingredientRows == old(db.ingredientRows)
      && db.nextRecipeId == old(db.nextRecipeId)
    ensures response.Created? ==>
      && response.body == NewRecord(old(db.nextRecipeId), caller.id, input)
      && response.body.id !in RecipeIds(old(db.recipes))
      && db.nextRecipeId == old(db.nextRecipeId) + 1
      && db.recipes == old(db.recipes) + [response.body]
      && db.ingredientRows == old(db.ingredientRows) + RowsFor(response.body.id, input.ingredients.value)
      && RowsOf(db.ingredientRows, response.body.id) == RowsFor(response.body.id, input.ingredients.value)
  {
    if caller.Anonymous? {
      return Unauthorized;
    }
    var errors := ValidateRecipeInput(input, false, TagIds(db.tags), IngredientIds(db.ingredients));
    if errors != [] {
      return BadRequest(errors);
    }
    var id := Create(db, caller.id, input);
    response := Created(db.recipes[|db.recipes| - 1]);
  }

  /** PUT or PATCH /recipes/{id}/: anonymous callers are refused, an unknown id
      is 404 (`get_object` runs before validation), an invalid body is 400, and
      a valid one is applied by `update`. PATCH validates partially. Any
      authenticated user may update any recipe: the viewset has no author
      check. */
  method UpdateRecipe(db: Store, caller: Caller, m: HttpMethod, id: RecipeId, input: RecipeInput)
    returns (response: Response<Recipe>)
    requires db.Valid()
    requires m == Put || m == Patch
    modifies db`recipes, db`ingredientRows
    ensures db.Valid()
    ensures caller.Anonymous? ==> response == Unauthorized
    ensures caller.User? && id !in RecipeIds(old(db.recipes)) ==> response == NotFound
    ensures caller.User? && id in RecipeIds(old(db.recipes)) ==>
      (response.Ok? <==> Acceptable(input, m == Patch, TagIds(db.tags), IngredientIds(db.ingredients)))
    ensures !response.Ok? ==> db.recipes == old(db.recipes) && db.ingredientRows == old(db.ingredientRows)
    ensures response.Ok? ==>
      && response.body == Revised(FindRecipe(old(db.recipes), id).value, input)
      && db.recipes == ReplaceRecipe(old(db.recipes), response.body)
      && FindRecipe(db.recipes, id) == Some(response.body)
      && db.ingredientRows == (if input.ingredients.Some?
           then RowsWithout(old(db.ingredientRows), id) + RowsFor(id, input.ingredients.value)
           else old(db.ingredientRows))
      && RowsOf(db.ingredientRows, id) == (if input.ingredients.Some?
           then RowsFor(id, input.ingredients.value) else RowsOf(old(db.ingredientRows), id))
      && forall other :: other != id ==> RowsOf(db.ingredientRows, other) == RowsOf(old(db.ingredientRows), other)
  {
    if caller.Anonymous? {
      return Unauthorized;
    }
    var found := FindRecipe(db.recipes, id);
    if found.None? {
      return NotFound;
    }
    var partial := m == Patch;
    var errors := ValidateRecipeInput(input, partial, TagIds(db.tags), IngredientIds(db.ingredients));
    if errors != [] {
      return BadRequest(errors);
    }
    UpdateReplacesIngredients(db.ingredientRows, id, input);
    FindReplaced(db.recipes, Revised(found.value, input));
    Update(db, id, input, partial);
    response := Ok(Revised(found.value, input));
  }

  /** PUT or PATCH /recipes/{id}/ with `update` as written: the same checks as
      `UpdateRecipe`, but a body without `tags` or `ingredients` (possible only
      for PATCH) makes `update` raise after it has cleared the tags and deleted
      the rows. The answer is 500, and since requests are not atomic the
      deletions stay. */
  method UpdateRecipeAsWritten(db: Store, caller: Caller, m: HttpMethod, id: RecipeId, input: RecipeInput)
    returns (response: Response<Recipe>)
    requires db.Valid()
    requires m == Put || m == Patch
    modifies db`recipes, db`ingredientRows
    ensures db.Valid()
    ensures caller.Anonymous? ==> response == Unauthorized
    ensures caller.User? && id !in RecipeIds(old(db.recipes)) ==> response == NotFound
    ensures caller.User? && id in RecipeIds(old(db.recipes)) ==>
      && (response.BadRequest? <==> !Acceptable(input, m == Patch, TagIds(db.tags), IngredientIds(db.ingredients)))
      && (response.ServerError? <==>
            Acceptable(input, m == Patch, TagIds(db.tags), IngredientIds(db.ingredients))
            && !(input.tags.Some? && input.ingredients.Some?))
    ensures m == Put ==> !response.ServerError?
    ensures !response.Ok? && !response.ServerError? ==>
      db.recipes == old(db.recipes) && db.ingredientRows == old(db.ingredientRows)
    ensures response.Ok? ==>
      && response.body == Revised(FindRecipe(old(db.recipes), id).value, input)
      && db.recipes == ReplaceRecipe(old(db.recipes), response.body)
      && db.ingredientRows == RowsWithout(old(db.ingredientRows), id) + RowsFor(id, input.ingredients.value)
    ensures response.ServerError? ==>
      && db.recipes == ReplaceRecipe(old(db.recipes), FindRecipe(old(db.recipes), id).value.(
           tags := if input.tags.Some? then TagSet(input.tags.value) else {}))
      && db.ingredientRows == RowsWithout(old(db.ingredientRows), id)
  {
    if caller.Anonymous? {
      return Unauthorized;
    }
    var found := FindRecipe(db.recipes, id);
    if found.None? {
      return NotFound;
    }
    var partial := m == Patch;
    var errors := ValidateRecipeInput(input, partial, TagIds(db.tags), IngredientIds(db.ingredients));
    if errors != [] {
      return BadRequest(errors);
    }
    var completed := UpdateAsWritten(db, id, input, partial);
    if completed {
      response := Ok(Revised(found.value, input));
    } else {
      response := ServerError;
    }
  }

  /** DELETE /recipes/{id}/: 401 for anonymous callers, 404 for an unknown id,
      otherwise the recipe and everything that cascades from it is deleted. */
  method DestroyRecipe(db: Store, caller: Caller, id: RecipeId) returns (response: Response<Recipe>)
    requires db.Valid()
    modifies db`recipes, db`ingredientRows, db`favorites, db`shoppingList
    ensures db.Valid()
    ensures caller.Anonymous? ==> response == Unauthorized
    ensures caller.User? && id !in RecipeIds(old(db.recipes)) ==> response == NotFound
    ensures caller.User? && id in RecipeIds(old(db.recipes)) ==> response == NoContent
    ensures response.NoContent? ==>
      && id !in RecipeIds(db.recipes)
      && db.recipes == RecipesWithout(old(db.recipes), id)
      && db.ingredientRows == RowsWithout(old(db.ingredientRows), id)
      && db.favorites == PairsWithout(old(db.favorites), id)
      && db.shoppingList == PairsWithout(old(db.shoppingList), id)
    ensures !response.NoContent? ==>
      && db.recipes == old(db.recipes) && db.ingredientRows == old(db.ingredientRows)
      && db.favorites == old(db.favorites) && db.shoppingList == old(db.shoppingList)
  {
    if caller.Anonymous? {
      return Unauthorized;
    }
    if id !in RecipeIds(db.recipes) {
      return NotFound;
    }
    db.DeleteRecipe(id);
    response := NoContent;
  }

  // ---------------------------------------------------------------------
  // favorite and shopping_cart
  // ---------------------------------------------------------------------

  /** The answer of a favorite / shopping-cart action and the relation after it. */
  datatype Marking = Marking(response: Response<Summary>, relation: set<JoinPair>)

  /** POST: the serializer resolves `recipe` (an unknown pk is a field error,
      400), `validate` rejects a pair already present (400), and otherwise
      the pair is saved and the recipe's short form returned with 201. */
  function AddMark(relation: set<JoinPair>, recipes: seq<Recipe>, user: UserId, pk: RecipeId): (m: Marking)
    ensures pk !in RecipeIds(recipes) ==> m == Marking(BadRequest([RecipeDoesNotExist]), relation)
    ensures pk in RecipeIds(recipes) && JoinPair(user, pk) in relation ==>
      m == Marking(BadRequest([AlreadyAdded]), relation)
    ensures pk in RecipeIds(recipes) && JoinPair(user, pk) !in relation ==>
      && m.response == Created(SummaryOf(FindRecipe(recipes, pk).value))
      && m.relation == relation + {JoinPair(user, pk)}
  {
    match FindRecipe(recipes, pk)
    case None => Marking(BadRequest([RecipeDoesNotExist]), relation)
    case Some(recipe) =>
      match ValidatePair(relation, user, pk)
      case Failure(reason) => Marking(BadRequest([reason]), relation)
      case Success(pair) => Marking(Created(SummaryOf(recipe)), relation + {pair})
  }

  /** DELETE: `get_object_or_404` on the recipe, then on the pair; the pair is
      deleted and 204 returned. */
  function RemoveMark(relation: set<JoinPair>, recipes: seq<Recipe>, user: UserId, pk: RecipeId): (m: Marking)
    ensures pk !in RecipeIds(recipes) || JoinPair(user, pk) !in relation ==> m == Marking(NotFound, relation)
    ensures pk in RecipeIds(recipes) && JoinPair(user, pk) in relation ==>
      m == Marking(NoContent, relation - {JoinPair(user, pk)})
  {
    if FindRecipe(recipes, pk).None? || JoinPair(user, pk) !in relation then Marking(NotFound, relation)
    else Marking(NoContent, relation - {JoinPair(user, pk)})
  }

  /** One action on one relation: 401 for anonymous callers (IsAuthenticated),
      otherwise POST adds and DELETE removes. */
  function Mark(relation: set<JoinPair>, recipes: seq<Recipe>, caller: Caller, m: HttpMethod, pk: RecipeId): (res: Marking)
    requires m == Post || m == Delete
    ensures caller.Anonymous? ==> res == Marking(Unauthorized, relation)
    ensures caller.User? && m == Post ==> res == AddMark(relation, recipes, caller.id, pk)
    ensures caller.User? && m == Delete ==> res == RemoveMark(relation, recipes, caller.id, pk)
  {
    match caller
    case Anonymous => Marking(Unauthorized, relation)
    case User(u) => if m == Post then AddMark(relation, recipes, u, pk) else RemoveMark(relation, recipes, u, pk)
  }

  /** A successful mark holds a row for the caller and that recipe only. */
  lemma MarkKeepsPairsValid(relation: set<JoinPair>, users: seq<UserId>, recipes: seq<Recipe>,
    caller: Caller, m: HttpMethod, pk: RecipeId)
    requires m == Post || m == Delete
    requires PairsValid(relation, users, RecipeIds(recipes))
    requires caller.User? ==> caller.id in users
    ensures PairsValid(Mark(relation, recipes, caller, m, pk).relation, users, RecipeIds(recipes))
  {
  }

  /** Adding a recipe twice: the second POST fails with "already added" and
      leaves the relation as the first one left it. */
  lemma AddTwice(relation: set<JoinPair>, recipes: seq<Recipe>, user: UserId, pk: RecipeId)
    requires pk in RecipeIds(recipes)
    ensures var first := AddMark(relation, recipes, user, pk);
      AddMark(first.relation, recipes, user, pk) == Marking(BadRequest([AlreadyAdded]), first.relation)
  {
  }

  /** A POST that succeeds followed by a DELETE of the same recipe restores the
      relation and answers 204; a DELETE after a DELETE answers 404. */
  lemma AddThenRemove(relation: set<JoinPair>, recipes: seq<Recipe>, user: UserId, pk: RecipeId)
    requires pk in RecipeIds(recipes) && JoinPair(user, pk) !in relation
    ensures var added := AddMark(relation, recipes, user, pk);
      RemoveMark(added.relation, recipes, user, pk) == Marking(NoContent, relation)
    ensures var removed := RemoveMark(relation + {JoinPair(user, pk)}, recipes, user, pk);
      RemoveMark(removed.relation, recipes, user, pk) == Marking(NotFound, relation)
  {
    assert relation + {JoinPair(user, pk)} - {JoinPair(user, pk)} == relation;
  }

  /** The read flags follow the actions: after a successful POST the recipe
      reads as marked for the caller, after a successful DELETE as unmarked,
      and no other user's or recipe's flag changes. */
  lemma MarkFlags(relation: set<JoinPair>, recipes: seq<Recipe>, user: UserId, m: HttpMethod, pk: RecipeId,
    viewer: Caller, other: RecipeId)
    requires m == Post || m == Delete
    ensures var res := Mark(relation, recipes, User(user), m, pk);
      && (res.response.Created? ==> IsMarked(res.relation, User(user), pk))
      && (res.response.NoContent? ==> !IsMarked(res.relation, User(user), pk))
      && (viewer != User(user) || other != pk ==> IsMarked(res.relation, viewer, other) == IsMarked(relation, viewer, other))
  {
  }

  /** POST / DELETE /recipes/{id}/favorite/. */
  method Favorite(db: Store, caller: Caller, m: HttpMethod, pk: RecipeId) returns (response: Response<Summary>)
    requires db.Valid()
    requires caller.User? ==> caller.id in db.users
    requires m == Post || m == Delete
    modifies db`favorites
    ensures db.Valid()
    ensures Marking(response, db.favorites) == Mark(old(db.favorites), db.recipes, caller, m, pk)
  {
    var res := Mark(db.favorites, db.recipes, caller, m, pk);
    MarkKeepsPairsValid(db.favorites, db.users, db.recipes, caller, m, pk);
    db.favorites := res.relation;
    response := res.response;
  }

  /** POST / DELETE /recipes/{id}/shopping_cart/. */
  method ShoppingCart(db: Store, caller: Caller, m: HttpMethod, pk: RecipeId) returns (response: Response<Summary>)
    requires db.Valid()
    requires caller.User? ==> caller.id in db.users
    requires m == Post || m == Delete
    modifies db`shoppingList
    ensures db.Valid()
    ensures Marking(response, db.shoppingList) == Mark(old(db.shoppingList), db.recipes, caller, m, pk)
  {
    var res := Mark(db.shoppingList, db.recipes, caller, m, pk);
    MarkKeepsPairsValid(db.shoppingList, db.users, db.recipes, caller, m, pk);
    db.shoppingList := res.relation;
    response := res.response;
  }

  // ---------------------------------------------------------------------
  // download_shopping_cart
  // ---------------------------------------------------------------------

  /** One ingredient row of a recipe in the cart, with the ingredient's name
      and unit: a row of the export query before grouping. */
  datatype CartLine = CartLine(name: string, unit: string, amount: int)

  /** The rows the export query reads:
      `IngredientInRecipe.objects.filter(recipe__shopping_list__user=user)`,
      in table order. The join with the ingredient drops a row whose
      ingredient is missing, which cannot occur in a valid store. */
  function CartRows(rows: seq<IngredientInRecipe>, ingredients: seq<Ingredient>, cart: set<JoinPair>, user: UserId)
    : seq<IngredientInRecipe>
  {
    Filter(rows, (x: IngredientInRecipe) => JoinPair(user, x.recipe) in cart && x.ingredient in IngredientIds(ingredients))
  }

  /** One row joined with its ingredient's name and unit. */
  function LineOf(ingredients: seq<Ingredient>, row: IngredientInRecipe): (l: CartLine)
    requires row.ingredient in IngredientIds(ingredients)
    ensures exists i :: (i in ingredients && i.id == row.ingredient
      && l == CartLine(i.name, i.measurementUnit, row.amount))
  {
    var i := FindIngredient(ingredients, row.ingredient).value;
    CartLine(i.name, i.measurementUnit, row.amount)
  }

  /** The export query before grouping: one line per cart row, in order,
      carrying its ingredient's name and unit and its amount. */
  function CartLines(rows: seq<IngredientInRecipe>, ingredients: seq<Ingredient>, cart: set<JoinPair>, user: UserId)
    : (lines: seq<CartLine>)
    ensures |lines| == |CartRows(rows, ingredients, cart, user)|
    ensures forall k :: 0 <= k < |lines| ==>
      && CartRows(rows, ingredients, cart, user)[k].ingredient in IngredientIds(ingredients)
      && lines[k] == LineOf(ingredients, CartRows(rows, ingredients, cart, user)[k])
  {
    if |rows| == 0 then []
    else
      var row := rows[0];
      (if JoinPair(user, row.recipe) in cart && row.ingredient in IngredientIds(ingredients)
       then [LineOf(ingredients, row)] else [])
      + CartLines(rows[1..], ingredients, cart, user)
  }

  predicate HasKey(groups: seq<Entry>, name: string, unit: string) {
    exists k :: 0 <= k < |groups| && groups[k].name == name && groups[k].unit == unit
  }

  /** `values("ingredient__name", "ingredient__measurement_unit")`: one group
      per (name, unit) pair. */
  predicate KeysDistinct(groups: seq<Entry>) {
    forall i, j :: 0 <= i < j < |groups| ==> groups[i].name != groups[j].name || groups[i].unit != groups[j].unit
  }

  /** The amounts of the lines with this name and unit, added up. */
  function SumFor(lines: seq<CartLine>, name: string, unit: string): int {
    if |lines| == 0 then 0
    else
      var l := lines[|lines| - 1];
      SumFor(lines[..|lines| - 1], name, unit) + (if l.name == name && l.unit == unit then l.amount else 0)
  }

  /** Folds one line into the groups: its amount is added to the group with
      its key, or a new group is opened after the others. */
  function AddLine(groups: seq<Entry>, l: CartLine): seq<Entry> {
    if HasKey(groups, l.name, l.unit) then
      seq(|groups|, k requires 0 <= k < |groups| =>
        if groups[k].name == l.name && groups[k].unit == l.unit
        then groups[k].(total := groups[k].total + l.amount) else groups[k])
    else groups + [Entry(l.name, l.amount, l.unit)]
  }

  /** `.annotate(Sum("amount"))` over the grouped rows. The database does not
      fix the order of the groups; here they come in order of first
      appearance. */
  function Group(lines: seq<CartLine>): seq<Entry> {
    if |lines| == 0 then [] else AddLine(Group(lines[..|lines| - 1]), lines[|lines| - 1])
  }

  lemma {:induction false} SumForAbsent(lines: seq<CartLine>, name: string, unit: string)
    requires forall l :: l in lines ==> l.name != name || l.unit != unit
    ensures SumFor(lines, name, unit) == 0
  {
    if |lines| > 0 {
      assert lines[|lines| - 1] in lines;
      assert forall l :: l in lines[..|lines| - 1] ==> l in lines;
      SumForAbsent(lines[..|lines| - 1], name, unit);
    }
  }

  /** The grouping is right: one group per (name, unit) pair, a group for
      exactly the pairs that occur among the lines, and each group's total is
      the sum of the amounts of its lines. */
  lemma {:induction false} GroupCorrect(lines: seq<CartLine>)
    ensures KeysDistinct(Group(lines))
    ensures forall name, unit :: HasKey(Group(lines), name, unit) <==>
      exists l :: l in lines && l.name == name && l.unit == unit
    ensures forall k :: 0 <= k < |Group(lines)| ==>
      Group(lines)[k].total == SumFor(lines, Group(lines)[k].name, Group(lines)[k].unit)
  {
    if |lines| > 0 {
      var init := lines[..|lines| - 1];
      var l := lines[|lines| - 1];
      GroupCorrect(init);
      var g := Group(init);
      assert lines == init + [l];
      assert forall x :: x in lines <==> x in init || x == l;
      if HasKey(g, l.name, l.unit) {
        var g' := AddLine(g, l);
        assert forall k :: 0 <= k < |g| ==> g'[k].name == g[k].name && g'[k].unit == g[k].unit;
        assert forall name, unit :: HasKey(g', name, unit) <==> HasKey(g, name, unit) by {
          forall name, unit ensures HasKey(g', name, unit) <==> HasKey(g, name, unit) {
            if HasKey(g, name, unit) {
              var k :| 0 <= k < |g| && g[k].name == name && g[k].unit == unit;
              assert g'[k].name == name && g'[k].unit == unit;
            }
            if HasKey(g', name, unit) {
              var k :| 0 <= k < |g'| && g'[k].name == name && g'[k].unit == unit;
              assert g[k].name == name && g[k].unit == unit;
            }
          }
        }
      } else {
        var g' := g + [Entry(l.name, l.amount, l.unit)];
        SumForAbsent(init, l.name, l.unit);
        assert forall name, unit :: HasKey(g', name, unit) <==> HasKey(g, name, unit) || (name == l.name && unit == l.unit) by {
          forall name, unit ensures HasKey(g', name, unit) <==> HasKey(g, name, unit) || (name == l.name && unit == l.unit) {
            if HasKey(g, name, unit) {
              var k :| 0 <= k < |g| && g[k].name == name && g[k].unit == unit;
              assert g'[k].name == name && g'[k].unit == unit;
            }
            if name == l.name && unit == l.unit {
              assert g'[|g|].name == name && g'[|g|].unit == unit;
            }
          }
        }
      }
    }
  }

  lemma {:induction false} SumForAppend(xs: seq<CartLine>, ys: seq<CartLine>, name: string, unit: string)
    ensures SumFor(xs + ys, name, unit) == SumFor(xs, name, unit) + SumFor(ys, name, unit)
    decreases |ys|
  {
    if |ys| == 0 {
      assert xs + ys == xs;
    } else {
      var init := ys[..|ys| - 1];
      assert (xs + ys)[..|xs + ys| - 1] == xs + init;
      assert (xs + ys)[|xs + ys| - 1] == ys[|ys| - 1];
      SumForAppend(xs, init, name, unit);
    }
  }

  /** Whether a row's ingredient has this name and unit. */
  predicate RowHasKey(ingredients: seq<Ingredient>, row: IngredientInRecipe, name: string, unit: string) {
    match FindIngredient(ingredients, row.ingredient)
    case None => false
    case Some(i) => i.name == name && i.measurementUnit == unit
  }

  /** The amounts of some rows, added up. */
  function AmountSum(rows: seq<IngredientInRecipe>): int {
    if |rows| == 0 then 0 else rows[0].amount + AmountSum(rows[1..])
  }

  /** `SUM(amount)` over the rows of the user's cart whose ingredient has this
      name and unit: the value the export promises for that group. */
  function CartTotal(rows: seq<IngredientInRecipe>, ingredients: seq<Ingredient>, cart: set<JoinPair>,
    user: UserId, name: string, unit: string): int
  {
    AmountSum(Filter(rows, (x: IngredientInRecipe) =>
      JoinPair(user, x.recipe) in cart && RowHasKey(ingredients, x, name, unit)))
  }

  /** The total over the first row and the rest. */
  lemma CartTotalUnfold(rows: seq<IngredientInRecipe>, ingredients: seq<Ingredient>, cart: set<JoinPair>,
    user: UserId, name: string, unit: string)
    requires |rows| > 0
    ensures CartTotal(rows, ingredients, cart, user, name, unit) ==
      (if JoinPair(user, rows[0].recipe) in cart && RowHasKey(ingredients, rows[0], name, unit) then rows[0].amount else 0)
      + CartTotal(rows[1..], ingredients, cart, user, name, unit)
  {
    var p := (x: IngredientInRecipe) => JoinPair(user, x.recipe) in cart && RowHasKey(ingredients, x, name, unit);
    var rest := Filter(rows[1..], p);
    if p(rows[0]) {
      assert ([rows[0]] + rest)[1..] == rest;
    } else {
      assert [] + rest == rest;
    }
  }

  /** What the first row contributes to the lines of one (name, unit). */
  lemma HeadLineSum(rows: seq<IngredientInRecipe>, ingredients: seq<Ingredient>, cart: set<JoinPair>,
    user: UserId, name: string, unit: string)
    requires |rows| > 0
    ensures var row := rows[0];
      var head := if JoinPair(user, row.recipe) in cart && row.ingredient in IngredientIds(ingredients)
        then [LineOf(ingredients, row)] else [];
      SumFor(head, name, unit) ==
        (if JoinPair(user, row.recipe) in cart && RowHasKey(ingredients, row, name, unit) then row.amount else 0)
  {
    var row := rows[0];
    if JoinPair(user, row.recipe) in cart && row.ingredient in IngredientIds(ingredients) {
      var head := [LineOf(ingredients, row)];
      assert head[..0] == [];
    }
  }

  /** Adding up the lines of one (name, unit) gives the sum of the amounts
      of exactly the cart rows with that name and unit: every such row is
      counted once and no other row is counted. */
  lemma {:induction false} CartTotals(rows: seq<IngredientInRecipe>, ingredients: seq<Ingredient>,
    cart: set<JoinPair>, user: UserId, name: string, unit: string)
    ensures SumFor(CartLines(rows, ingredients, cart, user), name, unit) == CartTotal(rows, ingredients, cart, user, name, unit)
  {
    if |rows| > 0 {
      var row := rows[0];
      var head := if JoinPair(user, row.recipe) in cart && row.ingredient in IngredientIds(ingredients)
        then [LineOf(ingredients, row)] else [];
      var rest := CartLines(rows[1..], ingredients, cart, user);
      assert CartLines(rows, ingredients, cart, user) == head + rest;
      CartTotals(rows[1..], ingredients, cart, user, name, unit);
      SumForAppend(head, rest, name, unit);
      HeadLineSum(rows, ingredients, cart, user, name, unit);
      CartTotalUnfold(rows, ingredients, cart, user, name, unit);
    }
  }

  /** A (name, unit) occurs among the lines exactly when a row of the cart
      has an ingredient with that name and unit. */
  lemma LinesHaveKey(rows: seq<IngredientInRecipe>, ingredients: seq<Ingredient>, cart: set<JoinPair>, user: UserId,
    name: string, unit: string)
    ensures (exists l :: l in CartLines(rows, ingredients, cart, user) && l.name == name && l.unit == unit) <==>
      (exists row :: row in rows && JoinPair(user, row.recipe) in cart && RowHasKey(ingredients, row, name, unit))
  {
    var lines := CartLines(rows, ingredients, cart, user);
    if l :| l in lines && l.name == name && l.unit == unit {
      LineFromRow(rows, ingredients, cart, user, l);
    }
    if row :| row in rows && JoinPair(user, row.recipe) in cart && RowHasKey(ingredients, row, name, unit) {
      RowGivesLine(rows, ingredients, cart, user, row);
    }
  }

  /** Every line comes from a cart row with the line's name and unit. */
  lemma LineFromRow(rows: seq<IngredientInRecipe>, ingredients: seq<Ingredient>, cart: set<JoinPair>, user: UserId,
    l: CartLine)
    requires l in CartLines(rows, ingredients, cart, user)
    ensures exists row :: row in rows && JoinPair(user, row.recipe) in cart && RowHasKey(ingredients, row, l.name, l.unit)
  {
    var lines := CartLines(rows, ingredients, cart, user);
    var picked := CartRows(rows, ingredients, cart, user);
    var k :| 0 <= k < |lines| && lines[k] == l;
    var row := picked[k];
    assert row in picked;
    assert RowHasKey(ingredients, row, l.name, l.unit);
  }

  /** Every cart row whose ingredient exists gives a line with its name and
      unit. */
  lemma RowGivesLine(rows: seq<IngredientInRecipe>, ingredients: seq<Ingredient>, cart: set<JoinPair>, user: UserId,
    row: IngredientInRecipe)
    requires row in rows && JoinPair(user, row.recipe) in cart && row.ingredient in IngredientIds(ingredients)
    ensures LineOf(ingredients, row) in CartLines(rows, ingredients, cart, user)
  {
    var lines := CartLines(rows, ingredients, cart, user);
    var picked := CartRows(rows, ingredients, cart, user);
    assert row in picked;
    var k :| 0 <= k < |picked| && picked[k] == row;
    assert lines[k] in lines;
  }

  /** The export's promise: the report has one group for exactly each
      (name, unit) among the ingredients of the cart's rows, no two groups
      share one, and each group's total is the sum of the amounts of the cart
      rows with that name and unit. */
  lemma ExportTotals(rows: seq<IngredientInRecipe>, ingredients: seq<Ingredient>, cart: set<JoinPair>, user: UserId)
    ensures var groups := Group(CartLines(rows, ingredients, cart, user));
      && KeysDistinct(groups)
      && (forall name, unit :: HasKey(groups, name, unit) <==>
           exists row :: row in rows && JoinPair(user, row.recipe) in cart && RowHasKey(ingredients, row, name, unit))
      && forall k :: 0 <= k < |groups| ==>
           groups[k].total == CartTotal(rows, ingredients, cart, user, groups[k].name, groups[k].unit)
  {
    var lines := CartLines(rows, ingredients, cart, user);
    GroupCorrect(lines);
    var groups := Group(lines);
    forall name, unit
      ensures HasKey(groups, name, unit) <==>
        exists row :: row in rows && JoinPair(user, row.recipe) in cart && RowHasKey(ingredients, row, name, unit)
    {
      LinesHaveKey(rows, ingredients, cart, user, name, unit);
    }
    forall k | 0 <= k < |groups|
      ensures groups[k].total == CartTotal(rows, ingredients, cart, user, groups[k].name, groups[k].unit)
    {
      CartTotals(rows, ingredients, cart, user, groups[k].name, groups[k].unit);
    }
  }

  /** GET /recipes/download_shopping_cart/: 401 for anonymous callers, 400 with
      no body when the caller's shopping list is empty, otherwise the report
      of the summed ingredients of every recipe in it. The source reaches the
      caller's shopping-list rows through `shopping_lists`, a name the models
      do not declare (the relation is `shopping_list`); this models the
      relation the code evidently means. */
  method DownloadShoppingCart(db: Store, caller: Caller) returns (response: Response<string>)
    requires db.Valid()
    ensures caller.Anonymous? ==> response == Unauthorized
    ensures caller.User? ==>
      (response == BadRequest([]) <==> forall p :: p in db.shoppingList ==> p.user != caller.id)
    ensures caller.User? && response != BadRequest([]) ==>
      response == Ok(Render(Group(CartLines(db.ingredientRows, db.ingredients, db.shoppingList, caller.id))))
  {
    if caller.Anonymous? {
      return Unauthorized;
    }
    if forall p :: p in db.shoppingList ==> p.user != caller.id {
      return BadRequest([]);
    }
    var entries := Group(CartLines(db.ingredientRows, db.ingredients, db.shoppingList, caller.id));
    var table := TableRecipes(entries);
    response := Ok(table);
  }
}
