// recipes/serializers.py: the recipe write path (field validation,
// create, update with full replacement of tags and ingredient rows), the
// per-user read flags, and the favorite / shopping-list validation.
module RecipeSerializers {
  import opened Common
  import opened Seqs
  import opened Models
  import opened Strings

  /** One element of the nested `ingredients` list: `{"id": ..., "amount": ...}`. */
  datatype IngredientEntry = IngredientEntry(id: IngredientId, amount: int)

  /** The body of a recipe write request. A field the client left out is None;
      name, text and image are opaque strings (image decoding is not modelled). */
  datatype RecipeInput = RecipeInput(
    name: Option<string>,
    tags: Option<seq<TagId>>,
    ingredients: Option<seq<IngredientEntry>>,
    cookingTime: Option<int>,
    text: Option<string>,
    image: Option<string>)

  /** ShowRecipeSerializers: the short form of a recipe. */
  datatype Summary = Summary(id: RecipeId, name: string, image: string, cookingTime: int)

  function SummaryOf(r: Recipe): (s: Summary)
    ensures s.id == r.id && s.name == r.name && s.image == r.image && s.cookingTime == r.cookingTime
  {
    Summary(r.id, r.name, r.image, r.cookingTime)
  }

  function EntryIds(entries: seq<IngredientEntry>): (ids: seq<IngredientId>)
    ensures |ids| == |entries|
    ensures forall k :: 0 <= k < |entries| ==> ids[k] == entries[k].id
  {
    seq(|entries|, k requires 0 <= k < |entries| => entries[k].id)
  }

  function TagSet(tags: seq<TagId>): (s: set<TagId>)
    ensures forall t :: t in s <==> t in tags
  {
    set t | t in tags
  }

  // ---------------------------------------------------------------------
  // Field validators
  // ---------------------------------------------------------------------

  /** `validate_cooking_time`: every value <= 0 is rejected, every positive
      value is returned unchanged. */
  function ValidateCookingTime(cookingTime: int): (r: Result<int, Reason>)
    ensures r.Failure? <==> cookingTime <= 0
    ensures r.Failure? ==> r.error == NonPositiveCookingTime
    ensures r.Success? ==> r.value == cookingTime
  {
    if cookingTime <= 0 then Failure(NonPositiveCookingTime) else Success(cookingTime)
  }

  /** What `validate_tags` accepts: a non-empty list without a repeated id. */
  predicate TagsAccepted(tags: seq<TagId>) {
    |tags| > 0 && NoDup(tags)
  }

  /** What `validate_ingredients` accepts: a non-empty list without a repeated
      ingredient id. The amounts are not looked at. */
  predicate IngredientsAccepted(entries: seq<IngredientEntry>) {
    |entries| > 0 && NoDup(EntryIds(entries))
  }

  /** `validate_tags`: collects the ids seen so far in `tags_list` and fails on
      the first id already collected. */
  method ValidateTags(tags: seq<TagId>) returns (r: Result<seq<TagId>, Reason>)
    ensures r.Success? <==> TagsAccepted(tags)
    ensures r.Success? ==> r.value == tags
    ensures |tags| == 0 ==> r == Failure(EmptyTags)
    ensures |tags| > 0 && !NoDup(tags) ==> r == Failure(DuplicateTags)
  {
    if |tags| == 0 {
      return Failure(EmptyTags);
    }
    var tagsList: seq<TagId> := [];
    for i := 0 to |tags|
      invariant tagsList == tags[..i]
      invariant NoDup(tagsList)
    {
      if tags[i] in tagsList {
        var j :| 0 <= j < i && tags[j] == tags[i];
        assert !NoDup(tags) by { assert tags[j] == tags[i] && j < i; }
        return Failure(DuplicateTags);
      }
      tagsList := tagsList + [tags[i]];
    }
    assert tags[..|tags|] == tags;
    return Success(tags);
  }

  /** `validate_ingredients`: the same loop over the ingredient ids. */
  method ValidateIngredients(entries: seq<IngredientEntry>) returns (r: Result<seq<IngredientEntry>, Reason>)
    ensures r.Success? <==> IngredientsAccepted(entries)
    ensures r.Success? ==> r.value == entries
    ensures |entries| == 0 ==> r == Failure(EmptyIngredients)
    ensures |entries| > 0 && !NoDup(EntryIds(entries)) ==> r == Failure(DuplicateIngredients)
  {
    if |entries| == 0 {
      return Failure(EmptyIngredients);
    }
    var ids := EntryIds(entries);
    var ingredientsList: seq<IngredientId> := [];
    for i := 0 to |entries|
      invariant ingredientsList == ids[..i]
      invariant NoDup(ingredientsList)
    {
      if entries[i].id in ingredientsList {
        var j :| 0 <= j < i && ids[j] == entries[i].id;
        assert !NoDup(ids) by { assert ids[j] == ids[i] && j < i; }
        return Failure(DuplicateIngredients);
      }
      ingredientsList := ingredientsList + [entries[i].id];
    }
    assert ids[..|entries|] == ids;
    return Success(entries);
  }

  /** The amount check that `amount = serializers.IntegerField()` drops: the
      model declares `MinValueValidator(1)`, and an explicitly declared
      serializer field does not inherit it. This is the corrected check the
      write path below applies (see the finding in the README). */
  function ValidateAmount(amount: int): (r: Result<int, Reason>)
    ensures r.Success? <==> amount >= MinAmount
    ensures r.Failure? ==> r.error == AmountBelowMinimum
    ensures r.Success? ==> r.value == amount
  {
    if amount < MinAmount then Failure(AmountBelowMinimum) else Success(amount)
  }

  /** As written, the `ingredients` field accepts an entry whose amount is 0
      (the id resolves and `validate_ingredients` passes), which the model's
      `MinValueValidator(1)` forbids: the field lets through a row the schema
      rules out. The corrected check refuses it. */
  lemma ZeroAmountAccepted()
    ensures IngredientsFieldAsWritten(Some([IngredientEntry(1, 0)]), false, {1})
    ensures !IngredientsOk(Some([IngredientEntry(1, 0)]), false, {1})
    ensures ValidateAmount(0).Failure?
  {
    assert EntryIds([IngredientEntry(1, 0)]) == [1];
    assert IngredientEntry(1, 0) in [IngredientEntry(1, 0)];
  }

  // ---------------------------------------------------------------------
  // The whole body, field by field
  // ---------------------------------------------------------------------

  /** `name`: the CharField built from `CharField(max_length=254)` without
      `blank=True`. The value is stripped, may not be blank, and its stripped
      length is what `max_length` bounds; like every CharField it may not
      hold a null character. */
  predicate NameOk(name: Option<string>, partial: bool) {
    match name
    case None => partial
    case Some(n) => Strip(n) != "" && |Strip(n)| <= MaxNameLength && '\0' !in Strip(n)
  }

  /** `text`: the CharField built from a TextField without `blank=True`: the
      stripped value may not be blank or hold a null character. */
  predicate TextOk(text: Option<string>, partial: bool) {
    match text
    case None => partial
    case Some(t) => Strip(t) != "" && '\0' !in Strip(t)
  }

  predicate TagsOk(tags: Option<seq<TagId>>, partial: bool, tagIds: set<TagId>) {
    match tags
    case None => partial
    case Some(ts) => (forall t :: t in ts ==> t in tagIds) && TagsAccepted(ts)
  }

  /** The `ingredients` field as written: every id names an ingredient and
      `validate_ingredients` passes. The amounts are plain integers. */
  predicate IngredientsFieldAsWritten(ingredients: Option<seq<IngredientEntry>>, partial: bool,
    ingredientIds: set<IngredientId>)
  {
    match ingredients
    case None => partial
    case Some(es) => (forall e :: e in es ==> e.id in ingredientIds) && IngredientsAccepted(es)
  }

  /** The `ingredients` field with the corrected amount check: as written,
      and every amount reaches the model's minimum. */
  predicate IngredientsOk(ingredients: Option<seq<IngredientEntry>>, partial: bool, ingredientIds: set<IngredientId>) {
    && IngredientsFieldAsWritten(ingredients, partial, ingredientIds)
    && (ingredients.Some? ==> forall e :: e in ingredients.value ==> e.amount >= MinAmount)
  }

  /** `cooking_time`: the IntegerField built from the model field, whose
      `min_value` is the model's minimum and whose `max_value` is the top of
      the PositiveIntegerField range. */
  predicate CookingTimeOk(cookingTime: Option<int>, partial: bool) {
    match cookingTime
    case None => partial
    case Some(c) => MinCookingTime <= c <= MaxCookingTime
  }

  /** The serializer accepts the body: every required field is present (unless
      the update is partial) and every present field passes its validators. */
  predicate Acceptable(input: RecipeInput, partial: bool, tagIds: set<TagId>, ingredientIds: set<IngredientId>) {
    && NameOk(input.name, partial)
    && TagsOk(input.tags, partial, tagIds)
    && IngredientsOk(input.ingredients, partial, ingredientIds)
    && CookingTimeOk(input.cookingTime, partial)
    && TextOk(input.text, partial)
    && (input.image.Some? || partial)
  }

  /** The errors of the `name` field: required, and not blank once
      stripped. A value that is not blank goes through every validator of the
      field, in order: at most 254 characters, then no null character; each
      that fails adds its error. */
  method NameErrors(name: Option<string>, partial: bool) returns (errors: seq<Reason>)
    ensures errors == [] <==> NameOk(name, partial)
    ensures |errors| <= 2
    ensures name.Some? && AllSpace(name.value) ==> errors == [Blank(NameField)]
    ensures name.Some? && Strip(name.value) != "" ==>
      && (NameTooLong in errors <==> |Strip(name.value)| > MaxNameLength)
      && (NullCharacters(NameField) in errors <==> '\0' in Strip(name.value))
    ensures forall e :: e in errors ==> e in {Required(NameField), Blank(NameField), NameTooLong, NullCharacters(NameField)}
  {
    errors := [];
    match name {
      case None => if !partial { errors := [Required(NameField)]; }
      case Some(n) =>
        StripBlank(n);
        var value := Strip(n);
        if value == "" {
          errors := [Blank(NameField)];
        } else {
          errors := NameValidators(value);
        }
    }
  }

  /** `run_validators` on a stripped name that is not blank: the length
      limit, then the null-character check, each adding its error. */
  method NameValidators(value: string) returns (errors: seq<Reason>)
    ensures |errors| <= 2
    ensures errors == [] <==> |value| <= MaxNameLength && '\0' !in value
    ensures NameTooLong in errors <==> |value| > MaxNameLength
    ensures NullCharacters(NameField) in errors <==> '\0' in value
    ensures forall e :: e in errors ==> e in {NameTooLong, NullCharacters(NameField)}
  {
    errors := [];
    if |value| > MaxNameLength {
      errors := [NameTooLong];
    }
    if '\0' in value {
      errors := errors + [NullCharacters(NameField)];
    }
  }

  /** The errors of the `text` field: required, not blank once stripped, and
      without a null character. */
  method TextErrors(text: Option<string>, partial: bool) returns (errors: seq<Reason>)
    ensures errors == [] <==> TextOk(text, partial)
    ensures |errors| <= 1
    ensures text.Some? && AllSpace(text.value) ==> errors == [Blank(TextField)]
    ensures text.Some? && '\0' in Strip(text.value) ==> errors == [NullCharacters(TextField)]
    ensures forall e :: e in errors ==> e in {Required(TextField), Blank(TextField), NullCharacters(TextField)}
  {
    errors := [];
    match text {
      case None => if !partial { errors := [Required(TextField)]; }
      case Some(t) =>
        StripBlank(t);
        if Strip(t) == "" {
          errors := [Blank(TextField)];
        } else if '\0' in Strip(t) {
          errors := [NullCharacters(TextField)];
        }
    }
  }

  /** The errors of the `tags` field: every id must name a tag (the related
      field resolves first), then `validate_tags` runs. */
  method TagsErrors(tags: Option<seq<TagId>>, partial: bool, tagIds: set<TagId>) returns (errors: seq<Reason>)
    ensures errors == [] <==> TagsOk(tags, partial, tagIds)
    ensures |errors| <= 1
    ensures tags == Some([]) ==> errors == [EmptyTags]
    ensures forall e :: e in errors ==> e in {Required(TagsField), TagDoesNotExist, EmptyTags, DuplicateTags}
  {
    errors := [];
    match tags {
      case None => if !partial { errors := [Required(TagsField)]; }
      case Some(ts) =>
        if exists t :: t in ts && t !in tagIds {
          errors := [TagDoesNotExist];
        } else {
          var r := ValidateTags(ts);
          if r.Failure? { errors := [r.error]; }
        }
    }
  }

  /** The errors of the `ingredients` field: every id must name an
      ingredient, every amount must reach the minimum (the corrected check,
      see `ValidateAmount`), then `validate_ingredients` runs. */
  method IngredientsErrors(ingredients: Option<seq<IngredientEntry>>, partial: bool, ingredientIds: set<IngredientId>)
    returns (errors: seq<Reason>)
    ensures errors == [] <==> IngredientsOk(ingredients, partial, ingredientIds)
    ensures |errors| <= 1
    ensures ingredients == Some([]) ==> errors == [EmptyIngredients]
    ensures forall e :: e in errors ==>
      e in {Required(IngredientsField), IngredientDoesNotExist, AmountBelowMinimum, EmptyIngredients, DuplicateIngredients}
  {
    errors := [];
    match ingredients {
      case None => if !partial { errors := [Required(IngredientsField)]; }
      case Some(es) =>
        if exists e :: e in es && e.id !in ingredientIds {
          errors := [IngredientDoesNotExist];
        } else if exists e :: e in es && ValidateAmount(e.amount).Failure? {
          errors := [AmountBelowMinimum];
        } else {
          var r := ValidateIngredients(es);
          if r.Failure? { errors := [r.error]; }
        }
    }
  }

  /** The errors of the `cooking_time` field. The serializer field carries
      the model's `MinValueValidator(1)` as its own `min_value=1`, and the
      range of a PositiveIntegerField as `max_value`; both run before
      `validate_cooking_time`, so a value below 1 gets the field's message,
      and `validate_cooking_time` never rejects anything here. */
  method CookingTimeErrors(cookingTime: Option<int>, partial: bool) returns (errors: seq<Reason>)
    ensures errors == [] <==> CookingTimeOk(cookingTime, partial)
    ensures |errors| <= 1
    ensures (exists c :: cookingTime == Some(c) && c <= 0) ==> errors == [BelowMinimum(CookingTimeField)]
    ensures (exists c :: cookingTime == Some(c) && c > MaxCookingTime) ==> errors == [AboveMaximum(CookingTimeField)]
    ensures NonPositiveCookingTime !in errors
  {
    errors := [];
    match cookingTime {
      case None => if !partial { errors := [Required(CookingTimeField)]; }
      case Some(c) =>
        if c < MinCookingTime {
          errors := [BelowMinimum(CookingTimeField)];
        } else if c > MaxCookingTime {
          errors := [AboveMaximum(CookingTimeField)];
        } else {
          var r := ValidateCookingTime(c);
          assert r == Success(c);
        }
    }
  }

  /** `is_valid()`: each field is resolved and validated in declaration order
      (name, tags, ingredients, cooking_time, text, image), and every field
      that fails contributes its first error. */
  method ValidateRecipeInput(input: RecipeInput, partial: bool, tagIds: set<TagId>, ingredientIds: set<IngredientId>)
    returns (errors: seq<Reason>)
    ensures errors == [] <==> Acceptable(input, partial, tagIds, ingredientIds)
    ensures |errors| <= 7
    ensures input.name.Some? && AllSpace(input.name.value) ==> Blank(NameField) in errors
    ensures input.name.Some? && '\0' in Strip(input.name.value) ==> NullCharacters(NameField) in errors
    ensures input.text.Some? && AllSpace(input.text.value) ==> Blank(TextField) in errors
    ensures input.text.Some? && '\0' in Strip(input.text.value) ==> NullCharacters(TextField) in errors
    ensures input.tags == Some([]) ==> EmptyTags in errors
    ensures input.ingredients == Some([]) ==> EmptyIngredients in errors
    ensures (exists c :: input.cookingTime == Some(c) && c <= 0) ==> BelowMinimum(CookingTimeField) in errors
    ensures (exists c :: input.cookingTime == Some(c) && c > MaxCookingTime) ==> AboveMaximum(CookingTimeField) in errors
    ensures NonPositiveCookingTime !in errors
  {
    var name := NameErrors(input.name, partial);
    var tags := TagsErrors(input.tags, partial, tagIds);
    var ingredients := IngredientsErrors(input.ingredients, partial, ingredientIds);
    var cookingTime := CookingTimeErrors(input.cookingTime, partial);
    var text := TextErrors(input.text, partial);
    var image := if input.image.None? && !partial then [Required(ImageField)] else [];
    errors := name + tags + ingredients + cookingTime + text + image;

  }

  // ---------------------------------------------------------------------
  // add_ingredients, create, update
  // ---------------------------------------------------------------------

  /** The rows `create` is expected to leave: one per submitted entry. */
  function RowsFor(recipe: RecipeId, entries: seq<IngredientEntry>): (rows: seq<IngredientInRecipe>)
    ensures |rows| == |entries|
    ensures forall k :: 0 <= k < |entries| ==>
      rows[k] == IngredientInRecipe(recipe, entries[k].id, entries[k].amount)
  {
    seq(|entries|, k requires 0 <= k < |entries| =>
      IngredientInRecipe(recipe, entries[k].id, entries[k].amount))
  }

  /** `update_or_create(recipe=..., ingredient=..., amount=...)`: every field
      is a lookup field, so an identical row is kept and anything else is
      inserted. */
  function UpdateOrCreate(rows: seq<IngredientInRecipe>, row: IngredientInRecipe): seq<IngredientInRecipe> {
    if row in rows then rows else rows + [row]
  }

  /** The table after `add_ingredients` has run `update_or_create` for each
      entry in turn. */
  function AddedRows(rows: seq<IngredientInRecipe>, recipe: RecipeId, entries: seq<IngredientEntry>): seq<IngredientInRecipe> {
    if |entries| == 0 then rows
    else
      var last := entries[|entries| - 1];
      UpdateOrCreate(AddedRows(rows, recipe, entries[..|entries| - 1]), IngredientInRecipe(recipe, last.id, last.amount))
  }

  /** When the recipe has no rows yet and no ingredient repeats (what
      `validate_ingredients` guarantees), `add_ingredients` inserts exactly one
      row per entry, in order, after the rows already there. */
  lemma {:induction false} AddedRowsFresh(rows: seq<IngredientInRecipe>, recipe: RecipeId, entries: seq<IngredientEntry>)
    requires forall x :: x in rows ==> x.recipe != recipe
    requires NoDup(EntryIds(entries))
    ensures AddedRows(rows, recipe, entries) == rows + RowsFor(recipe, entries)
  {
    if |entries| > 0 {
      var n := |entries| - 1;
      var init := entries[..n];
      assert NoDup(EntryIds(init)) by {
        assert forall k :: 0 <= k < n ==> EntryIds(init)[k] == EntryIds(entries)[k];
      }
      AddedRowsFresh(rows, recipe, init);
      var row := IngredientInRecipe(recipe, entries[n].id, entries[n].amount);
      assert row !in rows;
      assert row !in RowsFor(recipe, init) by {
        forall k | 0 <= k < n ensures RowsFor(recipe, init)[k] != row {
          assert EntryIds(entries)[k] != EntryIds(entries)[n];
        }
      }
      assert RowsFor(recipe, entries) == RowsFor(recipe, init) + [row];
    }
  }

  /** The rows of one submission: all of that recipe, and one per ingredient
      when no ingredient repeats. */
  lemma RowsForKeyed(id: RecipeId, entries: seq<IngredientEntry>)
    requires NoDup(EntryIds(entries))
    ensures forall x :: x in RowsFor(id, entries) ==>
      x.recipe == id && exists e :: e in entries && x.ingredient == e.id && x.amount == e.amount
    ensures forall i, j :: 0 <= i < j < |entries| ==> RowsFor(id, entries)[i].ingredient != RowsFor(id, entries)[j].ingredient
    ensures forall a, b :: a in RowsFor(id, entries) && b in RowsFor(id, entries) && a.ingredient == b.ingredient ==> a == b
  {
    var added := RowsFor(id, entries);
    forall x | x in added
      ensures x.recipe == id && exists e :: e in entries && x.ingredient == e.id && x.amount == e.amount
    {
      var k :| 0 <= k < |added| && added[k] == x;
      assert entries[k] in entries;
    }
    forall i, j | 0 <= i < j < |entries| ensures added[i].ingredient != added[j].ingredient {
      assert EntryIds(entries)[i] != EntryIds(entries)[j];
    }
    forall a, b | a in added && b in added && a.ingredient == b.ingredient ensures a == b {
      var i :| 0 <= i < |added| && added[i] == a;
      var j :| 0 <= j < |added| && added[j] == b;
      assert i == j;
    }
  }

  /** Adding the validated rows of a recipe that has none keeps the schema:
      the (recipe, ingredient) pairs stay unique and every amount is >= 1. */
  lemma AppendRowsKeepsSchema(
    users: seq<UserId>, tags: seq<Tag>, ingredients: seq<Ingredient>,
    recipes: seq<Recipe>, nextRecipeId: int, ingredientRows: seq<IngredientInRecipe>,
    favorites: set<JoinPair>, shoppingList: set<JoinPair>, subscriptions: seq<Subscription>,
    id: RecipeId, entries: seq<IngredientEntry>)
    requires Schema(users, tags, ingredients, recipes, nextRecipeId, ingredientRows, favorites, shoppingList, subscriptions)
    requires id in RecipeIds(recipes)
    requires forall x :: x in ingredientRows ==> x.recipe != id
    requires NoDup(EntryIds(entries))
    requires forall e :: e in entries ==> e.id in IngredientIds(ingredients) && e.amount >= MinAmount
    ensures Schema(users, tags, ingredients, recipes, nextRecipeId, ingredientRows + RowsFor(id, entries),
      favorites, shoppingList, subscriptions)
  {
    var added := RowsFor(id, entries);
    var rows := ingredientRows + added;
    RowsForKeyed(id, entries);
    assert forall x :: x in rows <==> x in ingredientRows || x in added;
    assert NoDup(rows) by {
      forall i, j | 0 <= i < j < |rows| ensures rows[i] != rows[j] {
        if j < |ingredientRows| {
        } else if i < |ingredientRows| {
          assert rows[i] in ingredientRows && rows[j] in added;
        } else {
          assert added[i - |ingredientRows|].ingredient != added[j - |ingredientRows|].ingredient;
        }
      }
    }
  }

  /** `add_ingredients`: one `update_or_create` per entry. It is called only
      on a recipe whose rows are gone (a new one, or one `update` has just
      cleared), with entries that passed validation; then it inserts exactly
      one row per entry and the recipe's ingredient list is the submitted one. */
  method AddIngredients(db: Store, entries: seq<IngredientEntry>, recipe: RecipeId)
    requires db.Valid() && recipe in RecipeIds(db.recipes)
    requires forall x :: x in db.ingredientRows ==> x.recipe != recipe
    requires NoDup(EntryIds(entries))
    requires forall e :: e in entries ==> e.id in IngredientIds(db.ingredients) && e.amount >= MinAmount
    modifies db`ingredientRows
    ensures db.Valid()
    ensures db.ingredientRows == AddedRows(old(db.ingredientRows), recipe, entries)
    ensures db.ingredientRows == old(db.ingredientRows) + RowsFor(recipe, entries)
    ensures RowsOf(db.ingredientRows, recipe) == RowsFor(recipe, entries)
  {
    for i := 0 to |entries|
      invariant db.ingredientRows == AddedRows(old(db.ingredientRows), recipe, entries[..i])
    {
      assert entries[..i + 1][..i] == entries[..i];
      var row := IngredientInRecipe(recipe, entries[i].id, entries[i].amount);
      if row !in db.ingredientRows {
        db.ingredientRows := db.ingredientRows + [row];
      }
    }
    assert entries[..|entries|] == entries;
    AddedRowsFresh(old(db.ingredientRows), recipe, entries);
    AppendRowsKeepsSchema(db.users, db.tags, db.ingredients, db.recipes, db.nextRecipeId,
      old(db.ingredientRows), db.favorites, db.shoppingList, db.subscriptions, recipe, entries);
    RowsOfAppended(old(db.ingredientRows), recipe, entries);
  }

  /** `create`: inserts the recipe under the next primary key, adds one
      ingredient row per entry, then sets the tag links to the given tags. */
  method Create(db: Store, author: UserId, input: RecipeInput) returns (id: RecipeId)
    requires db.Valid()
    requires author in db.users
    requires Acceptable(input, false, TagIds(db.tags), IngredientIds(db.ingredients))
    modifies db`recipes, db`nextRecipeId, db`ingredientRows
    ensures db.Valid()
    ensures id == old(db.nextRecipeId) && id !in RecipeIds(old(db.recipes))
    ensures db.nextRecipeId == old(db.nextRecipeId) + 1
    ensures db.recipes == old(db.recipes) + [NewRecord(id, author, input)]
    ensures db.ingredientRows == old(db.ingredientRows) + RowsFor(id, input.ingredients.value)
    ensures RowsOf(db.ingredientRows, id) == RowsFor(id, input.ingredients.value)
  {
    id := InsertUntagged(db, author, input);
    assert forall t :: t in input.tags.value ==> t in TagIds(db.tags);
    SetTags(db, old(db.recipes), NewRecord(id, author, input).(tags := {}), TagSet(input.tags.value));
  }

  /** `recipe.tags.set(tags)` on the recipe just inserted, the last record of
      the table: its tag links become exactly `tags`. */
  method SetTags(db: Store, ghost prefix: seq<Recipe>, recipe: Recipe, tags: set<TagId>)
    requires db.Valid()
    requires db.recipes == prefix + [recipe] && recipe.id !in RecipeIds(prefix)
    requires tags <= TagIds(db.tags)
    modifies db`recipes
    ensures db.Valid()
    ensures db.recipes == prefix + [recipe.(tags := tags)]
  {
    var tagged := recipe.(tags := tags);
    assert recipe in db.recipes;
    LastReplaced(prefix, recipe, tagged);
    db.SaveRecipe(tagged);
  }

  /** The first two steps of `create`: `Recipe.objects.create(**validated_data)`
      without tags, then `add_ingredients`. */
  method InsertUntagged(db: Store, author: UserId, input: RecipeInput) returns (id: RecipeId)
    requires db.Valid()
    requires author in db.users
    requires Acceptable(input, false, TagIds(db.tags), IngredientIds(db.ingredients))
    modifies db`recipes, db`nextRecipeId, db`ingredientRows
    ensures db.Valid()
    ensures id == old(db.nextRecipeId) && id !in RecipeIds(old(db.recipes))
    ensures db.nextRecipeId == old(db.nextRecipeId) + 1
    ensures db.recipes == old(db.recipes) + [NewRecord(id, author, input).(tags := {})]
    ensures db.ingredientRows == old(db.ingredientRows) + RowsFor(id, input.ingredients.value)
    ensures RowsOf(db.ingredientRows, id) == RowsFor(id, input.ingredients.value)
  {
    id := db.nextRecipeId;
    var recipe := NewRecord(id, author, input).(tags := {});
    db.InsertRecipe(recipe);
    AcceptedEntries(input, false, TagIds(db.tags), IngredientIds(db.ingredients));
    AddIngredients(db, input.ingredients.value, id);
  }

  /** After rows for a recipe that had none are appended, that recipe's
      ingredient list is exactly the submitted list, in order, and every other
      recipe's list is untouched. */
  lemma RowsOfAppended(rows: seq<IngredientInRecipe>, id: RecipeId, entries: seq<IngredientEntry>)
    requires forall x :: x in rows ==> x.recipe != id
    ensures RowsOf(rows + RowsFor(id, entries), id) == RowsFor(id, entries)
    ensures forall other :: other != id ==> RowsOf(rows + RowsFor(id, entries), other) == RowsOf(rows, other)
  {
    var added := RowsFor(id, entries);
    FilterAppend(rows, added, (x: IngredientInRecipe) => x.recipe == id);
    FilterNone(rows, (x: IngredientInRecipe) => x.recipe == id);
    assert forall x :: x in added ==> x.recipe == id by {
      forall x | x in added ensures x.recipe == id {
        var k :| 0 <= k < |added| && added[k] == x;
      }
    }
    FilterAll(added, (x: IngredientInRecipe) => x.recipe == id);
    forall other | other != id
      ensures RowsOf(rows + added, other) == RowsOf(rows, other)
    {
      FilterAppend(rows, added, (x: IngredientInRecipe) => x.recipe == other);
      FilterNone(added, (x: IngredientInRecipe) => x.recipe == other);
    }
  }

  /** The record `update` saves: every field the body carries replaces the
      stored one (name and text as the serializer stripped them, the tag list
      as the set of its ids), and every field it leaves out keeps its value. */
  function Revised(r: Recipe, input: RecipeInput): (res: Recipe)
    ensures res.id == r.id && res.author == r.author
    ensures input.name.Some? ==> res.name == Strip(input.name.value)
    ensures input.name.None? ==> res.name == r.name
    ensures input.image.Some? ==> res.image == input.image.value
    ensures input.image.None? ==> res.image == r.image
    ensures input.text.Some? ==> res.text == Strip(input.text.value)
    ensures input.text.None? ==> res.text == r.text
    ensures input.tags.Some? ==> forall t :: t in res.tags <==> t in input.tags.value
    ensures input.tags.None? ==> res.tags == r.tags
    ensures input.cookingTime.Some? ==> res.cookingTime == input.cookingTime.value
    ensures input.cookingTime.None? ==> res.cookingTime == r.cookingTime
  {
    Recipe(
      r.id,
      r.author,
      if input.name.Some? then Strip(input.name.value) else r.name,
      if input.image.Some? then input.image.value else r.image,
      if input.text.Some? then Strip(input.text.value) else r.text,
      if input.tags.Some? then TagSet(input.tags.value) else r.tags,
      if input.cookingTime.Some? then input.cookingTime.value else r.cookingTime)
  }

  /** The record `create` stores: the validated fields, name and text
      stripped, with the given tags and the caller as author. */
  function NewRecord(id: RecipeId, author: UserId, input: RecipeInput): (r: Recipe)
    requires input.name.Some? && input.image.Some? && input.text.Some?
    requires input.tags.Some? && input.cookingTime.Some?
    ensures r.id == id && r.author == author
    ensures r.name == Strip(input.name.value) && r.text == Strip(input.text.value)
    ensures r.image == input.image.value && r.cookingTime == input.cookingTime.value
    ensures forall t :: t in r.tags <==> t in input.tags.value
  {
    Recipe(id, author, Strip(input.name.value), input.image.value, Strip(input.text.value),
      TagSet(input.tags.value), input.cookingTime.value)
  }

  lemma RevisedBounded(r: Recipe, input: RecipeInput, partial: bool,
    users: seq<UserId>, tagIds: set<TagId>, ingredientIds: set<IngredientId>, nextRecipeId: int)
    requires RecipeBounded(r, users, tagIds, nextRecipeId)
    requires Acceptable(input, partial, tagIds, ingredientIds)
    ensures RecipeBounded(Revised(r, input), users, tagIds, nextRecipeId)
  {
    if input.tags.Some? {
      assert forall t :: t in input.tags.value ==> t in tagIds;
    }
    if input.cookingTime.Some? {
      assert input.cookingTime.value > 0;
    }
  }

  /** What an accepted ingredient list guarantees `add_ingredients`. */
  lemma AcceptedEntries(input: RecipeInput, partial: bool, tagIds: set<TagId>, ingredientIds: set<IngredientId>)
    requires Acceptable(input, partial, tagIds, ingredientIds) && input.ingredients.Some?
    ensures NoDup(EntryIds(input.ingredients.value))
    ensures forall e :: e in input.ingredients.value ==> e.id in ingredientIds && e.amount >= MinAmount
  {
  }

  lemma TaggedBounded(r: Recipe, input: RecipeInput, partial: bool,
    users: seq<UserId>, tagIds: set<TagId>, ingredientIds: set<IngredientId>, nextRecipeId: int)
    requires RecipeBounded(r, users, tagIds, nextRecipeId)
    requires Acceptable(input, partial, tagIds, ingredientIds) && input.tags.Some?
    ensures RecipeBounded(r.(tags := TagSet(input.tags.value)), users, tagIds, nextRecipeId)
  {
    assert forall t :: t in input.tags.value ==> t in tagIds;
  }

  /** The first two statements of `update`: `instance.tags.clear()` and
      `instance.ingredients.clear()`, each written to the database at once.
      Returns the record as it was before. */
  method StripLinks(db: Store, id: RecipeId) returns (r: Recipe)
    requires db.Valid() && id in RecipeIds(db.recipes)
    modifies db`recipes, db`ingredientRows
    ensures db.Valid()
    ensures r == FindRecipe(old(db.recipes), id).value
    ensures RecipeBounded(r, db.users, TagIds(db.tags), db.nextRecipeId) && id in RecipeIds(db.recipes)
    ensures db.recipes == ReplaceRecipe(old(db.recipes), r.(tags := {}))
    ensures db.ingredientRows == RowsWithout(old(db.ingredientRows), id)
    ensures forall x :: x in db.ingredientRows ==> x.recipe != id
  {
    r := FindRecipe(db.recipes, id).value;
    db.SaveRecipe(r.(tags := {}));
    db.ClearIngredientRows(id);
  }

  /** `update` as written: it clears the tag links and deletes the ingredient
      rows first, and only then pops `tags` and `amount_ingredient` from the
      validated data. A partial update (PATCH) that leaves either field out
      raises KeyError there, after the deletions, and the request ends in a
      server error with the recipe stripped of its tags or its ingredients.
      `completed` is false exactly in that case. */
  method UpdateAsWritten(db: Store, id: RecipeId, input: RecipeInput, partial: bool) returns (completed: bool)
    requires db.Valid() && id in RecipeIds(db.recipes)
    requires Acceptable(input, partial, TagIds(db.tags), IngredientIds(db.ingredients))
    modifies db`recipes, db`ingredientRows
    ensures db.Valid()
    ensures completed <==> input.tags.Some? && input.ingredients.Some?
    ensures input.tags.None? ==>
      db.recipes == ReplaceRecipe(old(db.recipes), FindRecipe(old(db.recipes), id).value.(tags := {}))
    ensures input.tags.Some? && input.ingredients.None? ==>
      db.recipes == ReplaceRecipe(old(db.recipes), FindRecipe(old(db.recipes), id).value.(tags := TagSet(input.tags.value)))
    ensures completed ==>
      db.recipes == ReplaceRecipe(old(db.recipes), Revised(FindRecipe(old(db.recipes), id).value, input))
    ensures db.ingredientRows == RowsWithout(old(db.ingredientRows), id) +
      (if completed then RowsFor(id, input.ingredients.value) else [])
  {
    var r := StripLinks(db, id);
    if input.tags.None? {
      return false;
    }
    ReplaceTwice(old(db.recipes), r.(tags := {}), r.(tags := TagSet(input.tags.value)));
    ReplaceTwice(old(db.recipes), r.(tags := {}), Revised(r, input));
    completed := RelinkAsWritten(db, r, input, partial);
  }

  /** The rest of `update` as written, once the tags and rows are cleared:
      `tags.set(pop("tags"))`, then `add_ingredients(pop("amount_ingredient"),
      ...)` (KeyError, and so `completed` false, when the list is absent),
      then the remaining fields are saved. */
  method RelinkAsWritten(db: Store, r: Recipe, input: RecipeInput, partial: bool) returns (completed: bool)
    requires db.Valid() && r.id in RecipeIds(db.recipes)
    requires RecipeBounded(r, db.users, TagIds(db.tags), db.nextRecipeId)
    requires Acceptable(input, partial, TagIds(db.tags), IngredientIds(db.ingredients)) && input.tags.Some?
    requires forall x :: x in db.ingredientRows ==> x.recipe != r.id
    modifies db`recipes, db`ingredientRows
    ensures db.Valid()
    ensures completed <==> input.ingredients.Some?
    ensures !completed ==>
      && db.recipes == ReplaceRecipe(old(db.recipes), r.(tags := TagSet(input.tags.value)))
      && db.ingredientRows == old(db.ingredientRows)
    ensures completed ==>
      && db.recipes == ReplaceRecipe(old(db.recipes), Revised(r, input))
      && db.ingredientRows == old(db.ingredientRows) + RowsFor(r.id, input.ingredients.value)
  {
    var tagged := r.(tags := TagSet(input.tags.value));
    TaggedBounded(r, input, partial, db.users, TagIds(db.tags), IngredientIds(db.ingredients), db.nextRecipeId);
    db.SaveRecipe(tagged);
    if input.ingredients.None? {
      return false;
    }
    AcceptedEntries(input, partial, TagIds(db.tags), IngredientIds(db.ingredients));
    AddIngredients(db, input.ingredients.value, r.id);
    var revised := Revised(r, input);
    RevisedBounded(r, input, partial, db.users, TagIds(db.tags), IngredientIds(db.ingredients), db.nextRecipeId);
    ReplaceTwice(old(db.recipes), tagged, revised);
    db.SaveRecipe(revised);
    return true;
  }

  /** The finding exhibited: a PATCH that leaves out `tags` on a recipe with
      ingredients answers with a server error and still deletes every
      ingredient row of the recipe. */
  lemma FailedPatchLosesRows(rows: seq<IngredientInRecipe>, id: RecipeId)
    requires exists x :: x in rows && x.recipe == id
    ensures RowsOf(RowsWithout(rows, id), id) == []
    ensures RowsWithout(rows, id) != rows
  {
    var x :| x in rows && x.recipe == id;
    assert x !in RowsWithout(rows, id);
    FilterNone(RowsWithout(rows, id), (y: IngredientInRecipe) => y.recipe == id);
  }

  /** `update` as intended: a field the body leaves out keeps its stored
      value; a given tag list replaces the tag links; a given ingredient list
      replaces the recipe's ingredient rows. The store is touched only when
      the whole update succeeds. */
  method Update(db: Store, id: RecipeId, input: RecipeInput, partial: bool)
    requires db.Valid() && id in RecipeIds(db.recipes)
    requires Acceptable(input, partial, TagIds(db.tags), IngredientIds(db.ingredients))
    modifies db`recipes, db`ingredientRows
    ensures db.Valid()
    ensures RecipeIds(db.recipes) == RecipeIds(old(db.recipes))
    ensures db.recipes == ReplaceRecipe(old(db.recipes), Revised(FindRecipe(old(db.recipes), id).value, input))
    ensures db.ingredientRows == if input.ingredients.Some?
      then RowsWithout(old(db.ingredientRows), id) + RowsFor(id, input.ingredients.value)
      else old(db.ingredientRows)
  {
    var r := FindRecipe(db.recipes, id).value;
    if input.ingredients.Some? {
      db.ClearIngredientRows(id);
      AddIngredients(db, input.ingredients.value, id);
    }
    var revised := Revised(r, input);
    RevisedBounded(r, input, partial, db.users, TagIds(db.tags), IngredientIds(db.ingredients), db.nextRecipeId);
    db.SaveRecipe(revised);
  }

  /** After a successful update that carries an ingredient list, the recipe's
      ingredients are exactly that list and no other recipe's change; without
      one, every recipe keeps its rows. */
  lemma UpdateReplacesIngredients(rows: seq<IngredientInRecipe>, id: RecipeId, input: RecipeInput)
    ensures var after := if input.ingredients.Some?
              then RowsWithout(rows, id) + RowsFor(id, input.ingredients.value)
              else rows;
      && (input.ingredients.Some? ==> RowsOf(after, id) == RowsFor(id, input.ingredients.value))
      && forall other :: other != id ==> RowsOf(after, other) == RowsOf(rows, other)
  {
    if input.ingredients.Some? {
      var rest := RowsWithout(rows, id);
      RowsOfAppended(rest, id, input.ingredients.value);
      forall other | other != id ensures RowsOf(rest, other) == RowsOf(rows, other) {
        RowsOfWithout(rows, id, other);
      }
    }
  }

  /** Deleting one recipe's rows leaves every other recipe's rows as they were. */
  lemma {:induction false} RowsOfWithout(rows: seq<IngredientInRecipe>, id: RecipeId, other: RecipeId)
    requires other != id
    ensures RowsOf(RowsWithout(rows, id), other) == RowsOf(rows, other)
  {
    if |rows| > 0 {
      var head := rows[0];
      var tail := rows[1..];
      RowsOfWithout(tail, id, other);
      var kept := if head.recipe != id then [head] else [];
      assert RowsWithout(rows, id) == kept + RowsWithout(tail, id);
      FilterAppend(kept, RowsWithout(tail, id), (x: IngredientInRecipe) => x.recipe == other);
      assert RowsOf(rows, other) == (if head.recipe == other then [head] else []) + RowsOf(tail, other);
      if head.recipe == other {
        assert RowsOf(kept, other) == [head];
      } else {
        assert RowsOf(kept, other) == [];
      }
    }
  }

  /** `get_is_favorited` / `get_is_in_shopping_cart`: whether the relation holds
      a row for the requesting user and this recipe. An anonymous user's id is
      None, which matches no row. */
  function IsMarked(relation: set<JoinPair>, caller: Caller, recipe: RecipeId): (marked: bool)
    ensures marked <==> caller.User? && JoinPair(caller.id, recipe) in relation
  {
    match caller
    case Anonymous => false
    case User(u) => JoinPair(u, recipe) in relation
  }

  /** `FavoriteSerializer.validate` / `ShoppingListSerializer.validate` for an
      authenticated user: the pair is rejected exactly when the relation already
      holds it. */
  function ValidatePair(relation: set<JoinPair>, user: UserId, recipe: RecipeId): (r: Result<JoinPair, Reason>)
    ensures r.Failure? <==> JoinPair(user, recipe) in relation
    ensures r.Failure? ==> r.error == AlreadyAdded
    ensures r.Success? ==> r.value == JoinPair(user, recipe) && r.value !in relation
  {
    if JoinPair(user, recipe) in relation then Failure(AlreadyAdded) else Success(JoinPair(user, recipe))
  }
}
