# Foodgram backend: a verified model of the recipe and subscription logic

This project models, in Dafny, the domain logic of a recipe-sharing REST
backend built on Django and Django REST framework. Users publish recipes
(name, image, text, cooking time, tags, ingredient amounts), mark recipes as
favorites or put them in a shopping cart, export the summed ingredients of
their cart as a text report, and subscribe to other authors.

The database is a `Models.Store` object with one field per table. Its
`Valid()` invariant gathers the field bounds and unique constraints of
`recipes/models.py`:
- cooking time and ingredient amount are at least 1;
- a (recipe, ingredient) pair appears in at most one row;
- a (user, recipe) pair appears at most once among favorites and at most once among shopping-list entries;
- tag name, color and slug are each unique;
- every foreign key resolves.

Every request handler that changes the database is proved to keep `Valid()`.

Modules, one per source file:

- `Common` (common.dfy): identifiers, callers, HTTP outcomes and validation reasons.
- `Seqs` (seqs.dfy): order-preserving filtering, the model's query sets.
- `Strings` (strings.dfy): Python's `str.strip()`. The serializer's string
  fields strip their input before checking it for blankness and length, and
  store the stripped value.
- `Models` (models.dfy): `recipes/models.py`, the record types, the schema
  invariant and the ORM steps the handlers use (`create`, `save`,
  `ingredients.clear()`, cascading delete).
- `Report` (utils.dfy): `recipes/utils.py`, `table_recipes`, the report renderer. A loop method is
  proved equal to a rendering function, with exact-format and concatenation
  lemmas and the `str`/`int` round trip of the printed totals.
- `RecipeSerializers` (recipe_serializers.dfy): `recipes/serializers.py`.
  It covers:
  - the field validators, with their loops;
  - the field-by-field validation of a request body;
  - `add_ingredients`, `create` and `update`;
  - the `is_favorited` / `is_in_shopping_cart` flags;
  - the favorite and shopping-list validation.
- `RecipeViews` (recipe_views.dfy): `recipes/views.py`. It covers:
  - serializer selection;
  - create, update and destroy of a recipe;
  - the favorite and shopping-cart actions;
  - the shopping-list export: grouping by (name, unit), then summing.
- `RecipeFilters` (recipe_filters.dfy): `recipes/filters.py`, the recipe
  list filters and the ingredient search parameter.
- `UserSerializers` (user_serializers.dfy): `user/serializers.py`, covering
  `is_subscribed`, the recipes shown with a followed author (including
  `recipes_limit`), and subscription validation.
- `UserViews` (user_views.dfy): `user/views.py`, covering subscribe,
  unsubscribe and the list of followed authors.

Where the code and the project's documented behaviour differ, the model
follows the code:

- The documentation restricts editing and deleting a recipe to its author.
  The viewset has only `IsAuthenticatedOrReadOnly`, so any authenticated user
  may do either (`RecipeViews.UpdateRecipe`, `RecipeViews.DestroyRecipe`).
- Adding a favorite or cart entry for a missing recipe answers 400 (a field
  error of the serializer's `recipe` field), not 404.
- Non-positive ingredient amounts are documented as rejected. The code does
  not check them (first finding below). The request path of this model applies
  the corrected check instead; see the next paragraph.
- The documentation describes fail-fast requests with no partial success. A
  partial update can fail after it has already deleted data (second finding
  below). `RecipeViews.UpdateRecipeAsWritten` is the view as written: it
  answers 500 and keeps those deletions. `RecipeViews.UpdateRecipe` runs the
  corrected `RecipeSerializers.Update` instead.

The as-written amount handling is modelled only at the field:
`RecipeSerializers.IngredientsFieldAsWritten`, `RecipeSerializers.ValidateIngredients`
and `RecipeSerializers.ZeroAmountAccepted`. Everything after the field uses the
corrected rule of `RecipeSerializers.ValidateAmount`. That covers:
- `RecipeSerializers.IngredientsOk` and `RecipeSerializers.IngredientsErrors`;
- `RecipeSerializers.ValidateRecipeInput`;
- the preconditions of `RecipeSerializers.AddIngredients`,
  `RecipeSerializers.Create`, `RecipeSerializers.UpdateAsWritten`,
  `RecipeSerializers.RelinkAsWritten` and `RecipeSerializers.Update`;
- `RecipeViews.CreateRecipe`, `RecipeViews.UpdateRecipe` and
  `RecipeViews.UpdateRecipeAsWritten`.

`RecipeViews.UpdateRecipe` also uses the corrected `update` (second finding).

With the code as written, an amount of 0 would be stored. A negative amount
would fail the database's non-negative check inside `add_ingredients`, after
`Recipe.objects.create` had already committed.

The serializer derives its field checks from the model, and these run before
the `validate_<field>` methods. The consequences:
- A cooking time below 1 is rejected by the field's own minimum, with the
  framework's message, so `validate_cooking_time` never rejects anything.
- A cooking time above 2147483647 is rejected too. Django gives a
  PositiveIntegerField that upper bound, and the serializer field takes it
  as its maximum.
- Name and text may not be blank. They are stripped of surrounding
  whitespace first, and the 254-character limit applies to the stripped name.
- Name and text may not contain a null character. A name can get two
  errors, one for its length and one for a null character.

Two lookups in the source name relations the models do not declare:
- `download_shopping_cart` reaches the cart through `shopping_lists` (the
  relation is `shopping_list`);
- `SubscribeView.get_queryset` filters on `following__user` (the reverse name
  is `followings`).

As written, both would raise. The model states the query each evidently
means, and a comment at each member says so.

## Model

| member | source | states |
|---|---|---|
| `Report.TableRecipes` | backend/recipes/utils.py:1-8 | The loop that appends one segment per entry to the header returns exactly `Render(entries)`. |
| `Report.RenderStartsWithHeader` | backend/recipes/utils.py:2-3 | Every report begins with the title line, and the 48-underscore separator follows it. |
| `Report.RenderEmpty` | backend/recipes/utils.py:1-8 | With no entries, the report is exactly the title line followed by the separator. |
| `Report.RenderSnoc` | backend/recipes/utils.py:4-7 | Appending an entry appends exactly its segment, `"\n" + name + " \| " + str(total) + " \| " + unit + " \n"`, to the report. |
| `Report.RenderAppend` | backend/recipes/utils.py:4-8 | `render(xs + ys)` is `render(xs)` followed by the segments of `ys`: nothing is reordered, merged or dropped. |
| `Report.NatToDecimalRoundTrip` | backend/recipes/utils.py:6 | The printed form of a natural number is a non-empty string of digits that reads back as the same number. |
| `Report.IntToDecimalRoundTrip` | backend/recipes/utils.py:6 | `int(str(n)) == n` for every printed total, negative ones included. |
| `Strings.StripSlice` | backend/recipes/models.py:65-68 | `strip()` returns a slice of its input, with only whitespace cut off either end, that neither begins nor ends with whitespace. |
| `Strings.StripBlank` | backend/recipes/models.py:75-77 | A value is blank after stripping exactly when it is all whitespace. |
| `Strings.StripIdempotent` | backend/recipes/models.py:65-68 | Stripping a stripped value changes nothing. |
| `Models.Store.InsertRecipe` | backend/recipes/serializers.py:202 | `Recipe.objects.create` appends the record under the next primary key. No ingredient row refers to that key yet, and the schema still holds. |
| `Models.Store.SaveRecipe` | backend/recipes/serializers.py:204 | Saving a stored recipe replaces the record with its id and keeps the set of ids and the schema. |
| `Models.Store.ClearIngredientRows` | backend/recipes/serializers.py:209 | Clearing a recipe's ingredients deletes exactly its through-table rows and keeps the schema. |
| `Models.Store.DeleteRecipe` | backend/recipes/models.py:116-121 | Deleting a recipe removes it and, by cascade, exactly its ingredient rows, favorites and shopping-list rows. Nothing else changes, and the schema holds. |
| `Models.AppendRecipeKeepsSchema` | backend/recipes/models.py:89-97 | A recipe whose author and tags exist and whose cooking time is at least 1, stored under a fresh id, keeps every table constraint. |
| `Models.ReplaceRecipeKeepsSchema` | backend/recipes/models.py:57-97 | Replacing a recipe by a record within the field bounds keeps recipe ids unique and the schema intact. |
| `Models.RemoveRowsKeepsSchema` | backend/recipes/models.py:136-141 | Deleting one recipe's ingredient rows keeps the (recipe, ingredient) uniqueness and the other row constraints. |
| `Models.FindReplaced` | backend/recipes/serializers.py:215 | After a stored recipe is saved, looking up its id finds exactly the saved record. |
| `RecipeSerializers.ValidateCookingTime` | backend/recipes/serializers.py:146-151 | Every value <= 0 is rejected with the cooking-time error, and every positive value is returned unchanged. |
| `RecipeSerializers.ValidateTags` | backend/recipes/serializers.py:153-161 | The loop accepts exactly a non-empty tag list without a repeated id, returning it unchanged. An empty list fails with the missing-tag error, and a repeat with the duplicate-tag error. |
| `RecipeSerializers.ValidateIngredients` | backend/recipes/serializers.py:163-175 | The loop accepts exactly a non-empty entry list without a repeated ingredient id, returning it unchanged, with the empty-list and duplicate errors otherwise. Amounts are not examined. |
| `RecipeSerializers.ZeroAmountAccepted` | backend/recipes/serializers.py:71 | As written, an entry with amount 0 passes the ingredient field (`IngredientsFieldAsWritten`), although the model requires amounts of at least 1. The corrected field (`IngredientsOk`) and `ValidateAmount` reject it. |
| `RecipeSerializers.ValidateAmount` | backend/recipes/models.py:123-131 | The amount check the model declares: an amount is accepted exactly when it is at least 1, and returned unchanged. |
| `RecipeSerializers.NameErrors` | backend/recipes/models.py:65-68 | The name is required, except on a partial update. An all-whitespace name gets only the blank error. Otherwise the stripped name gets the too-long error exactly when it exceeds 254 characters, and the null-character error exactly when it holds one. There are at most two errors. |
| `RecipeSerializers.NameValidators` | backend/recipes/models.py:65-68 | The field validators on a stripped, non-blank name: the length error exactly when it exceeds 254 characters, and the null-character error exactly when it holds one. No error exactly when neither applies. |
| `RecipeSerializers.TextErrors` | backend/recipes/models.py:75-77 | The text is required, except on a partial update. It is rejected exactly when it is blank once stripped or holds a null character. An all-whitespace text gets the blank error, and a text with a null character the null-character error. |
| `RecipeSerializers.TagsErrors` | backend/recipes/serializers.py:130-131 | The tag field fails exactly when it is required and absent, names a missing tag, or fails `validate_tags`. An empty list reports the missing-tag error. |
| `RecipeSerializers.IngredientsErrors` | backend/recipes/serializers.py:126-130 | Corrected rule: the ingredient field fails exactly when it is required and absent, names a missing ingredient, has an amount below 1, or fails `validate_ingredients`. An empty list reports the empty-ingredients error. The code as written has no amount check (first finding). |
| `RecipeSerializers.CookingTimeErrors` | backend/recipes/models.py:89-97 | The cooking-time field fails exactly when it is required and absent, below 1 or above 2147483647. A value <= 0 gets the field minimum's error and a value above the range the maximum's error. Both run before `validate_cooking_time`, whose own error never appears. |
| `RecipeSerializers.ValidateRecipeInput` | backend/recipes/serializers.py:135-144 | A body yields no error exactly when every field passes. A blank name or text, a null character in either, empty tags, empty ingredients, and a cooking time <= 0 or above 2147483647 are each reported with their own error. There are at most seven errors. |
| `RecipeSerializers.AddedRowsFresh` | backend/recipes/serializers.py:177-188 | On a recipe without rows, and with no repeated ingredient, the `update_or_create` loop inserts exactly one row per entry, in order. |
| `RecipeSerializers.AppendRowsKeepsSchema` | backend/recipes/models.py:123-141 | Those rows keep the (recipe, ingredient) pairs unique, every amount at least 1, and every foreign key resolving. |
| `RecipeSerializers.AddIngredients` | backend/recipes/serializers.py:177-188 | The loop leaves exactly the `update_or_create` result. On a recipe without rows, that is the old rows plus one row per entry, and the recipe's ingredient list is the submitted list. |
| `RecipeSerializers.Create` | backend/recipes/serializers.py:199-205 | The new recipe gets the next id, and the counter moves on by one. The table gains exactly `NewRecord`: the caller as author, the stripped name and text, and exactly the given tags. Its ingredient rows are exactly one per submitted entry, and the schema holds. |
| `RecipeSerializers.InsertUntagged` | backend/recipes/serializers.py:202-203 | `Recipe.objects.create` then `add_ingredients`: the record is stored without tags under the next id, and exactly one row per entry is added. |
| `RecipeSerializers.SetTags` | backend/recipes/serializers.py:204 | `recipe.tags.set(tags)` on the record just inserted: the last record of the table gets exactly the given tag links, and the schema holds. |
| `RecipeSerializers.NewRecord` | backend/recipes/serializers.py:199-205 | The record `create` stores has the given id and author, the stripped name and text, the given image and cooking time, and a tag set holding exactly the listed tags. |
| `RecipeSerializers.RowsOfAppended` | backend/recipes/serializers.py:199-205 | After a recipe's rows are added, its ingredient list is exactly the submitted one, and every other recipe's list is unchanged. |
| `RecipeSerializers.Revised` | backend/recipes/serializers.py:215 | The saved record keeps id and author. Each field the body carries replaces the stored one: name and text stripped, image and cooking time as given, and tags exactly the listed ones. A field the body leaves out keeps its stored value. |
| `RecipeSerializers.StripLinks` | backend/recipes/serializers.py:208-209 | The first two statements of `update` clear the recipe's tags and delete all its ingredient rows. |
| `RecipeSerializers.UpdateAsWritten` | backend/recipes/serializers.py:207-215 | As written, `update` completes exactly when both `tags` and `ingredients` are present. Otherwise the recipe is left with its tags cleared (or reset) and its ingredient rows deleted. |
| `RecipeSerializers.RelinkAsWritten` | backend/recipes/serializers.py:210-215 | After the clear: tags are set, then the ingredient list is popped (failing when absent), then the rows are added and the remaining fields saved. |
| `RecipeSerializers.FailedPatchLosesRows` | backend/recipes/serializers.py:208-211 | A failed partial update of a recipe that has ingredients leaves it with none: the store has changed. |
| `RecipeSerializers.Update` | backend/recipes/serializers.py:207-215 | Corrected update: a given tag list replaces the tags, and a given ingredient list replaces all the recipe's rows. Omitted fields keep their values, and the schema holds. |
| `RecipeSerializers.UpdateReplacesIngredients` | backend/recipes/serializers.py:207-215 | After an update with an ingredient list, the recipe's ingredients are exactly that list. Every other recipe's rows are unchanged. |
| `RecipeSerializers.RowsOfWithout` | backend/recipes/serializers.py:209 | Clearing one recipe's rows leaves every other recipe's rows as they were. |
| `RecipeSerializers.IsMarked` | backend/recipes/serializers.py:110-122 | A flag is true exactly when a row with the requesting user's id and the recipe exists. It is false for an anonymous caller. |
| `RecipeSerializers.ValidatePair` | backend/recipes/serializers.py:228-236 | A (user, recipe) pair is rejected with "already added" exactly when it is already in the relation (favorites, or shopping list at 255-266). |
| `RecipeViews.SerializerFor` | backend/recipes/views.py:60-63 | The read serializer is chosen exactly for GET, and the write serializer for every other method. |
| `RecipeViews.CreateRecipe` | backend/recipes/views.py:57-58 | An anonymous caller gets 401 and an invalid body 400, with no change at all. A valid body answers 201 with `NewRecord` under the next id, with the caller as author. The counter moves on by one, the table gains exactly that record, and the recipe's rows are exactly one per entry. |
| `RecipeViews.UpdateRecipe` | backend/recipes/views.py:50-63 | Corrected update. The outcomes are 401, then 404 for an unknown id, then 400 for an invalid body (partial for PATCH), each with no change. Otherwise the answer is the revised record, and the store finds exactly it under the id. A given ingredient list replaces exactly that recipe's rows, and every other recipe's rows are unchanged. |
| `RecipeViews.UpdateRecipeAsWritten` | backend/recipes/serializers.py:207-215 | As written: 401, then 404, then 400 with no change. A valid body lacking tags or ingredients (only possible for PATCH) answers 500. The recipe's rows are then deleted, and its tags are cleared or set. A complete body answers 200 with the revised record and exactly the new rows. |
| `RecipeViews.DestroyRecipe` | backend/recipes/views.py:50-53 | The outcomes are 401, then 404, with no change. Otherwise the answer is 204, and the recipe and its cascades are deleted. |
| `RecipeViews.AddMark` | backend/recipes/views.py:102-112 | POST answers 400 for a missing recipe or an existing pair, with no change. Otherwise it answers 201 with the recipe's short form and inserts exactly that pair. |
| `RecipeViews.RemoveMark` | backend/recipes/views.py:113-121 | DELETE answers 404 when the recipe or the pair is absent. Otherwise it answers 204 and removes that single pair, leaving the others unchanged. |
| `RecipeViews.Mark` | backend/recipes/views.py:94-121 | An anonymous caller gets 401 with no change; POST adds and DELETE removes. |
| `RecipeViews.MarkKeepsPairsValid` | backend/recipes/models.py:195-199 | A mark keeps every favorite or cart pair pointing at an existing user and recipe. |
| `RecipeViews.AddTwice` | backend/recipes/serializers.py:228-236 | A second POST of the same recipe fails with "already added" and leaves the relation as the first left it. |
| `RecipeViews.AddThenRemove` | backend/recipes/views.py:101-121 | A successful POST followed by DELETE restores the relation. A second DELETE answers 404. |
| `RecipeViews.MarkFlags` | backend/recipes/serializers.py:110-122 | After a successful POST the flag reads true, and after a successful DELETE false. No other user's or recipe's flag changes. |
| `RecipeViews.Favorite` | backend/recipes/views.py:94-121 | The favorite action's answer and new favorites are those of `Mark`, and the schema holds. |
| `RecipeViews.ShoppingCart` | backend/recipes/views.py:123-148 | The same action on the shopping list, and the schema holds. |
| `RecipeViews.CartLines` | backend/recipes/views.py:156-159 | The lines correspond one to one and in order to the ingredient rows of the user's cart recipes (those whose ingredient exists). Each line carries its row's amount and its ingredient's name and unit. |
| `RecipeViews.LineOf` | backend/recipes/views.py:158 | A row joined with its ingredient: the line carries that ingredient's name and measurement unit and the row's amount. |
| `RecipeViews.CartTotals` | backend/recipes/views.py:156-161 | Adding up the lines of one (name, unit) gives the sum of the amounts of exactly the cart rows whose ingredient has that name and unit. |
| `RecipeViews.LinesHaveKey` | backend/recipes/views.py:156-159 | A (name, unit) occurs among the lines exactly when some cart row has an ingredient with that name and unit. |
| `RecipeViews.ExportTotals` | backend/recipes/views.py:156-161 | The export gives one group for exactly each (name, unit) among the cart rows' ingredients, no two groups share one, and each total is the sum of the amounts of the cart rows with that name and unit. |
| `RecipeViews.GroupCorrect` | backend/recipes/views.py:156-161 | Grouping gives one entry per distinct (name, unit), an entry for exactly the pairs among the lines, and each total equal to the sum of that pair's amounts. |
| `RecipeViews.DownloadShoppingCart` | backend/recipes/views.py:150-166 | The outcomes are 401 for an anonymous caller, then 400 with no body exactly when the caller's cart is empty. Otherwise the answer is the report of the grouped, summed cart lines. |
| `RecipeFilters.TagIdsForSlugs` | backend/recipes/filters.py:14-18 | The requested slugs resolve to exactly the ids of the tags with those slugs. |
| `RecipeFilters.FilterRecipes` | backend/recipes/filters.py:11-37 | An unknown author or slug is a 400. Otherwise the result has exactly the input recipes that satisfy all of these: the given author, any of the given slugs, and (for an authenticated caller asking true) a favorite or cart row. |
| `RecipeFilters.EmptyQueryKeepsAll` | backend/recipes/filters.py:11-37 | With no parameters, the list is the input unchanged. |
| `RecipeFilters.MarkFiltersIdentity` | backend/recipes/filters.py:25-33 | `is_favorited` and `is_in_shopping_cart` change nothing for an anonymous caller or a value other than true. |
| `RecipeFilters.FilteredAreMarked` | backend/recipes/filters.py:25-33 | Every recipe listed with `is_favorited=true` (or `is_in_shopping_cart=true`) reads that flag as true for the caller. |
| `RecipeFilters.SearchIngredients` | backend/recipes/filters.py:7-8 | The ingredient search keeps exactly the ingredients whose name matches every term of the `name` parameter. |
| `RecipeFilters.SearchTerms` | backend/recipes/filters.py:7-8 | The terms come from the `name` parameter: none when it is absent, its split value when present. |
| `RecipeFilters.NoTermsFindsAll` | backend/recipes/filters.py:7-8 | Without a `name` parameter, or with one that holds no term, every ingredient is returned in order. |
| `UserSerializers.IsSubscribed` | backend/user/serializers.py:39-48 | The flag is false without a request or for an anonymous caller. Otherwise it is true exactly when the caller follows the user. |
| `UserSerializers.ValidateSubscription` | backend/user/serializers.py:80-93 | Self-subscription is always rejected, and then a duplicate. Otherwise the pair is accepted unchanged. |
| `UserSerializers.AcceptedKeepsSubscriptionsValid` | backend/user/serializers.py:80-93 | Saving an accepted subscription keeps the table free of duplicates and self-subscriptions. |
| `UserSerializers.RecipesBy` | backend/user/serializers.py:67 | Keeps exactly the recipes of the author. |
| `UserSerializers.RecipesCount` | backend/user/serializers.py:61-62 | The count is the number of times the author occurs in the author column of the recipe table. It is zero exactly when the author has no recipe, and never exceeds the number of recipes. |
| `UserSerializers.RecipesByCount` | backend/user/serializers.py:61-62 | The author's recipes are as many as the author's occurrences in the author column. |
| `UserSerializers.GetRecipes` | backend/user/serializers.py:64-72 | A non-empty `recipes_limit` that `int()` cannot read (surrounding whitespace, an optional sign, digits), or that reads as negative, raises. Otherwise the k-th shown recipe is the author's k-th recipe, and at most the author's count are shown. |
| `UserSerializers.GetRecipesLength` | backend/user/serializers.py:61-72 | Without a limit, or with an empty one, all of the author's recipes are shown. With any `recipes_limit` that reads as n >= 0 ("3", "+3", " 007 "), exactly min(n, count) are shown. |
| `UserViews.FollowedUsers` | backend/user/views.py:40-44 | The subscription list is exactly the users the caller follows. |
| `UserViews.FollowedAreSubscribed` | backend/user/views.py:40-44 | Every listed author reads `is_subscribed: true` for the caller and is not the caller. |
| `UserViews.SubscribePost` | backend/user/views.py:48-58 | The outcomes are 401, then 404 for an unknown user before validation, then 400 for a validation error, each with no change. Otherwise it answers 201 and adds exactly one (caller, author) row. |
| `UserViews.SubscribeDelete` | backend/user/views.py:60-70 | The outcomes are 401, then 404, then 400 when not subscribed, each with no change. Otherwise it answers 204 and removes the (caller, author) row, leaving other subscriptions untouched. |
| `UserViews.SubscribeThenUnsubscribe` | backend/user/views.py:48-70 | Subscribing and then unsubscribing leaves the caller following the same authors. |

## Findings

| source | as written | input that shows it | evidently intended | confidence | as-written member | corrected member |
|---|---|---|---|---|---|---|
| backend/recipes/serializers.py:71 | `amount` is redeclared as a plain integer field, so it loses the model's minimum of 1. `validate_ingredients` never looks at amounts, and a row with amount 0 is stored. | `POST /recipes/` with `"ingredients": [{"id": 1, "amount": 0}]` | Amounts below 1 are rejected with a field error, as the model's `MinValueValidator(1)` declares | not executed | `RecipeSerializers.ZeroAmountAccepted` | `RecipeSerializers.ValidateAmount` |
| backend/recipes/serializers.py:207-215 | `update` clears the tags and deletes the ingredient rows before it pops `tags` and `amount_ingredient`. A PATCH that omits either raises KeyError after the deletions, and requests are not atomic. | `PATCH /recipes/{id}/` with body `{"name": "Soup"}` on a recipe with ingredients: a 500 answer, and the recipe has no tags and no ingredients | A field the partial update leaves out keeps its stored value | not executed | `RecipeSerializers.UpdateAsWritten` | `RecipeSerializers.Update` |

## Left out

- UpdateRecipe: runs the corrected `Update`, so a PATCH without tags or ingredients answers 200 and keeps both. The code answers 500 after clearing the tags and deleting the rows. That behaviour is `UpdateRecipeAsWritten`.
- IngredientsErrors: applies the corrected amount check (amount at least 1, `ValidateAmount`). The code as written has none (first finding). The request path built on it (`ValidateRecipeInput`, `Create`, `Update`, `CreateRecipe`, `UpdateRecipe`) therefore never stores an amount below 1. The as-written field is `IngredientsFieldAsWritten`, shown wrong by `ZeroAmountAccepted`.
- User registration (`UserViewCustom.create`), authentication, passwords and tokens are delegated to djoser and Django auth. An authenticated caller is a user id that exists.
- The admin site and the bulk-import management command are presentation and file I/O.
- Image decoding (`Base64ImageField`) and media storage are not modelled: an image is an opaque string.
- Pagination and the ordering filter are not modelled. Lists are in table order, not in the default order of `Meta.ordering`: ingredients by name (backend/recipes/models.py:51) and tags by id (backend/recipes/models.py:30). `RecipeFilters.SearchIngredients` and `RecipeFilters.NoTermsFindsAll` return ingredients in table order.
- The matching algorithm of the ingredient search is not modelled. Case-insensitive containment is the parameter `contains`, and the framework's splitting of the `name` value into terms is the parameter `split`.
- The nested read representation (resolved ingredients, tag objects, author) is not modelled. Responses carry the stored record or its short form.
- Parsing of the query string is not modelled: booleans are given parsed, and path ids are integers.
- `IsIntLiteral`: `recipes_limit` is read as surrounding whitespace, an optional sign and ASCII digits. The underscores between digits and the non-ASCII decimal digits that `int()` also accepts are not modelled.
- Methods the actions do not route (answered 405 by the framework) are excluded by the preconditions of `RecipeViews.Favorite`, `RecipeViews.ShoppingCart` and `RecipeViews.UpdateRecipe`.
- The anonymous branch of the favorite and shopping-list `validate` is not modelled: `IsAuthenticated` answers 401 before it can run.
- When the database's own unique validator and `validate` both reject a duplicate favorite, only the "already added" error is reported.
- Concurrent requests and database-level conflict resolution are not modelled. Requests run one after another.
- Deleting users, tags or ingredients, and the cascades from them, is not modelled: no modelled endpoint does it. Tags and ingredients are reference data.
- The export's group order is not modelled: the database leaves it unspecified, and here groups come in order of first appearance. `RecipeViews.GroupCorrect` states only order-independent facts.
- `RecipeViews.CartLines` skips a row whose ingredient is missing. That case cannot occur while the store is valid.
- The subscription model's unique constraint names a field that does not exist (backend/user/models.py:59-64), so the model never relies on it. Uniqueness is kept by the serializer check, as `SubscriptionsValid` states.
- The unused helpers `add_recipes`, `delete_recipe` and `add_tags_ingredients` are not modelled: no view or serializer calls them.
