// Shared vocabulary of the recipe backend: identifiers, the caller of a
// request, the HTTP outcomes the views produce, and the validation reasons
// the serializers report.
module Common {

  type UserId = int
  type TagId = int
  type IngredientId = int
  type RecipeId = int

  datatype Option<+T> = None | Some(value: T)

  datatype Result<+T, +E> = Success(value: T) | Failure(error: E)

  /** Who sent the request: Django's AnonymousUser, or an authenticated user. */
  datatype Caller = Anonymous | User(id: UserId)

  datatype HttpMethod = Get | Post | Put | Patch | Delete

  /** The fields of the recipe write serializer, in declaration order. */
  datatype Field = NameField | TagsField | IngredientsField | CookingTimeField | TextField | ImageField

  /** Why a request was answered with 400 Bad Request. */
  datatype Reason =
    | Required(field: Field)          // "This field is required."
    | Blank(field: Field)             // "This field may not be blank."
    | BelowMinimum(field: Field)      // "Ensure this value is greater than or equal to 1."
    | AboveMaximum(field: Field)      // "Ensure this value is less than or equal to 2147483647."
    | NullCharacters(field: Field)    // "Null characters are not allowed."
    | NameTooLong                     // CharField(max_length=254)
    | TagDoesNotExist                 // PrimaryKeyRelatedField on Tag
    | EmptyTags                       // validate_tags: no tag given
    | DuplicateTags                   // validate_tags: a tag repeated
    | IngredientDoesNotExist          // PrimaryKeyRelatedField on Ingredient
    | AmountBelowMinimum              // amount < 1
    | EmptyIngredients                // validate_ingredients: empty list
    | DuplicateIngredients            // validate_ingredients: an ingredient repeated
    | NonPositiveCookingTime          // validate_cooking_time (field minimum checked first)
    | RecipeDoesNotExist              // PrimaryKeyRelatedField on Recipe
    | AlreadyAdded                    // favorite / shopping-list pair exists
    | SelfSubscription                // following yourself
    | AlreadySubscribed               // subscription pair exists
    | NotSubscribed                   // unsubscribe without a subscription
    | InvalidFilter                   // a filter value names no existing object

  /** The response of a view: a body of type T, or an error status. */
  datatype Response<+T> =
    | Ok(body: T)          // 200
    | Created(body: T)     // 201
    | NoContent            // 204
    | BadRequest(errors: seq<Reason>)  // 400
    | Unauthorized         // 401, rejected by the permission class
    | NotFound             // 404, get_object_or_404
    | ServerError          // 500, an uncaught exception
  {
    predicate IsSuccess() { Ok? || Created? || NoContent? }
  }
}
