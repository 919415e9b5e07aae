# Foodgram backend: a verified model of its store, serializers, filters and views

Foodgram is a recipe-sharing web service. Users publish recipes made of
tagged ingredient lines. They mark recipes as favourites, put them in a
shopping cart, follow other authors and download a shopping list. This
project models the behaviour of the backend's core in Dafny and proves
properties of it:

- the recipe views (favourite and shopping-cart toggles, shopping-list download);
- the subscriptions listing and unsubscribing;
- the recipe write serializer (validation, create, update);
- the request-scoped flags and nested representations;
- the recipe filter set;
- the uniqueness and cascade rules of the data models.

The modules follow the program:

- `Util` (util.dfy): generic helpers. These are option and result types, order-preserving filtering with subsequences, ascending listings of integer keys, Python's `str.join`, the decimal rendering of numbers, and string order with an insertion sort.
- `Models` (models.dfy): the database as one class `Store`.
  - Its fields are the tables: maps from primary key to row for users, tags, ingredients and recipes, and the recipe–ingredient table as a sequence in primary-key order.
  - The recipe–tag relation, favourites, cart entries and subscriptions are sets of pairs.
  - Auto-increment counters hand out the primary keys.
  - `Store.Valid()` states the `unique=True` constraints, that every foreign key refers to an existing row, and that keys are below the counters.
  - The inserts and the cascading deletes preserve it.
- `Serializers` (serializers.dfy): `get_is_subscribed`, `get_is_favorited` and `get_is_in_shopping_cart`; the short, ingredient-line, read and subscription representations; the validation of a recipe write; and `create`, `create_ingredient` and `update`.
- `Filters` (filters.dfy): `RecipeFilter`. A queryset is a sequence of recipe ids.
- `Views` (views.dfy): `favorite`, `shopping_cart`, `download_shopping_cart`, `subscriptions` and `subscribe`.

A request's user is a `Caller`, either anonymous or an authenticated user id.
The views that Django guards with `IsAuthenticated` take a user id that must
exist. Responses are the datatype `Views.Response`. The errors of a recipe
write are `Serializers.WriteResult`:

- validation errors become `Invalid`;
- the `DoesNotExist` raised for an unknown ingredient id becomes `IngredientDoesNotExist`.

`@transaction.atomic` is modelled by its effect: a write that fails leaves
every table it touched as it was.

Where the code and its design description disagree, the model follows the code:

- The shopping-list query annotates `Sum('amount')` before `values_list`. The annotation therefore groups by the association row, and the list has one line per row of a recipe in the cart. Rows with the same ingredient are not merged into one line.
- Each line reads `<name> - <total> <unit>.`, not `<name> - <total>(<unit>)`.
- The header is a Latin `C` followed by Cyrillic `писок покупок:`. The document is the header, a newline and the lines joined by newlines. An empty cart gives the header and a newline, not an empty document.
- An ingredient id that names no ingredient is looked up with `Ingredient.objects.get`, whose exception the serializer does not catch. The model reports it as `IngredientDoesNotExist` and rolls the write back. It does not report it as a not-found response.
- `validate` refuses a name when any recipe has it, including the recipe being updated. An update that keeps a recipe's name is therefore always refused. `Serializers.UpdateKeepingNameRejected` proves this.
- `name` is `unique=True` and the write serializer generates that field, so it also carries a field-level uniqueness check that leaves out the recipe being updated. On create a taken name is therefore a field error, reported together with the other field errors, and the message of `validate` is reached only by an update that keeps its own name.
- The tag list and the `tags` query parameter are converted in order and stop at the first unknown value, so at most one unknown tag or slug is reported.

Users are ordered by id, as their model declares. Recipes declare no ordering, and the source does not say what order their listings come in. Listing recipes by primary key is a choice of this model.

Some things the code relies on are not visible in it:

- `Recipe` has no `author` field, although the serializers and filters use one. The model gives every recipe an author who must exist. Deleting that user deletes their recipes, as a cascading foreign key would.
- The relations appear under several related names (`favorite_user`, `favorite_recipe` and `favorites`; `shopping_user`, `shopping_recipe` and `shoppingcarts`; `authors` and `subscribing`). Each is one relation in the model.
- `MIN_MEANING` is 1 and `MAX_MEANING` is 32000.

## Model

| member | source | states |
|---|---|---|
| Models.Store.constructor | backend/recipes/models.py:6-130 | an empty database satisfies every uniqueness and foreign-key invariant |
| Models.Store.UserIds | backend/users/models.py:10-11 | users are listed in strictly ascending id order, each user exactly once |
| Models.Store.RecipeIds | backend/recipes/models.py:43-70 | recipes are listed in strictly ascending primary-key order, each exactly once |
| Models.Store.InsertUser | backend/users/models.py:8 | a user whose email is taken is refused and nothing changes; otherwise the user gets the next id and the invariant, with unique emails, still holds |
| Models.Store.InsertTag | backend/recipes/models.py:6-21 | a tag clashing on name, colour or slug is refused; otherwise it is stored under the next id, keeping all three unique |
| Models.Store.InsertIngredient | backend/recipes/models.py:27-37 | an ingredient clashing on name or on measurement unit is refused; otherwise it is stored, keeping both unique |
| Models.Store.InsertRecipe | backend/recipes/models.py:57-61 | a recipe with a taken name is refused; otherwise it is stored under the next id, keeping names unique |
| Models.Store.UpdateRecipeFields | backend/recipes/models.py:57-67 | overwriting a recipe's fields succeeds exactly when no other recipe has the new name, and only that recipe changes |
| Models.Store.SetRecipeTags | backend/recipes/models.py:91-99 | the recipe–tag relation becomes `ReplaceTags` of the old one, and the invariant holds |
| Models.Store.AppendIngredientRows | backend/recipes/models.py:73-85 | rows whose recipe and ingredient exist are appended to the table, and the invariant holds |
| Models.Store.RemoveIngredientRows | backend/recipes/models.py:73-77 | exactly the rows of the given recipe are removed, and the order of the rest is kept |
| Models.Store.DeleteRecipes | backend/recipes/models.py:74-77 | deleting recipes removes their ingredient rows, tag rows, favourites and cart entries, and nothing else |
| Models.Store.DeleteRecipe | backend/recipes/models.py:92-95 | deleting one recipe cascades to its ingredient and tag rows, favourites and cart entries |
| Models.Store.DeleteIngredient | backend/recipes/models.py:79-82 | deleting an ingredient removes exactly the ingredient rows referring to it |
| Models.Store.DeleteTag | backend/recipes/models.py:96-99 | deleting a tag removes exactly its recipe–tag rows |
| Models.Store.DeleteUser | backend/users/models.py:22-33 | deleting a user removes their favourites, cart entries and recipes (with everything cascading from those), every subscription they hold and every subscription to them |
| Models.RowsOf | backend/recipes/models.py:73-77 | the rows of a recipe are exactly the table's rows with that recipe, in table order |
| Models.RowsNotOf | backend/recipes/models.py:74-77 | the rows surviving a recipe deletion are exactly those of other recipes, in table order |
| Models.RowsOfAfterDelete | backend/recipes/models.py:74-77 | after deleting recipes, a deleted recipe has no rows and every other recipe keeps exactly its rows |
| Models.RowsOfConcat | backend/recipes/models.py:73-77 | a recipe's rows in a concatenated table are its rows in each part, concatenated |
| Models.RowsNotOfConcat | backend/recipes/models.py:73-77 | removing recipes distributes over concatenating tables |
| Models.RowsWithoutIngredient | backend/recipes/models.py:79-82 | the rows surviving an ingredient deletion are exactly those naming another ingredient |
| Models.TagsOf | backend/recipes/models.py:49-53 | a recipe's tag set is exactly the tags paired with it |
| Models.ReplaceTags | backend/recipes/models.py:91-99 | after `tags.set`, the recipe's tag set is the given set and every other recipe's tags are unchanged |
| Models.RecipesByInsert | backend/api/serializers.py:75-76 | storing a new recipe adds one to its author's `recipes_count` and leaves other authors' counts unchanged |
| Serializers.IsSubscribed | backend/api/serializers.py:17-21 | false for an anonymous caller; otherwise true exactly when the caller subscribes to the author |
| Serializers.IsFavorited | backend/api/serializers.py:155-159 | false for an anonymous caller; otherwise true exactly when the caller has favourited the recipe |
| Serializers.IsInShoppingCart | backend/api/serializers.py:161-165 | false for an anonymous caller; otherwise true exactly when the recipe is in the caller's cart |
| Serializers.ShortsOf | backend/api/serializers.py:50-59 | one short representation (id, name, image, cooking time) per recipe id, in order |
| Serializers.LinesOf | backend/api/serializers.py:130-141 | each ingredient line carries the ingredient's id, name and unit and the row's amount |
| Serializers.ReadRecipe | backend/api/serializers.py:144-171 | the read representation has the recipe's tag set, its author, the lines of its ingredient rows, and the caller's two flags |
| Serializers.AuthorRecipes | backend/api/serializers.py:78-80 | the author's recipes, exactly those, in ascending id order |
| Serializers.RecipesCount | backend/api/serializers.py:75-76 | `recipes_count` is the number of recipes the author wrote |
| Serializers.NestedRecipes | backend/api/serializers.py:78-85 | without a limit, all of the author's recipes; with a limit n ≥ 0, the first min(n, count) of them; a negative limit fails |
| Serializers.SubscriptionOf | backend/api/serializers.py:62-99 | the entry is the author with its `is_subscribed` flag, the nested recipes cut to the limit, and the full `recipes_count` whatever the limit; the nested list is never longer than the count |
| Serializers.UnknownTagOf | backend/api/serializers.py:178-181 | the rejected tag is the first primary key of the list that names no tag, and there is none exactly when every key names a tag |
| Serializers.FieldErrors | backend/api/serializers.py:117-123 | the field errors are exactly: cooking time outside [1, 32000] (lines 186-188), each amount outside it, the first unknown tag id (lines 178-181) and, from `unique=True` on the name (recipes/models.py:57-61), a name already used by another recipe than the one being updated |
| Serializers.ValidationErrors | backend/api/serializers.py:190-194 | a write has no errors exactly when its fields are in range, its tags exist and no recipe has its name; `validate`'s error is raised exactly when every field is valid and some recipe has the name, and otherwise the errors are the field errors |
| Serializers.CreateReportsNameAsFieldError | backend/api/serializers.py:174-194 | on create a taken name is reported as the field's uniqueness error and never as `validate`'s message |
| Serializers.DuplicateNameOnlyForOwnName | backend/api/serializers.py:190-194 | `validate`'s message is reported only for an update that keeps the recipe's own name, and then as the only error |
| Serializers.UpdateKeepingNameRejected | backend/api/serializers.py:190-194 | as written, an update that keeps its recipe's name is refused, with `validate`'s message alone once its fields are valid |
| Serializers.RowsFor | backend/api/serializers.py:197-204 | one row per ingredient entry, in entry order, with that ingredient and amount |
| Serializers.AppendedRows | backend/api/serializers.py:217-222 | deleting a recipe's rows and appending new ones of it makes the new ones exactly its rows and leaves the other recipes' rows unchanged |
| Serializers.BuildIngredientRows | backend/api/serializers.py:196-204 | succeeds exactly when every entry's ingredient exists, with one row per entry; otherwise it reports the first missing id |
| Serializers.CreateRecipe | backend/api/serializers.py:206-215 | refused writes and missing ingredients leave the store unchanged; a saved recipe has the caller as its author, exactly the given tags and exactly one row per entry |
| Serializers.CreateAtomically | backend/api/serializers.py:206-215 | the body of `create` under its transaction: all or nothing |
| Serializers.InsertWithTags | backend/api/serializers.py:211-213 | `Recipe.objects.create` then `tags.set`: the recipe gets the next id with the caller as author, and its tag relation is replaced by exactly the given tags |
| Models.Store.ValidRestored | backend/api/serializers.py:206-224 | a store whose fields are all put back, as a rolled-back transaction does, satisfies the invariant it satisfied before |
| Serializers.UpdateRecipe | backend/api/serializers.py:217-224 | refused writes and missing ingredients leave the store unchanged; after a saved update the recipe's rows are exactly the new list, its tags exactly the new set, and other recipes' rows are unchanged |
| Serializers.UpdateAtomically | backend/api/serializers.py:217-224 | the body of `update` under its transaction: all or nothing |
| Filters.FilterFavorited | backend/api/filters.py:19-23 | the queryset unchanged when the value is false or the caller anonymous; otherwise exactly the input recipes the caller favourited; always a subsequence of the input |
| Filters.FilterInCart | backend/api/filters.py:25-29 | the same, for the cart relation |
| Filters.FiltersAgreeWithFlags | backend/api/filters.py:19-29 | for an authenticated caller, the two filters keep exactly the recipes whose serialized flags are true |
| Filters.FilterFavoritedIdempotent | backend/api/filters.py:19-23 | applying the favourite filter twice is applying it once |
| Filters.FilterInCartIdempotent | backend/api/filters.py:25-29 | applying the cart filter twice is applying it once |
| Filters.UnknownSlugOf | backend/api/filters.py:6-9 | the rejected slug is the first of the list that names no tag, and there is none exactly when every slug names a tag |
| Filters.FilterTags | backend/api/filters.py:6-9 | an unknown slug is an error naming the first unknown slug only; no slugs leaves the queryset as it is; otherwise exactly the recipes with a tag having one of the slugs are kept |
| Filters.FilterAuthor | backend/api/filters.py:15-17 | an unknown user is an error; otherwise exactly the recipes by that author are kept |
| Filters.FilterRecipes | backend/api/filters.py:5-29 | the filter set fails exactly when a slug or the author is unknown, and otherwise returns a subsequence of its input |
| Filters.FilterRecipesMembers | backend/api/filters.py:5-29 | a recipe is listed exactly when it is in the input and passes every filter that is switched on |
| Views.Favorite | backend/api/views.py:90-111 | missing recipe: not-found, no change; add when absent: exactly that pair inserted, Created with the short representation; add when present: BadRequest, no change; remove when absent: not-found; remove when present: only that pair deleted, NoContent; cart and subscriptions untouched |
| Views.ShoppingCart | backend/api/views.py:113-133 | the same four rules on the cart relation; favourites and subscriptions untouched |
| Views.Subscriptions | backend/api/views.py:34-37 | exactly the authors the user subscribes to, in ascending id order |
| Views.SubscriptionReprs | backend/api/serializers.py:62-99 | one representation per author, in order, each the author's `SubscriptionOf` entry: its `is_subscribed` flag, its nested recipes cut to the limit and its full recipe count |
| Views.SubscriptionsListing | backend/api/views.py:34-41 | one entry per followed author, in order, each that author's `SubscriptionOf` entry under the request's `recipes_limit`; it fails only for a negative limit with at least one author |
| Views.ListedAuthorsAreSubscribed | backend/api/views.py:34-41 | every author in a user's listing is shown to that user as subscribed |
| Views.SubscribeAsWritten | backend/api/views.py:45-55 | as written: not-found for a missing author, otherwise an unhandled exception for every verb |
| Views.UnsubscribeUnreachable | backend/api/views.py:50-59 | as written, unsubscribing never answers NoContent |
| Views.Unsubscribe | backend/api/views.py:57-59 | not-found if the author or the subscription is missing, otherwise exactly that subscription is deleted |
| Views.UnsubscribedAuthorNotListed | backend/api/views.py:37 | an author the user does not subscribe to is not in the user's listing |
| Views.CartRows | backend/api/views.py:138-140 | exactly the ingredient rows of recipes in the caller's cart, in table order; none exactly when no recipe in the cart has a row |
| Views.Project | backend/api/views.py:141-144 | each row becomes its ingredient's name and unit with the row's amount as total |
| Views.ShoppingRows | backend/api/views.py:138-144 | the selected rows, ordered by ingredient name, as a permutation of the projected cart rows |
| Views.Lines | backend/api/views.py:146-147 | one formatted line per row, in row order |
| Views.DownloadShoppingCart | backend/api/views.py:135-152 | the response body is the header, a newline and the lines of the name-ordered query joined by newlines |
| Views.RenderShoppingList | backend/api/views.py:146-149 | the loop that appends one formatted line per row yields exactly that document |
| Views.FormatLineRoundTrip | backend/api/views.py:147 | a line is the name, ` - `, digits that read back as the total, a space, the unit and a final `.` |
| Views.ShoppingTotalConserved | backend/api/views.py:139-144 | the totals on the list add up to the amounts of the cart's ingredient rows |
| Views.ShoppingRowsSelected | backend/api/views.py:139-144 | a row is on the list exactly when it comes from an ingredient row of a recipe in the caller's cart |
| Views.ShoppingListOrdered | backend/api/views.py:141 | earlier lines never have a larger ingredient name than later ones |
| Views.EmptyCartHeaderOnly | backend/api/views.py:148 | a cart with no ingredient rows yields the header line alone |

## Findings

| source | as written | input that shows it | evidently intended | confidence | as-written member | corrected member |
|---|---|---|---|---|---|---|
| backend/api/views.py:50 | `request.metod` is read before either branch, and it raises `AttributeError` | DELETE /users/{id}/subscribe/ for an existing author the caller follows: the response is a server error and the subscription stays | `request.method`, so DELETE reaches lines 57-59 and removes the subscription | not executed | Views.SubscribeAsWritten, with Views.UnsubscribeUnreachable | Views.Unsubscribe |

## Left out

- Permissions (`AuthorOrReadOnly`, `IsAuthenticated`) and `CustomPagination` are not modelled. The views take an existing user and whole listings.
- Subscribe POST is left out beyond its author-must-exist check. Its validation lives in `SubscribeAuthorSerializer`, which is not part of this model.
- Registration, tokens and the djoser user endpoints are not modelled. The store's `InsertUser` stands in for creating a user.
- Base64 image decoding is not modelled: images are opaque strings.
- The ingredient name `SearchFilter`, HTTP response objects and the Content-Disposition header are library behaviour.
- Transactions are not modelled beyond "a failed write changes nothing". The check-then-insert race in the toggles is a concurrency issue.
- The import and naming breakage of the repository is not modelled. This covers `Recipe_ingredient` in the view imports, `Shopping_cart` in the admin, the mismatched related names and `HTTP_201_CREATE`. It also covers `favorite(self, request, id)` and `shopping_cart(self, request, id)` (views.py:93, 115), which the router calls with `pk`, so as written each call raises `TypeError`. The intended relations and views are modelled instead.
- `max_length` limits and the username uniqueness inherited from Django's user model are not modelled.
- Partial updates (PATCH without every field) are not modelled. An update carries all fields.
- Views.ShoppingRows: `order_by('ingredient__name')` sorts by the database's collation, which is not modelled. Names are compared code point by code point (`LexLe`), so, for example, a name starting with an upper-case Cyrillic letter sorts before every name starting with a lower-case one.
- Serializers.AuthorRecipes: `author.recipes.all()` is an unordered queryset. The model takes it in primary-key order, and that order is a modelling choice.
- Serializers.NestedRecipes: which recipes form the "first n" under `recipes_limit` follows from taking the unordered queryset in primary-key order. The source does not fix that order.
- Serializers.CreateRecipe: a rolled-back create also puts `nextRecipeId` back. Database sequences (PostgreSQL's, for one) are not rolled back, so the id a later recipe receives after a failed write is a modelling choice.
- Views.ShoppingRows: rows with equal ingredient names come out in insertion-sort order, while the database leaves their order unspecified. Only the order by name is claimed.
- Serializers.NestedRecipes: a non-numeric `recipes_limit` (a `ValueError` in `int`) is not modelled. A present limit is an integer, and an empty one counts as absent.
- Serializers.ReadRecipe: tags are a map from id to tag, so the order in which the tag list is serialized is not modelled.
- Models.Store.DeleteUser: a recipe's author cascading on user deletion is assumed, because the author field is not declared in the model file.
