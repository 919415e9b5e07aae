/** The serializers of api/serializers.py: the request-scoped flags, the
    nested representations, the validation of a recipe write and the
    create and update steps that write a recipe with its tags and
    ingredient rows as one all-or-nothing unit. */
module Serializers {
  import opened Util
  import opened Models

  // ---------------------------------------------------------------------
  // Request-scoped flags
  // ---------------------------------------------------------------------

  /** `get_is_subscribed`: does the caller follow `author`? */
  function IsSubscribed(db: Store, caller: Caller, author: UserId): (b: bool)
    reads db
    ensures caller.Anonymous? ==> !b
    ensures caller.Authenticated? ==> (b <==> (caller.user, author) in db.subscriptions)
  {
    match caller
    case Anonymous => false
    case Authenticated(u) => (u, author) in db.subscriptions
  }

  /** `get_is_favorited` */
  function IsFavorited(db: Store, caller: Caller, recipe: RecipeId): (b: bool)
    reads db
    ensures caller.Anonymous? ==> !b
    ensures caller.Authenticated? ==> (b <==> (caller.user, recipe) in db.favorites)
  {
    match caller
    case Anonymous => false
    case Authenticated(u) => (u, recipe) in db.favorites
  }

  /** `get_is_in_shopping_cart` */
  function IsInShoppingCart(db: Store, caller: Caller, recipe: RecipeId): (b: bool)
    reads db
    ensures caller.Anonymous? ==> !b
    ensures caller.Authenticated? ==> (b <==> (caller.user, recipe) in db.carts)
  {
    match caller
    case Anonymous => false
    case Authenticated(u) => (u, recipe) in db.carts
  }

  // ---------------------------------------------------------------------
  // Representations
  // ---------------------------------------------------------------------

  /** RecipeSerializer: id, name, image, cooking_time. */
  datatype RecipeShort = RecipeShort(id: RecipeId, name: string, image: string, cookingTime: int)

  function Short(db: Store, id: RecipeId): RecipeShort
    reads db
    requires id in db.recipes
  {
    var r := db.recipes[id];
    RecipeShort(id, r.name, r.image, r.cookingTime)
  }

  function ShortsOf(db: Store, ids: seq<RecipeId>): (r: seq<RecipeShort>)
    reads db
    requires forall x :: x in ids ==> x in db.recipes
    ensures |r| == |ids|
    ensures forall i :: 0 <= i < |ids| ==> r[i] == Short(db, ids[i])
    decreases |ids|
  {
    if ids == [] then [] else [Short(db, ids[0])] + ShortsOf(db, ids[1..])
  }

  /** UserSerializer */
  datatype UserRepr = UserRepr(email: string, id: UserId, username: string, firstName: string,
                               lastName: string, isSubscribed: bool)

  function UserReprOf(db: Store, caller: Caller, u: UserId): UserRepr
    reads db
    requires u in db.users
  {
    var user := db.users[u];
    UserRepr(user.email, u, user.username, user.firstName, user.lastName, IsSubscribed(db, caller, u))
  }

  /** RecipeIngredientSerializer: one ingredient line of a recipe. */
  datatype IngredientLine = IngredientLine(id: IngredientId, name: string, amount: int, measurementUnit: string)

  /** The lines of some ingredient rows: each carries the ingredient's id,
      name and unit and the row's amount. */
  function LinesOf(db: Store, rows: seq<RecipeIngredient>): (lines: seq<IngredientLine>)
    reads db
    requires forall row :: row in rows ==> row.ingredient in db.ingredients
    ensures |lines| == |rows|
    ensures forall i :: 0 <= i < |rows| ==>
      && lines[i].id == rows[i].ingredient
      && lines[i].name == db.ingredients[rows[i].ingredient].name
      && lines[i].measurementUnit == db.ingredients[rows[i].ingredient].measurementUnit
      && lines[i].amount == rows[i].amount
    decreases |rows|
  {
    if rows == [] then []
    else
      var ing := db.ingredients[rows[0].ingredient];
      [IngredientLine(rows[0].ingredient, ing.name, rows[0].amount, ing.measurementUnit)] + LinesOf(db, rows[1..])
  }

  /** RecipeReadSerializer */
  datatype RecipeRead = RecipeRead(
    id: RecipeId, tags: map<TagId, Tag>, author: UserRepr, ingredients: seq<IngredientLine>,
    isFavorited: bool, isInShoppingCart: bool, image: string, name: string, text: string, cookingTime: int)

  function ReadRecipe(db: Store, caller: Caller, id: RecipeId): (r: RecipeRead)
    reads db
    requires db.Valid() && id in db.recipes
    ensures r.tags.Keys == TagsOf(db.recipeTags, id)
    ensures forall t :: t in r.tags ==> r.tags[t] == db.tags[t]
    ensures r.author.id == db.recipes[id].author
    ensures r.ingredients == LinesOf(db, RowsOf(db.recipeIngredients, id))
    ensures r.isFavorited == IsFavorited(db, caller, id)
    ensures r.isInShoppingCart == IsInShoppingCart(db, caller, id)
  {
    var recipe := db.recipes[id];
    var tagIds := TagsOf(db.recipeTags, id);
    RecipeRead(
      id,
      map t | t in tagIds && t in db.tags :: db.tags[t],
      UserReprOf(db, caller, recipe.author),
      LinesOf(db, RowsOf(db.recipeIngredients, id)),
      IsFavorited(db, caller, id),
      IsInShoppingCart(db, caller, id),
      recipe.image, recipe.name, recipe.text, recipe.cookingTime)
  }

  // ---------------------------------------------------------------------
  // SubscriptionsSerializer: nested recipes and their count
  // ---------------------------------------------------------------------

  /** `author.recipes.all()`, in id order. */
  function AuthorRecipes(db: Store, author: UserId): (r: seq<RecipeId>)
    reads db
    ensures Increasing(r)
    ensures forall x :: x in r <==> x in db.recipes && db.recipes[x].author == author
  {
    var all := db.RecipeIds();
    var rs := db.recipes;
    var r := Filter(all, (x: RecipeId) => x in rs && rs[x].author == author);
    SubsequenceIncreasing(r, all);
    r
  }

  /** `get_recipes_count`: the number of recipes the author wrote. */
  function RecipesCount(db: Store, author: UserId): (n: nat)
    reads db
    ensures n == |RecipesBy(db.recipes, author)|
    ensures n == |AuthorRecipes(db, author)|
  {
    var r := AuthorRecipes(db, author);
    IncreasingCardinality(r);
    assert (set x | x in r) == RecipesBy(db.recipes, author);
    |r|
  }

  function Min(a: int, b: int): int { if a <= b then a else b }

  /** `get_recipes`: the author's recipes, cut to the first `limit` when a
      `recipes_limit` is given. A negative limit makes the queryset slice
      raise, which is `None` here. */
  function NestedRecipes(db: Store, author: UserId, limit: Option<int>): (r: Option<seq<RecipeShort>>)
    reads db
    ensures r.None? <==> limit.Some? && limit.value < 0
    ensures r.Some? ==> var all := AuthorRecipes(db, author);
      && |r.value| == (if limit.None? then |all| else Min(limit.value, |all|))
      && forall i :: 0 <= i < |r.value| ==> r.value[i] == Short(db, all[i])
  {
    var all := AuthorRecipes(db, author);
    match limit
    case None => Some(ShortsOf(db, all))
    case Some(n) =>
      if n < 0 then None
      else
        var kept := all[..Min(n, |all|)];
        Some(ShortsOf(db, kept))
  }

  /** SubscriptionsSerializer */
  datatype SubscriptionRepr = SubscriptionRepr(user: UserRepr, recipes: seq<RecipeShort>, recipesCount: nat)

  function SubscriptionOf(db: Store, caller: Caller, author: UserId, limit: Option<int>): (r: Option<SubscriptionRepr>)
    reads db
    requires author in db.users
    ensures r.None? <==> limit.Some? && limit.value < 0
    ensures r.Some? ==> r.value.user.id == author
    ensures r.Some? ==> r.value.recipes == NestedRecipes(db, author, limit).value
    ensures r.Some? ==> r.value.recipesCount == |RecipesBy(db.recipes, author)|
    ensures r.Some? ==> r.value.user.isSubscribed == IsSubscribed(db, caller, author)
    ensures r.Some? ==> |r.value.recipes| <= r.value.recipesCount
  {
    match NestedRecipes(db, author, limit)
    case None => None
    case Some(recipes) => Some(SubscriptionRepr(UserReprOf(db, caller, author), recipes, RecipesCount(db, author)))
  }

  // ---------------------------------------------------------------------
  // RecipeCreateSerializer: validation
  // ---------------------------------------------------------------------

  /** One entry of the `ingredients` list of a write. */
  datatype IngredientEntry = IngredientEntry(id: int, amount: int)

  /** The body of a recipe write. */
  datatype RecipeInput = RecipeInput(
    tags: seq<int>, ingredients: seq<IngredientEntry>,
    image: string, name: string, text: string, cookingTime: int)

  datatype ValidationError =
    | CookingTimeOutOfRange
    | AmountOutOfRange(index: nat)
    | UnknownTag(id: int)
    | NameNotUnique
    | DuplicateName

  predicate InMeaningRange(x: int) { MIN_MEANING <= x <= MAX_MEANING }

  predicate AmountsInRange(entries: seq<IngredientEntry>) {
    forall i :: 0 <= i < |entries| ==> InMeaningRange(entries[i].amount)
  }

  /** `t` is the first tag primary key of the list that names no tag: the
      many-related field converts the list in order and stops there. */
  predicate FirstUnknownTag(tags: map<TagId, Tag>, ids: seq<int>, t: int) {
    exists k :: 0 <= k < |ids| && ids[k] == t && t !in tags &&
      forall j :: 0 <= j < k ==> ids[j] in tags
  }

  /** The tag primary key the many-related field rejects, if any. */
  function UnknownTagOf(tags: map<TagId, Tag>, ids: seq<int>): (r: Option<int>)
    ensures forall t :: r == Some(t) <==> FirstUnknownTag(tags, ids, t)
    ensures r.None? <==> forall t :: t in ids ==> t in tags
  {
    var first := FirstIndex(ids, (t: int) => t !in tags);
    if first.None? then None
    else
      var k := first.value;
      forall t | FirstUnknownTag(tags, ids, t) ensures t == ids[k] {
        var k' :| 0 <= k' < |ids| && ids[k'] == t && t !in tags &&
          forall j :: 0 <= j < k' ==> ids[j] in tags;
        assert k' == k;
      }
      assert FirstUnknownTag(tags, ids, ids[k]);
      assert ids[k] in ids;
      Some(ids[k])
  }

  /** Another recipe than the one being updated (`instance`, none on
      create) already has the name: the uniqueness validator that
      `unique=True` puts on the generated `name` field. */
  predicate NameTakenByOther(recipes: map<RecipeId, Recipe>, name: string, instance: Option<RecipeId>) {
    exists r :: r in recipes && recipes[r].name == name && instance != Some(r)
  }

  /** The field-level errors: the bounds on `cooking_time` and on each
      `amount`, the first tag primary key that names no tag, and the
      uniqueness of `name` among the other recipes. */
  function FieldErrors(db: Store, input: RecipeInput, instance: Option<RecipeId>): (errs: set<ValidationError>)
    reads db
    ensures CookingTimeOutOfRange in errs <==> !InMeaningRange(input.cookingTime)
    ensures forall i: nat :: AmountOutOfRange(i) in errs <==>
      i < |input.ingredients| && !InMeaningRange(input.ingredients[i].amount)
    ensures forall t :: UnknownTag(t) in errs <==> FirstUnknownTag(db.tags, input.tags, t)
    ensures (exists t :: UnknownTag(t) in errs) <==> exists t :: t in input.tags && t !in db.tags
    ensures forall t, u :: UnknownTag(t) in errs && UnknownTag(u) in errs ==> t == u
    ensures NameNotUnique in errs <==> NameTakenByOther(db.recipes, input.name, instance)
    ensures DuplicateName !in errs
  {
    var first := UnknownTagOf(db.tags, input.tags);
    var unknown: set<ValidationError> := if first.Some? then {UnknownTag(first.value)} else {};
    (if InMeaningRange(input.cookingTime) then {} else {CookingTimeOutOfRange})
    + (set i: nat | i < |input.ingredients| && !InMeaningRange(input.ingredients[i].amount) :: AmountOutOfRange(i))
    + unknown
    + (if NameTakenByOther(db.recipes, input.name, instance) then {NameNotUnique} else {})
  }

  /** A write that passes every check of the serializer. */
  predicate Accepted(db: Store, input: RecipeInput)
    reads db
  {
    && InMeaningRange(input.cookingTime)
    && AmountsInRange(input.ingredients)
    && (forall t :: t in input.tags ==> t in db.tags)
    && !NameTaken(db.recipes, input.name)
  }

  /** All errors of a write: `validate` runs only once the fields are valid,
      and rejects the name when any recipe already has it. */
  function ValidationErrors(db: Store, input: RecipeInput, instance: Option<RecipeId>): (errs: set<ValidationError>)
    reads db
    ensures errs == {} <==> Accepted(db, input)
    ensures DuplicateName in errs <==> FieldErrors(db, input, instance) == {} && NameTaken(db.recipes, input.name)
    ensures DuplicateName !in errs ==> errs == FieldErrors(db, input, instance)
  {
    var fieldErrors := FieldErrors(db, input, instance);
    if fieldErrors != {} then fieldErrors
    else
      assert AmountsInRange(input.ingredients) by {
        forall i | 0 <= i < |input.ingredients|
          ensures InMeaningRange(input.ingredients[i].amount)
        {
          assert AmountOutOfRange(i) !in fieldErrors;
        }
      }
      if NameTaken(db.recipes, input.name) then {DuplicateName}
      else {}
  }

  /** On create nothing is excluded from the uniqueness check, so a taken
      name is reported as a field error, alongside any others, and the
      message of `validate` is never reached. */
  lemma CreateReportsNameAsFieldError(db: Store, input: RecipeInput)
    requires NameTaken(db.recipes, input.name)
    ensures NameNotUnique in ValidationErrors(db, input, None)
    ensures DuplicateName !in ValidationErrors(db, input, None)
  {
    var r :| r in db.recipes && db.recipes[r].name == input.name;
    assert NameTakenByOther(db.recipes, input.name, None);
  }

  /** The `validate` message is reported only for an update that keeps the
      name of the recipe being updated, and then only once every field is
      valid. */
  lemma DuplicateNameOnlyForOwnName(db: Store, id: RecipeId, input: RecipeInput)
    requires DuplicateName in ValidationErrors(db, input, Some(id))
    ensures id in db.recipes && db.recipes[id].name == input.name
    ensures ValidationErrors(db, input, Some(id)) == {DuplicateName}
  {
    var r :| r in db.recipes && db.recipes[r].name == input.name;
    if r != id {
      assert NameTakenByOther(db.recipes, input.name, Some(id));
    }
  }

  /** As written, `validate` compares the name with every recipe, the one
      being updated included, so an update that keeps the name is refused. */
  lemma UpdateKeepingNameRejected(db: Store, id: RecipeId, input: RecipeInput)
    requires id in db.recipes && input.name == db.recipes[id].name
    ensures ValidationErrors(db, input, Some(id)) != {}
    ensures FieldErrors(db, input, Some(id)) == {} ==> ValidationErrors(db, input, Some(id)) == {DuplicateName}
  {
    assert db.recipes[id].name == input.name;
  }

  // ---------------------------------------------------------------------
  // RecipeCreateSerializer: writing
  // ---------------------------------------------------------------------

  /** The rows `create_ingredient` builds: one per entry, in entry order. */
  function RowsFor(recipe: RecipeId, entries: seq<IngredientEntry>): (rows: seq<RecipeIngredient>)
    requires AmountsInRange(entries)
    ensures |rows| == |entries|
    ensures forall i :: 0 <= i < |entries| ==>
      rows[i] == RecipeIngredient(recipe, entries[i].id, entries[i].amount)
  {
    seq(|entries|, i requires 0 <= i < |entries| => RecipeIngredient(recipe, entries[i].id, entries[i].amount))
  }

  /** Appending rows of one recipe after removing its old rows makes the
      appended rows its rows, and leaves every other recipe's rows as they
      were. */
  lemma AppendedRows(rows: seq<RecipeIngredient>, added: seq<RecipeIngredient>, id: RecipeId)
    requires forall x :: x in added ==> x.recipe == id
    ensures RowsOf(RowsNotOf(rows, {id}) + added, id) == added
    ensures RowsNotOf(RowsNotOf(rows, {id}) + added, {id}) == RowsNotOf(rows, {id})
  {
    var kept := RowsNotOf(rows, {id});
    RowsOfConcat(kept, added, id);
    RowsNotOfConcat(kept, added, {id});
    RowsAbsent(kept, id);
    RowsOfAll(added, id);
    RowsNotOfAll(kept, {id});
    RowsNotOfNone(added, id);
    assert [] + added == added;
    assert kept + [] == kept;
  }

  /** The list comprehension of `create_ingredient`: an
      `Ingredient.objects.get` per entry, which raises on the first id that
      names no ingredient. */
  method BuildIngredientRows(db: Store, recipe: RecipeId, entries: seq<IngredientEntry>)
    returns (r: Result<seq<RecipeIngredient>, int>)
    requires AmountsInRange(entries)
    ensures r.Ok? <==> forall i :: 0 <= i < |entries| ==> entries[i].id in db.ingredients
    ensures r.Ok? ==> r.value == RowsFor(recipe, entries)
    ensures r.Err? ==> exists k :: (0 <= k < |entries| && entries[k].id == r.error &&
      entries[k].id !in db.ingredients && forall j :: 0 <= j < k ==> entries[j].id in db.ingredients)
  {
    var rows: seq<RecipeIngredient> := [];
    var i := 0;
    while i < |entries|
      invariant 0 <= i <= |entries|
      invariant |rows| == i
      invariant forall j :: 0 <= j < i ==> entries[j].id in db.ingredients
      invariant forall j :: 0 <= j < i ==> rows[j] == RecipeIngredient(recipe, entries[j].id, entries[j].amount)
    {
      var entry := entries[i];
      if entry.id !in db.ingredients {
        return Err(entry.id);
      }
      rows := rows + [RecipeIngredient(recipe, entry.id, entry.amount)];
      i := i + 1;
    }
    return Ok(rows);
  }

  /** The outcome of a recipe write. */
  datatype WriteResult =
    | Saved(id: RecipeId)
    | Invalid(errors: set<ValidationError>)
    /** `Ingredient.DoesNotExist` raised inside the transaction. */
    | IngredientDoesNotExist(id: int)

  predicate AllIngredientsExist(db: Store, entries: seq<IngredientEntry>)
    reads db
  {
    forall i :: 0 <= i < |entries| ==> entries[i].id in db.ingredients
  }

  /** `create`: insert the recipe authored by the caller, set its tags and
      bulk-insert one row per ingredient entry; a failure rolls all of it back. */
  method CreateRecipe(db: Store, author: UserId, input: RecipeInput) returns (result: WriteResult)
    requires db.Valid() && author in db.users
    modifies db`recipes, db`nextRecipeId, db`recipeTags, db`recipeIngredients
    ensures db.Valid()
    ensures result.Invalid? <==> old(ValidationErrors(db, input, None)) != {}
    ensures result.Invalid? ==> result.errors == old(ValidationErrors(db, input, None))
    ensures result.IngredientDoesNotExist? <==>
      old(Accepted(db, input)) && !AllIngredientsExist(db, input.ingredients)
    ensures !result.Saved? ==>
      && db.recipes == old(db.recipes) && db.nextRecipeId == old(db.nextRecipeId)
      && db.recipeTags == old(db.recipeTags) && db.recipeIngredients == old(db.recipeIngredients)
    ensures result.Saved? ==> old(Accepted(db, input)) && AllIngredientsExist(db, input.ingredients)
    ensures result.Saved? ==>
      && result.id == old(db.nextRecipeId) && result.id !in old(db.recipes)
      && db.recipes == old(db.recipes)[result.id := Recipe(author, input.name, input.text, input.image, input.cookingTime)]
      && db.nextRecipeId == old(db.nextRecipeId) + 1
      && db.recipeTags == ReplaceTags(old(db.recipeTags), result.id, SetOf(input.tags))
      && db.recipeIngredients == old(db.recipeIngredients) + RowsFor(result.id, input.ingredients)
    ensures result.Saved? ==>
      && TagsOf(db.recipeTags, result.id) == SetOf(input.tags)
      && RowsOf(db.recipeIngredients, result.id) == RowsFor(result.id, input.ingredients)
  {
    var errors := ValidationErrors(db, input, None);
    if errors != {} {
      return Invalid(errors);
    }
    result := CreateAtomically(db, author, input);
  }

  /** The body of `create` under `@transaction.atomic`, for a validated write. */
  method CreateAtomically(db: Store, author: UserId, input: RecipeInput) returns (result: WriteResult)
    requires db.Valid() && author in db.users && Accepted(db, input)
    modifies db`recipes, db`nextRecipeId, db`recipeTags, db`recipeIngredients
    ensures db.Valid()
    ensures result.Saved? || result.IngredientDoesNotExist?
    ensures result.IngredientDoesNotExist? <==> !AllIngredientsExist(db, input.ingredients)
    ensures !result.Saved? ==>
      && db.recipes == old(db.recipes) && db.nextRecipeId == old(db.nextRecipeId)
      && db.recipeTags == old(db.recipeTags) && db.recipeIngredients == old(db.recipeIngredients)
    ensures result.Saved? ==>
      && result.id == old(db.nextRecipeId) && result.id !in old(db.recipes)
      && db.recipes == old(db.recipes)[result.id := Recipe(author, input.name, input.text, input.image, input.cookingTime)]
      && db.nextRecipeId == old(db.nextRecipeId) + 1
      && db.recipeTags == ReplaceTags(old(db.recipeTags), result.id, SetOf(input.tags))
      && db.recipeIngredients == old(db.recipeIngredients) + RowsFor(result.id, input.ingredients)
    ensures result.Saved? ==>
      && TagsOf(db.recipeTags, result.id) == SetOf(input.tags)
      && RowsOf(db.recipeIngredients, result.id) == RowsFor(result.id, input.ingredients)
  {
    // the state the transaction rolls back to
    var recipes0, next0, recipeTags0 := db.recipes, db.nextRecipeId, db.recipeTags;
    ghost var rows0 := db.recipeIngredients;
    assert forall x :: x in rows0 ==> x.recipe in recipes0;
    var id := InsertWithTags(db, author, input);
    var rows := BuildIngredientRows(db, id, input.ingredients);
    if rows.Err? {
      db.recipes, db.nextRecipeId, db.recipeTags := recipes0, next0, recipeTags0;
      db.ValidRestored();
      return IngredientDoesNotExist(rows.error);
    }
    db.AppendIngredientRows(rows.value);
    RowsNotOfAll(rows0, {id});
    AppendedRows(rows0, rows.value, id);
    return Saved(id);
  }

  /** The first two steps of `create`: `Recipe.objects.create` with the
      caller as author, then `recipe.tags.set(tags)`. */
  method InsertWithTags(db: Store, author: UserId, input: RecipeInput) returns (id: RecipeId)
    requires db.Valid() && author in db.users && Accepted(db, input)
    modifies db`recipes, db`nextRecipeId, db`recipeTags
    ensures db.Valid()
    ensures id == old(db.nextRecipeId) && id !in old(db.recipes)
    ensures db.recipes == old(db.recipes)[id := Recipe(author, input.name, input.text, input.image, input.cookingTime)]
    ensures db.nextRecipeId == id + 1
    ensures db.recipeTags == ReplaceTags(old(db.recipeTags), id, SetOf(input.tags))
  {
    var tagIds := SetOf(input.tags);
    assert tagIds <= db.tags.Keys by {
      forall t | t in tagIds ensures t in db.tags.Keys {
        assert t in input.tags;
      }
    }
    var inserted := db.InsertRecipe(Recipe(author, input.name, input.text, input.image, input.cookingTime));
    id := inserted.value;
    db.SetRecipeTags(id, tagIds);
  }

  /** `update`: delete the recipe's ingredient rows, insert the new ones,
      reset its tag set and overwrite its fields; a failure rolls all of it back. */
  method UpdateRecipe(db: Store, id: RecipeId, input: RecipeInput) returns (result: WriteResult)
    requires db.Valid() && id in db.recipes
    modifies db`recipes, db`recipeTags, db`recipeIngredients
    ensures db.Valid()
    ensures result.Invalid? <==> old(ValidationErrors(db, input, Some(id))) != {}
    ensures result.Invalid? ==> result.errors == old(ValidationErrors(db, input, Some(id)))
    ensures result.IngredientDoesNotExist? <==>
      old(Accepted(db, input)) && !AllIngredientsExist(db, input.ingredients)
    ensures !result.Saved? ==>
      db.recipes == old(db.recipes) && db.recipeTags == old(db.recipeTags) &&
      db.recipeIngredients == old(db.recipeIngredients)
    ensures result.Saved? ==> old(Accepted(db, input)) && AllIngredientsExist(db, input.ingredients)
    ensures result.Saved? ==>
      && result.id == id
      && db.recipes == old(db.recipes)[id := old(db.recipes)[id].(
           name := input.name, text := input.text, image := input.image, cookingTime := input.cookingTime)]
      && db.recipeTags == ReplaceTags(old(db.recipeTags), id, SetOf(input.tags))
      && db.recipeIngredients == RowsNotOf(old(db.recipeIngredients), {id}) + RowsFor(id, input.ingredients)
    ensures result.Saved? ==>
      && RowsOf(db.recipeIngredients, id) == RowsFor(id, input.ingredients)
      && RowsNotOf(db.recipeIngredients, {id}) == RowsNotOf(old(db.recipeIngredients), {id})
      && TagsOf(db.recipeTags, id) == SetOf(input.tags)
  {
    var errors := ValidationErrors(db, input, Some(id));
    if errors != {} {
      return Invalid(errors);
    }
    result := UpdateAtomically(db, id, input);
  }

  /** The body of `update` under `@transaction.atomic`, for a validated write. */
  method UpdateAtomically(db: Store, id: RecipeId, input: RecipeInput) returns (result: WriteResult)
    requires db.Valid() && id in db.recipes && Accepted(db, input)
    modifies db`recipes, db`recipeTags, db`recipeIngredients
    ensures db.Valid()
    ensures result.Saved? || result.IngredientDoesNotExist?
    ensures result.IngredientDoesNotExist? <==> !AllIngredientsExist(db, input.ingredients)
    ensures !result.Saved? ==>
      db.recipes == old(db.recipes) && db.recipeTags == old(db.recipeTags) &&
      db.recipeIngredients == old(db.recipeIngredients)
    ensures result.Saved? ==>
      && result.id == id
      && db.recipes == old(db.recipes)[id := old(db.recipes)[id].(
           name := input.name, text := input.text, image := input.image, cookingTime := input.cookingTime)]
      && db.recipeTags == ReplaceTags(old(db.recipeTags), id, SetOf(input.tags))
      && db.recipeIngredients == RowsNotOf(old(db.recipeIngredients), {id}) + RowsFor(id, input.ingredients)
    ensures result.Saved? ==>
      && RowsOf(db.recipeIngredients, id) == RowsFor(id, input.ingredients)
      && RowsNotOf(db.recipeIngredients, {id}) == RowsNotOf(old(db.recipeIngredients), {id})
      && TagsOf(db.recipeTags, id) == SetOf(input.tags)
  {
    var tagIds := SetOf(input.tags);
    assert tagIds <= db.tags.Keys by {
      forall t | t in tagIds ensures t in db.tags.Keys {
        assert t in input.tags;
      }
    }
    // the state the transaction rolls back to
    var rows0 := db.recipeIngredients;
    db.RemoveIngredientRows(id);
    var rows := BuildIngredientRows(db, id, input.ingredients);
    if rows.Err? {
      db.recipeIngredients := rows0;
      db.ValidRestored();
      return IngredientDoesNotExist(rows.error);
    }
    db.AppendIngredientRows(rows.value);
    AppendedRows(rows0, rows.value, id);
    db.SetRecipeTags(id, tagIds);
    var saved := db.UpdateRecipeFields(id, input.name, input.text, input.image, input.cookingTime);
    return Saved(id);
  }
}
