/** The persistent store: the tables declared in recipes/models.py and
    users/models.py, their uniqueness constraints, the foreign keys between
    them and what a cascading delete removes. */
module Models {
  import opened Util

  type UserId = int
  type TagId = int
  type IngredientId = int
  type RecipeId = int

  /** Largest value a PositiveSmallIntegerField column holds. */
  const SMALL_UINT_MAX := 32767

  /** The values of a PositiveSmallIntegerField column. */
  type SmallUint = x: int | 0 <= x <= SMALL_UINT_MAX

  /** The bounds the write serializers put on `amount` and `cooking_time`. */
  const MIN_MEANING := 1
  const MAX_MEANING := 32000

  datatype User = User(email: string, username: string, firstName: string, lastName: string)

  datatype Tag = Tag(name: string, color: string, slug: string)

  datatype Ingredient = Ingredient(name: string, measurementUnit: string)

  datatype Recipe = Recipe(author: UserId, name: string, text: string, image: string, cookingTime: SmallUint)

  /** A row of the recipe-ingredient through table. */
  datatype RecipeIngredient = RecipeIngredient(recipe: RecipeId, ingredient: IngredientId, amount: SmallUint)

  /** The user a request is made by, who may be anonymous. */
  datatype Caller = Anonymous | Authenticated(user: UserId)

  // ---------------------------------------------------------------------
  // Uniqueness constraints (unique=True)
  // ---------------------------------------------------------------------

  predicate EmailTaken(users: map<UserId, User>, email: string) {
    exists u :: u in users && users[u].email == email
  }

  ghost predicate UniqueEmails(users: map<UserId, User>) {
    forall a, b :: a in users && b in users && a != b ==> users[a].email != users[b].email
  }

  /** Some tag already has this tag's name, colour or slug. */
  predicate TagClashes(tags: map<TagId, Tag>, t: Tag) {
    exists k :: k in tags && (tags[k].name == t.name || tags[k].color == t.color || tags[k].slug == t.slug)
  }

  ghost predicate UniqueTags(tags: map<TagId, Tag>) {
    forall a, b :: a in tags && b in tags && a != b ==>
      tags[a].name != tags[b].name && tags[a].color != tags[b].color && tags[a].slug != tags[b].slug
  }

  /** Some ingredient already has this ingredient's name or measurement unit. */
  predicate IngredientClashes(ingredients: map<IngredientId, Ingredient>, i: Ingredient) {
    exists k :: k in ingredients &&
      (ingredients[k].name == i.name || ingredients[k].measurementUnit == i.measurementUnit)
  }

  ghost predicate UniqueIngredients(ingredients: map<IngredientId, Ingredient>) {
    forall a, b :: a in ingredients && b in ingredients && a != b ==>
      ingredients[a].name != ingredients[b].name &&
      ingredients[a].measurementUnit != ingredients[b].measurementUnit
  }

  predicate NameTaken(recipes: map<RecipeId, Recipe>, name: string) {
    exists r :: r in recipes && recipes[r].name == name
  }

  ghost predicate UniqueRecipeNames(recipes: map<RecipeId, Recipe>) {
    forall a, b :: a in recipes && b in recipes && a != b ==> recipes[a].name != recipes[b].name
  }

  // ---------------------------------------------------------------------
  // Foreign keys
  // ---------------------------------------------------------------------

  ghost predicate KeysBelow(keys: set<int>, next: int) {
    forall k :: k in keys ==> 0 <= k < next
  }

  ghost predicate RowsReference(rows: seq<RecipeIngredient>, recipes: set<RecipeId>, ingredients: set<IngredientId>) {
    forall row :: row in rows ==> row.recipe in recipes && row.ingredient in ingredients
  }

  ghost predicate PairsReference<A, B>(pairs: set<(A, B)>, left: set<A>, right: set<B>) {
    forall p :: p in pairs ==> p.0 in left && p.1 in right
  }

  // ---------------------------------------------------------------------
  // Queries on the through tables
  // ---------------------------------------------------------------------

  /** `recipe.recipeingredient.all()`: the rows of one recipe, in table order. */
  function RowsOf(rows: seq<RecipeIngredient>, recipe: RecipeId): (r: seq<RecipeIngredient>)
    ensures forall x :: x in r <==> x in rows && x.recipe == recipe
    ensures IsSubsequence(r, rows)
    decreases |rows|
  {
    if rows == [] then []
    else
      var rest := RowsOf(rows[1..], recipe);
      assert rows == [rows[0]] + rows[1..];
      if rows[0].recipe == recipe then
        assert ([rows[0]] + rest)[1..] == rest;
        [rows[0]] + rest
      else
        assert rest != [] ==> rest[0] in rest;
        rest
  }

  /** The rows that survive deleting the recipes in `gone`. */
  function RowsNotOf(rows: seq<RecipeIngredient>, gone: set<RecipeId>): (r: seq<RecipeIngredient>)
    ensures forall x :: x in r <==> x in rows && x.recipe !in gone
    ensures IsSubsequence(r, rows)
    decreases |rows|
  {
    if rows == [] then []
    else
      var rest := RowsNotOf(rows[1..], gone);
      assert rows == [rows[0]] + rows[1..];
      if rows[0].recipe !in gone then
        assert ([rows[0]] + rest)[1..] == rest;
        [rows[0]] + rest
      else
        assert rest != [] ==> rest[0] in rest;
        rest
  }

  lemma {:induction false} RowsOfConcat(a: seq<RecipeIngredient>, b: seq<RecipeIngredient>, recipe: RecipeId)
    ensures RowsOf(a + b, recipe) == RowsOf(a, recipe) + RowsOf(b, recipe)
    decreases |a|
  {
    if a == [] {
      assert a + b == b;
    } else {
      assert (a + b)[1..] == a[1..] + b;
      RowsOfConcat(a[1..], b, recipe);
    }
  }

  lemma {:induction false} RowsNotOfConcat(a: seq<RecipeIngredient>, b: seq<RecipeIngredient>, gone: set<RecipeId>)
    ensures RowsNotOf(a + b, gone) == RowsNotOf(a, gone) + RowsNotOf(b, gone)
    decreases |a|
  {
    if a == [] {
      assert a + b == b;
    } else {
      assert (a + b)[1..] == a[1..] + b;
      RowsNotOfConcat(a[1..], b, gone);
    }
  }

  /** The rows of a recipe are all rows when every row is one of them. */
  lemma {:induction false} RowsOfAll(rows: seq<RecipeIngredient>, recipe: RecipeId)
    requires forall x :: x in rows ==> x.recipe == recipe
    ensures RowsOf(rows, recipe) == rows
    decreases |rows|
  {
    if rows != [] {
      assert rows[0] in rows;
      assert forall x :: x in rows[1..] ==> x in rows;
      RowsOfAll(rows[1..], recipe);
    }
  }

  /** Deleting recipes no row belongs to removes no row. */
  lemma {:induction false} RowsNotOfAll(rows: seq<RecipeIngredient>, gone: set<RecipeId>)
    requires forall x :: x in rows ==> x.recipe !in gone
    ensures RowsNotOf(rows, gone) == rows
    decreases |rows|
  {
    if rows != [] {
      assert rows[0] in rows;
      assert forall x :: x in rows[1..] ==> x in rows;
      RowsNotOfAll(rows[1..], gone);
    }
  }

  /** A recipe none of the rows belongs to has no rows. */
  lemma {:induction false} RowsAbsent(rows: seq<RecipeIngredient>, recipe: RecipeId)
    requires forall x :: x in rows ==> x.recipe != recipe
    ensures RowsOf(rows, recipe) == []
    decreases |rows|
  {
    if rows != [] {
      assert rows[0] in rows;
      assert forall x :: x in rows[1..] ==> x in rows;
      RowsAbsent(rows[1..], recipe);
    }
  }

  /** Deleting the one recipe all rows belong to removes every row. */
  lemma {:induction false} RowsNotOfNone(rows: seq<RecipeIngredient>, recipe: RecipeId)
    requires forall x :: x in rows ==> x.recipe == recipe
    ensures RowsNotOf(rows, {recipe}) == []
    decreases |rows|
  {
    if rows != [] {
      assert rows[0] in rows;
      assert forall x :: x in rows[1..] ==> x in rows;
      RowsNotOfNone(rows[1..], recipe);
    }
  }

  /** After deleting the recipes in `gone`, a deleted recipe has no rows
      left and every other recipe keeps exactly its rows, in order. */
  lemma {:induction false} RowsOfAfterDelete(rows: seq<RecipeIngredient>, gone: set<RecipeId>, recipe: RecipeId)
    ensures RowsOf(RowsNotOf(rows, gone), recipe) == if recipe in gone then [] else RowsOf(rows, recipe)
    decreases |rows|
  {
    if rows != [] {
      RowsOfAfterDelete(rows[1..], gone, recipe);
      if rows[0].recipe !in gone {
        assert RowsNotOf(rows, gone)[1..] == RowsNotOf(rows[1..], gone);
      }
    }
  }

  /** The rows that survive deleting one ingredient. */
  function RowsWithoutIngredient(rows: seq<RecipeIngredient>, ingredient: IngredientId): (r: seq<RecipeIngredient>)
    ensures forall x :: x in r <==> x in rows && x.ingredient != ingredient
    ensures IsSubsequence(r, rows)
  {
    Filter(rows, (x: RecipeIngredient) => x.ingredient != ingredient)
  }

  /** The pairs whose left member is not in `gone`. */
  function DropLeft(pairs: set<(int, int)>, gone: set<int>): (r: set<(int, int)>)
    ensures forall p :: p in r <==> p in pairs && p.0 !in gone
  {
    set p | p in pairs && p.0 !in gone
  }

  /** The pairs whose right member is not in `gone`. */
  function DropRight(pairs: set<(int, int)>, gone: set<int>): (r: set<(int, int)>)
    ensures forall p :: p in r <==> p in pairs && p.1 !in gone
  {
    set p | p in pairs && p.1 !in gone
  }

  /** The recipes written by one author. */
  function RecipesBy(recipes: map<RecipeId, Recipe>, author: UserId): set<RecipeId> {
    set x | x in recipes && recipes[x].author == author
  }

  /** Storing a new recipe adds one to its author's recipe count and leaves
      every other author's count as it was. */
  lemma RecipesByInsert(recipes: map<RecipeId, Recipe>, id: RecipeId, r: Recipe, author: UserId)
    requires id !in recipes
    ensures |RecipesBy(recipes[id := r], author)| ==
      |RecipesBy(recipes, author)| + (if r.author == author then 1 else 0)
  {
    if r.author == author {
      assert RecipesBy(recipes[id := r], author) == RecipesBy(recipes, author) + {id};
    } else {
      assert RecipesBy(recipes[id := r], author) == RecipesBy(recipes, author);
    }
  }

  /** The tag set of one recipe: `recipe.tags.all()`. */
  function TagsOf(recipeTags: set<(RecipeId, TagId)>, recipe: RecipeId): (r: set<TagId>)
    ensures forall t :: t in r <==> (recipe, t) in recipeTags
  {
    set p | p in recipeTags && p.0 == recipe :: p.1
  }

  /** `recipe.tags.set(tags)`: the relation with the recipe's tag set replaced. */
  function ReplaceTags(recipeTags: set<(RecipeId, TagId)>, recipe: RecipeId, tags: set<TagId>): (r: set<(RecipeId, TagId)>)
    ensures TagsOf(r, recipe) == tags
    ensures forall other, t :: other != recipe ==> ((other, t) in r <==> (other, t) in recipeTags)
  {
    var r := (set p | p in recipeTags && p.0 != recipe) + (set t | t in tags :: (recipe, t));
    assert forall t :: (recipe, t) in r <==> t in tags;
    r
  }

  class Store {
    var users: map<UserId, User>
    var tags: map<TagId, Tag>
    var ingredients: map<IngredientId, Ingredient>
    var recipes: map<RecipeId, Recipe>
    /** The recipe-ingredient table, in primary-key order. */
    var recipeIngredients: seq<RecipeIngredient>
    var recipeTags: set<(RecipeId, TagId)>
    /** (user, recipe) */
    var favorites: set<(UserId, RecipeId)>
    /** (user, recipe) */
    var carts: set<(UserId, RecipeId)>
    /** (subscriber, author) */
    var subscriptions: set<(UserId, UserId)>
    /** Next values of the auto-increment primary keys. */
    var nextUserId: int
    var nextTagId: int
    var nextIngredientId: int
    var nextRecipeId: int

    ghost predicate Valid()
      reads this
    {
      && 0 <= nextUserId && 0 <= nextTagId && 0 <= nextIngredientId && 0 <= nextRecipeId
      && KeysBelow(users.Keys, nextUserId)
      && KeysBelow(tags.Keys, nextTagId)
      && KeysBelow(ingredients.Keys, nextIngredientId)
      && KeysBelow(recipes.Keys, nextRecipeId)
      && UniqueEmails(users)
      && UniqueTags(tags)
      && UniqueIngredients(ingredients)
      && UniqueRecipeNames(recipes)
      && (forall r :: r in recipes ==> recipes[r].author in users)
      && RowsReference(recipeIngredients, recipes.Keys, ingredients.Keys)
      && PairsReference(recipeTags, recipes.Keys, tags.Keys)
      && PairsReference(favorites, users.Keys, recipes.Keys)
      && PairsReference(carts, users.Keys, recipes.Keys)
      && PairsReference(subscriptions, users.Keys, users.Keys)
    }

    /** A state that has been put back field by field is as consistent as it
        was: how a rolled-back transaction keeps the invariant. */
    twostate lemma ValidRestored()
      requires old(Valid()) && unchanged(this)
      ensures Valid()
    {
    }

    /** An empty database. */
    constructor ()
      ensures Valid()
      ensures users == map[] && tags == map[] && ingredients == map[] && recipes == map[]
      ensures recipeIngredients == [] && recipeTags == {} && favorites == {} && carts == {} && subscriptions == {}
    {
      users, tags, ingredients, recipes := map[], map[], map[], map[];
      recipeIngredients := [];
      recipeTags, favorites, carts, subscriptions := {}, {}, {}, {};
      nextUserId, nextTagId, nextIngredientId, nextRecipeId := 0, 0, 0, 0;
    }

    /** Users in ascending id order (Meta.ordering = ['id']). */
    function UserIds(): (r: seq<UserId>)
      reads this
      ensures forall i, j :: 0 <= i < j < |r| ==> r[i] < r[j]
      ensures forall u :: u in r <==> u in users
    {
      SortedKeys(users.Keys)
    }

    /** Recipes in ascending id order: `Recipe.objects.all()`. */
    function RecipeIds(): (r: seq<RecipeId>)
      reads this
      ensures forall i, j :: 0 <= i < j < |r| ==> r[i] < r[j]
      ensures forall x :: x in r <==> x in recipes
    {
      SortedKeys(recipes.Keys)
    }

    /** Saving a new user; the unique email column rejects a duplicate. */
    method InsertUser(u: User) returns (id: Option<UserId>)
      requires Valid()
      modifies this`users, this`nextUserId
      ensures Valid()
      ensures old(EmailTaken(users, u.email)) ==> id == None && users == old(users) && nextUserId == old(nextUserId)
      ensures !old(EmailTaken(users, u.email)) ==>
        id == Some(old(nextUserId)) && old(nextUserId) !in old(users) &&
        users == old(users)[old(nextUserId) := u] && nextUserId == old(nextUserId) + 1
    {
      if EmailTaken(users, u.email) {
        return None;
      }
      id := Some(nextUserId);
      users := users[nextUserId := u];
      nextUserId := nextUserId + 1;
    }

    /** Saving a new tag; name, colour and slug are each unique. */
    method InsertTag(t: Tag) returns (id: Option<TagId>)
      requires Valid()
      modifies this`tags, this`nextTagId
      ensures Valid()
      ensures old(TagClashes(tags, t)) ==> id == None && tags == old(tags) && nextTagId == old(nextTagId)
      ensures !old(TagClashes(tags, t)) ==>
        id == Some(old(nextTagId)) && old(nextTagId) !in old(tags) &&
        tags == old(tags)[old(nextTagId) := t] && nextTagId == old(nextTagId) + 1
    {
      if TagClashes(tags, t) {
        return None;
      }
      id := Some(nextTagId);
      tags := tags[nextTagId := t];
      nextTagId := nextTagId + 1;
    }

    /** Saving a new ingredient; name and measurement unit are each unique. */
    method InsertIngredient(i: Ingredient) returns (id: Option<IngredientId>)
      requires Valid()
      modifies this`ingredients, this`nextIngredientId
      ensures Valid()
      ensures old(IngredientClashes(ingredients, i)) ==>
        id == None && ingredients == old(ingredients) && nextIngredientId == old(nextIngredientId)
      ensures !old(IngredientClashes(ingredients, i)) ==>
        id == Some(old(nextIngredientId)) && old(nextIngredientId) !in old(ingredients) &&
        ingredients == old(ingredients)[old(nextIngredientId) := i] &&
        nextIngredientId == old(nextIngredientId) + 1
    {
      if IngredientClashes(ingredients, i) {
        return None;
      }
      id := Some(nextIngredientId);
      ingredients := ingredients[nextIngredientId := i];
      nextIngredientId := nextIngredientId + 1;
    }

    /** Saving a new recipe; its name is unique. */
    method InsertRecipe(r: Recipe) returns (id: Option<RecipeId>)
      requires Valid() && r.author in users
      modifies this`recipes, this`nextRecipeId
      ensures Valid()
      ensures old(NameTaken(recipes, r.name)) ==>
        id == None && recipes == old(recipes) && nextRecipeId == old(nextRecipeId)
      ensures !old(NameTaken(recipes, r.name)) ==>
        id == Some(old(nextRecipeId)) && old(nextRecipeId) !in old(recipes) &&
        recipes == old(recipes)[old(nextRecipeId) := r] && nextRecipeId == old(nextRecipeId) + 1
    {
      if NameTaken(recipes, r.name) {
        return None;
      }
      id := Some(nextRecipeId);
      recipes := recipes[nextRecipeId := r];
      nextRecipeId := nextRecipeId + 1;
    }

    /** Overwriting the fields of a recipe; the new name must still be unique. */
    method UpdateRecipeFields(id: RecipeId, name: string, text: string, image: string, cookingTime: SmallUint)
      returns (saved: bool)
      requires Valid() && id in recipes
      modifies this`recipes
      ensures Valid()
      ensures saved <==> forall k :: k in old(recipes) && k != id ==> old(recipes)[k].name != name
      ensures saved ==> recipes == old(recipes)[id := old(recipes)[id].(
        name := name, text := text, image := image, cookingTime := cookingTime)]
      ensures !saved ==> recipes == old(recipes)
    {
      if exists k :: k in recipes && k != id && recipes[k].name == name {
        return false;
      }
      recipes := recipes[id := recipes[id].(name := name, text := text, image := image, cookingTime := cookingTime)];
      return true;
    }

    /** `recipe.tags.set(tags)` */
    method SetRecipeTags(id: RecipeId, tagIds: set<TagId>)
      requires Valid() && id in recipes && tagIds <= tags.Keys
      modifies this`recipeTags
      ensures Valid()
      ensures recipeTags == ReplaceTags(old(recipeTags), id, tagIds)
    {
      recipeTags := ReplaceTags(recipeTags, id, tagIds);
    }

    /** `bulk_create` of ingredient rows whose foreign keys exist. */
    method AppendIngredientRows(rows: seq<RecipeIngredient>)
      requires Valid() && RowsReference(rows, recipes.Keys, ingredients.Keys)
      modifies this`recipeIngredients
      ensures Valid()
      ensures recipeIngredients == old(recipeIngredients) + rows
    {
      recipeIngredients := recipeIngredients + rows;
    }

    /** Deleting the ingredient rows of one recipe. */
    method RemoveIngredientRows(id: RecipeId)
      requires Valid()
      modifies this`recipeIngredients
      ensures Valid()
      ensures recipeIngredients == RowsNotOf(old(recipeIngredients), {id})
    {
      recipeIngredients := RowsNotOf(recipeIngredients, {id});
    }

    /** Deleting recipes cascades to their ingredient rows, tag rows,
        favourites and cart entries. */
    method DeleteRecipes(gone: set<RecipeId>)
      requires Valid()
      modifies this`recipes, this`recipeIngredients, this`recipeTags, this`favorites, this`carts
      ensures Valid()
      ensures recipes == old(recipes) - gone
      ensures recipeIngredients == RowsNotOf(old(recipeIngredients), gone)
      ensures recipeTags == DropLeft(old(recipeTags), gone)
      ensures favorites == DropRight(old(favorites), gone)
      ensures carts == DropRight(old(carts), gone)
    {
      recipes := recipes - gone;
      recipeIngredients := RowsNotOf(recipeIngredients, gone);
      recipeTags := DropLeft(recipeTags, gone);
      favorites := DropRight(favorites, gone);
      carts := DropRight(carts, gone);
    }

    method DeleteRecipe(id: RecipeId)
      requires Valid() && id in recipes
      modifies this`recipes, this`recipeIngredients, this`recipeTags, this`favorites, this`carts
      ensures Valid()
      ensures recipes == old(recipes) - {id}
      ensures recipeIngredients == RowsNotOf(old(recipeIngredients), {id})
      ensures recipeTags == DropLeft(old(recipeTags), {id})
      ensures favorites == DropRight(old(favorites), {id})
      ensures carts == DropRight(old(carts), {id})
    {
      DeleteRecipes({id});
    }

    /** Deleting an ingredient cascades to the rows that use it. */
    method DeleteIngredient(id: IngredientId)
      requires Valid() && id in ingredients
      modifies this`ingredients, this`recipeIngredients
      ensures Valid()
      ensures ingredients == old(ingredients) - {id}
      ensures recipeIngredients == RowsWithoutIngredient(old(recipeIngredients), id)
    {
      ingredients := ingredients - {id};
      recipeIngredients := RowsWithoutIngredient(recipeIngredients, id);
    }

    /** Deleting a tag cascades to its recipe-tag rows. */
    method DeleteTag(id: TagId)
      requires Valid() && id in tags
      modifies this`tags, this`recipeTags
      ensures Valid()
      ensures tags == old(tags) - {id}
      ensures recipeTags == DropRight(old(recipeTags), {id})
    {
      tags := tags - {id};
      recipeTags := DropRight(recipeTags, {id});
    }

    /** Deleting a user cascades to the favourites, cart entries and
        subscriptions that reference the user on either side, and to the
        recipes the user wrote together with everything that references them. */
    method DeleteUser(id: UserId)
      requires Valid() && id in users
      modifies this`users, this`recipes, this`recipeIngredients, this`recipeTags,
               this`favorites, this`carts, this`subscriptions
      ensures Valid()
      ensures users == old(users) - {id}
      ensures var gone := RecipesBy(old(recipes), id);
        && recipes == old(recipes) - gone
        && recipeIngredients == RowsNotOf(old(recipeIngredients), gone)
        && recipeTags == DropLeft(old(recipeTags), gone)
        && favorites == DropLeft(DropRight(old(favorites), gone), {id})
        && carts == DropLeft(DropRight(old(carts), gone), {id})
      ensures subscriptions == DropRight(DropLeft(old(subscriptions), {id}), {id})
    {
      DeleteRecipes(RecipesBy(recipes, id));
      users := users - {id};
      favorites := DropLeft(favorites, {id});
      carts := DropLeft(carts, {id});
      subscriptions := DropRight(DropLeft(subscriptions, {id}), {id});
    }
  }
}
