/** RecipeFilter of api/filters.py: the query-string filters of the recipe
    listing. A queryset is a sequence of recipe ids; every filter keeps a
    subsequence of it. */
module Filters {
  import opened Util
  import opened Models
  import opened Serializers

  /** `is_favorited_filter` */
  function FilterFavorited(db: Store, caller: Caller, qs: seq<RecipeId>, value: bool): (r: seq<RecipeId>)
    reads db
    ensures !(value && caller.Authenticated?) ==> r == qs
    ensures value && caller.Authenticated? ==>
      forall x :: x in r <==> x in qs && (caller.user, x) in db.favorites
    ensures forall x :: x in r ==> x in qs
    ensures IsSubsequence(r, qs)
  {
    if !(value && caller.Authenticated?) then
      SubsequenceReflexive(qs);
      qs
    else
      var user, favorites := caller.user, db.favorites;
      Filter(qs, (x: RecipeId) => (user, x) in favorites)
  }

  /** `is_in_shopping_cart_filter` */
  function FilterInCart(db: Store, caller: Caller, qs: seq<RecipeId>, value: bool): (r: seq<RecipeId>)
    reads db
    ensures !(value && caller.Authenticated?) ==> r == qs
    ensures value && caller.Authenticated? ==>
      forall x :: x in r <==> x in qs && (caller.user, x) in db.carts
    ensures forall x :: x in r ==> x in qs
    ensures IsSubsequence(r, qs)
  {
    if !(value && caller.Authenticated?) then
      SubsequenceReflexive(qs);
      qs
    else
      var user, carts := caller.user, db.carts;
      Filter(qs, (x: RecipeId) => (user, x) in carts)
  }

  /** For an authenticated caller with the filters on, a listed recipe is
      exactly one whose `is_favorited` (`is_in_shopping_cart`) flag the
      serializer reports as true. */
  lemma FiltersAgreeWithFlags(db: Store, caller: Caller, qs: seq<RecipeId>)
    requires caller.Authenticated?
    ensures forall x :: x in FilterFavorited(db, caller, qs, true) <==> x in qs && IsFavorited(db, caller, x)
    ensures forall x :: x in FilterInCart(db, caller, qs, true) <==> x in qs && IsInShoppingCart(db, caller, x)
  {
  }

  lemma {:induction false} FilterFavoritedIdempotent(db: Store, caller: Caller, qs: seq<RecipeId>, value: bool)
    ensures FilterFavorited(db, caller, FilterFavorited(db, caller, qs, value), value)
         == FilterFavorited(db, caller, qs, value)
  {
    if value && caller.Authenticated? {
      var user, favorites := caller.user, db.favorites;
      FilterIdempotent(qs, (x: RecipeId) => (user, x) in favorites);
    }
  }

  lemma {:induction false} FilterInCartIdempotent(db: Store, caller: Caller, qs: seq<RecipeId>, value: bool)
    ensures FilterInCart(db, caller, FilterInCart(db, caller, qs, value), value)
         == FilterInCart(db, caller, qs, value)
  {
    if value && caller.Authenticated? {
      var user, carts := caller.user, db.carts;
      FilterIdempotent(qs, (x: RecipeId) => (user, x) in carts);
    }
  }

  /** The recipe has a tag whose slug is one of `slugs`. */
  predicate HasSlug(recipeTags: set<(RecipeId, TagId)>, tags: map<TagId, Tag>, recipe: RecipeId, slugs: seq<string>) {
    exists t :: (recipe, t) in recipeTags && t in tags && tags[t].slug in slugs
  }

  predicate SlugExists(tags: map<TagId, Tag>, slug: string) {
    exists t :: t in tags && tags[t].slug == slug
  }

  /** Why a query string is refused. */
  datatype FilterError = UnknownSlug(slug: string) | UnknownAuthor(id: int)

  /** `s` is the first slug of the list that names no tag: the form field
      checks the values in order and rejects the first one missing. */
  predicate FirstUnknownSlug(tags: map<TagId, Tag>, slugs: seq<string>, s: string) {
    exists k :: 0 <= k < |slugs| && slugs[k] == s && !SlugExists(tags, s) &&
      forall j :: 0 <= j < k ==> SlugExists(tags, slugs[j])
  }

  /** The slug the `tags` field rejects, if any. */
  function UnknownSlugOf(tags: map<TagId, Tag>, slugs: seq<string>): (r: Option<string>)
    ensures forall s :: r == Some(s) <==> FirstUnknownSlug(tags, slugs, s)
    ensures r.None? <==> forall s :: s in slugs ==> SlugExists(tags, s)
  {
    var first := FirstIndex(slugs, (s: string) => !SlugExists(tags, s));
    if first.None? then None
    else
      var k := first.value;
      forall s | FirstUnknownSlug(tags, slugs, s) ensures s == slugs[k] {
        var k' :| 0 <= k' < |slugs| && slugs[k'] == s && !SlugExists(tags, s) &&
          forall j :: 0 <= j < k' ==> SlugExists(tags, slugs[j]);
        assert k' == k;
      }
      assert FirstUnknownSlug(tags, slugs, slugs[k]);
      assert slugs[k] in slugs;
      Some(slugs[k])
  }

  /** The `tags` filter (ModelMultipleChoiceFilter on `tags__slug`): the
      first slug that names no tag is an error; none given is no filter;
      otherwise a recipe is kept when one of its tags has one of the slugs. */
  function FilterTags(db: Store, qs: seq<RecipeId>, slugs: seq<string>): (r: Result<seq<RecipeId>, set<FilterError>>)
    reads db
    ensures r.Err? <==> exists s :: s in slugs && !SlugExists(db.tags, s)
    ensures r.Err? ==> exists s :: r.error == {UnknownSlug(s)} && FirstUnknownSlug(db.tags, slugs, s)
    ensures r.Ok? && slugs == [] ==> r.value == qs
    ensures r.Ok? && slugs != [] ==> forall x :: x in r.value <==> x in qs && HasSlug(db.recipeTags, db.tags, x, slugs)
    ensures r.Ok? ==> IsSubsequence(r.value, qs)
  {
    match UnknownSlugOf(db.tags, slugs)
    case Some(s) => Err({UnknownSlug(s)})
    case None =>
      if slugs == [] then
        SubsequenceReflexive(qs);
        Ok(qs)
      else
        var recipeTags, tags := db.recipeTags, db.tags;
        Ok(Filter(qs, (x: RecipeId) => HasSlug(recipeTags, tags, x, slugs)))
  }

  /** The `author` filter (a choice among the users' primary keys). */
  function FilterAuthor(db: Store, qs: seq<RecipeId>, author: Option<int>): (r: Result<seq<RecipeId>, set<FilterError>>)
    reads db
    ensures r.Err? <==> author.Some? && author.value !in db.users
    ensures r.Err? ==> r.error == {UnknownAuthor(author.value)}
    ensures r.Ok? && author.None? ==> r.value == qs
    ensures r.Ok? && author.Some? ==>
      forall x :: x in r.value <==> x in qs && x in db.recipes && db.recipes[x].author == author.value
    ensures r.Ok? ==> IsSubsequence(r.value, qs)
  {
    match author
    case None =>
      SubsequenceReflexive(qs);
      Ok(qs)
    case Some(a) =>
      if a !in db.users then Err({UnknownAuthor(a)})
      else
        var recipes := db.recipes;
        Ok(Filter(qs, (x: RecipeId) => x in recipes && recipes[x].author == a))
  }

  /** The query string of the recipe listing. */
  datatype RecipeFilterParams = RecipeFilterParams(
    tags: seq<string>, author: Option<int>, isFavorited: bool, isInShoppingCart: bool)

  /** The whole FilterSet: the form is validated first, then every filter
      narrows the queryset in turn. */
  function FilterRecipes(db: Store, caller: Caller, qs: seq<RecipeId>, params: RecipeFilterParams)
    : (r: Result<seq<RecipeId>, set<FilterError>>)
    reads db
    ensures r.Err? <==> FilterTags(db, qs, params.tags).Err? || FilterAuthor(db, qs, params.author).Err?
    ensures r.Ok? ==> IsSubsequence(r.value, qs)
  {
    var byTags := FilterTags(db, qs, params.tags);
    var byAuthor := FilterAuthor(db, qs, params.author);
    if byTags.Err? || byAuthor.Err? then
      Err((if byTags.Err? then byTags.error else {}) + (if byAuthor.Err? then byAuthor.error else {}))
    else
      var r1 := FilterTags(db, qs, params.tags).value;
      var r2 := FilterAuthor(db, r1, params.author).value;
      var r3 := FilterFavorited(db, caller, r2, params.isFavorited);
      var r4 := FilterInCart(db, caller, r3, params.isInShoppingCart);
      SubsequenceTransitive(r4, r3, r2);
      SubsequenceTransitive(r4, r2, r1);
      SubsequenceTransitive(r4, r1, qs);
      Ok(r4)
  }

  /** A recipe is listed exactly when it is in the queryset and passes every
      filter that is switched on. */
  lemma FilterRecipesMembers(db: Store, caller: Caller, qs: seq<RecipeId>, params: RecipeFilterParams, x: RecipeId)
    requires FilterRecipes(db, caller, qs, params).Ok?
    ensures x in FilterRecipes(db, caller, qs, params).value <==>
      && x in qs
      && (params.tags != [] ==> HasSlug(db.recipeTags, db.tags, x, params.tags))
      && (params.author.Some? ==> x in db.recipes && db.recipes[x].author == params.author.value)
      && (params.isFavorited && caller.Authenticated? ==> IsFavorited(db, caller, x))
      && (params.isInShoppingCart && caller.Authenticated? ==> IsInShoppingCart(db, caller, x))
  {
    var r1 := FilterTags(db, qs, params.tags).value;
    var r2 := FilterAuthor(db, r1, params.author).value;
    var r3 := FilterFavorited(db, caller, r2, params.isFavorited);
    assert FilterAuthor(db, r1, params.author).Ok?;
  }
}
