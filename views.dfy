/** The view actions of api/views.py: adding to and removing from the
    favourites and the shopping cart, the subscriptions listing and
    unsubscribing, and rendering the shopping list. The caller of every
    action here is an authenticated user. */
module Views {
  import opened Util
  import opened Models
  import opened Serializers

  datatype Verb = Post | Delete

  /** The responses the actions produce. */
  datatype Response =
    | Created(body: RecipeShort)
    | NoContent
    | BadRequest
    | NotFound
    /** An exception the view does not handle. */
    | ServerError

  // ---------------------------------------------------------------------
  // Favourites and shopping cart
  // ---------------------------------------------------------------------

  /** `RecipeViewSet.favorite` */
  method Favorite(db: Store, user: UserId, id: int, verb: Verb) returns (resp: Response)
    requires db.Valid() && user in db.users
    modifies db`favorites
    ensures db.Valid()
    ensures db.carts == old(db.carts) && db.subscriptions == old(db.subscriptions)
    ensures id !in db.recipes ==> resp == NotFound && db.favorites == old(db.favorites)
    ensures id in db.recipes && verb == Post && (user, id) !in old(db.favorites) ==>
      resp == Created(Short(db, id)) && db.favorites == old(db.favorites) + {(user, id)}
    ensures id in db.recipes && verb == Post && (user, id) in old(db.favorites) ==>
      resp == BadRequest && db.favorites == old(db.favorites)
    ensures id in db.recipes && verb == Delete && (user, id) !in old(db.favorites) ==>
      resp == NotFound && db.favorites == old(db.favorites)
    ensures id in db.recipes && verb == Delete && (user, id) in old(db.favorites) ==>
      resp == NoContent && db.favorites == old(db.favorites) - {(user, id)}
  {
    if id !in db.recipes {
      return NotFound;
    }
    match verb
    case Post =>
      if (user, id) !in db.favorites {
        db.favorites := db.favorites + {(user, id)};
        return Created(Short(db, id));
      }
      return BadRequest;
    case Delete =>
      if (user, id) !in db.favorites {
        return NotFound;
      }
      db.favorites := db.favorites - {(user, id)};
      return NoContent;
  }

  /** `RecipeViewSet.shopping_cart` */
  method ShoppingCart(db: Store, user: UserId, id: int, verb: Verb) returns (resp: Response)
    requires db.Valid() && user in db.users
    modifies db`carts
    ensures db.Valid()
    ensures db.favorites == old(db.favorites) && db.subscriptions == old(db.subscriptions)
    ensures id !in db.recipes ==> resp == NotFound && db.carts == old(db.carts)
    ensures id in db.recipes && verb == Post && (user, id) !in old(db.carts) ==>
      resp == Created(Short(db, id)) && db.carts == old(db.carts) + {(user, id)}
    ensures id in db.recipes && verb == Post && (user, id) in old(db.carts) ==>
      resp == BadRequest && db.carts == old(db.carts)
    ensures id in db.recipes && verb == Delete && (user, id) !in old(db.carts) ==>
      resp == NotFound && db.carts == old(db.carts)
    ensures id in db.recipes && verb == Delete && (user, id) in old(db.carts) ==>
      resp == NoContent && db.carts == old(db.carts) - {(user, id)}
  {
    if id !in db.recipes {
      return NotFound;
    }
    match verb
    case Post =>
      if (user, id) !in db.carts {
        db.carts := db.carts + {(user, id)};
        return Created(Short(db, id));
      }
      return BadRequest;
    case Delete =>
      if (user, id) !in db.carts {
        return NotFound;
      }
      db.carts := db.carts - {(user, id)};
      return NoContent;
  }

  // ---------------------------------------------------------------------
  // Subscriptions
  // ---------------------------------------------------------------------

  /** `User.objects.filter(subscribing__user=user)`: the authors the user
      follows, in id order. */
  function Subscriptions(db: Store, user: UserId): (r: seq<UserId>)
    reads db
    ensures Increasing(r)
    ensures forall a :: a in r <==> a in db.users && (user, a) in db.subscriptions
  {
    var all := db.UserIds();
    var subscriptions := db.subscriptions;
    var r := Filter(all, (a: UserId) => (user, a) in subscriptions);
    SubsequenceIncreasing(r, all);
    r
  }

  /** The serialized authors of a page of the subscriptions listing. */
  function SubscriptionReprs(db: Store, caller: Caller, authors: seq<UserId>, limit: Option<int>)
    : (r: Option<seq<SubscriptionRepr>>)
    reads db
    requires forall a :: a in authors ==> a in db.users
    ensures r.None? <==> authors != [] && limit.Some? && limit.value < 0
    ensures r.Some? ==> |r.value| == |authors| && forall i :: 0 <= i < |authors| ==>
      && r.value[i].user.id == authors[i]
      && r.value[i].user.isSubscribed == IsSubscribed(db, caller, authors[i])
      && r.value[i].recipesCount == |RecipesBy(db.recipes, authors[i])|
      && (var a := authors[i]; assert a in authors; r.value[i] == SubscriptionOf(db, caller, a, limit).value)
  {
    if authors != [] && limit.Some? && limit.value < 0 then None
    else
      assert forall i :: 0 <= i < |authors| ==> authors[i] in db.users by {
        forall i | 0 <= i < |authors| ensures authors[i] in db.users {
          var a := authors[i];
          assert a in authors;
        }
      }
      Some(seq(|authors|, i requires 0 <= i < |authors| && authors[i] in db.users && (limit.Some? ==> limit.value >= 0) reads db =>
        SubscriptionOf(db, caller, authors[i], limit).value))
  }

  /** `UserViewSet.subscriptions`: each author the user follows, serialized
      with the request's `recipes_limit`. */
  function SubscriptionsListing(db: Store, user: UserId, limit: Option<int>): (r: Option<seq<SubscriptionRepr>>)
    reads db
    ensures r.None? <==> Subscriptions(db, user) != [] && limit.Some? && limit.value < 0
    ensures r.Some? ==> |r.value| == |Subscriptions(db, user)|
    ensures r.Some? ==> forall i :: 0 <= i < |r.value| ==> r.value[i].user.id == Subscriptions(db, user)[i]
    ensures r.Some? ==> forall i :: 0 <= i < |r.value| ==>
      (var a := Subscriptions(db, user)[i];
         assert a in Subscriptions(db, user);
         r.value[i] == SubscriptionOf(db, Authenticated(user), a, limit).value)
  {
    SubscriptionReprs(db, Authenticated(user), Subscriptions(db, user), limit)
  }

  /** Every author in a user's subscriptions listing is shown to that user
      with `is_subscribed` set. */
  lemma ListedAuthorsAreSubscribed(db: Store, user: UserId, limit: Option<int>)
    requires SubscriptionsListing(db, user, limit).Some?
    ensures forall e :: e in SubscriptionsListing(db, user, limit).value ==> e.user.isSubscribed
  {
    var authors := Subscriptions(db, user);
    var listing := SubscriptionsListing(db, user, limit).value;
    forall e | e in listing ensures e.user.isSubscribed {
      var i :| 0 <= i < |listing| && listing[i] == e;
      assert authors[i] in authors;
    }
  }

  /** `UserViewSet.subscribe` as written: once the author exists, the view
      reads `request.metod`, an attribute a request does not have, so every
      verb ends in an unhandled exception. */
  function SubscribeAsWritten(db: Store, user: UserId, author: int, verb: Verb): (resp: Response)
    reads db
    ensures author !in db.users ==> resp == NotFound
    ensures author in db.users ==> resp == ServerError
  {
    if author !in db.users then NotFound else ServerError
  }

  /** Unsubscribing can never succeed as written. */
  lemma UnsubscribeUnreachable(db: Store, user: UserId, author: int)
    ensures SubscribeAsWritten(db, user, author, Delete) != NoContent
  {
  }

  /** The DELETE branch of `UserViewSet.subscribe`, as evidently intended:
      not-found when the author or the subscription is missing, otherwise
      exactly that subscription is deleted. */
  method Unsubscribe(db: Store, user: UserId, author: int) returns (resp: Response)
    requires db.Valid() && user in db.users
    modifies db`subscriptions
    ensures db.Valid()
    ensures author !in db.users ==> resp == NotFound && db.subscriptions == old(db.subscriptions)
    ensures author in db.users && (user, author) !in old(db.subscriptions) ==>
      resp == NotFound && db.subscriptions == old(db.subscriptions)
    ensures author in db.users && (user, author) in old(db.subscriptions) ==>
      resp == NoContent && db.subscriptions == old(db.subscriptions) - {(user, author)}
  {
    if author !in db.users {
      return NotFound;
    }
    if (user, author) !in db.subscriptions {
      return NotFound;
    }
    db.subscriptions := db.subscriptions - {(user, author)};
    return NoContent;
  }

  /** After unsubscribing, the author is no longer listed. */
  lemma UnsubscribedAuthorNotListed(db: Store, user: UserId, author: UserId)
    requires (user, author) !in db.subscriptions
    ensures author !in Subscriptions(db, user)
  {
  }

  // ---------------------------------------------------------------------
  // Shopping list
  // ---------------------------------------------------------------------

  /** The ingredient rows of the recipes in the user's cart, in table order. */
  function CartRows(db: Store, user: UserId): (r: seq<RecipeIngredient>)
    reads db
    ensures forall x :: x in r <==> x in db.recipeIngredients && (user, x.recipe) in db.carts
    ensures IsSubsequence(r, db.recipeIngredients)
    ensures r == [] <==> forall x :: x in db.recipeIngredients ==> (user, x.recipe) !in db.carts
  {
    var carts := db.carts;
    var inCart := (x: RecipeIngredient) => (user, x.recipe) in carts;
    FilterEmpty(db.recipeIngredients, inCart);
    Filter(db.recipeIngredients, inCart)
  }

  /** One entry of `values_list('ingredient__name', 'total_amount',
      'ingredient__measurement_unit')`. */
  datatype ShoppingRow = ShoppingRow(name: string, total: nat, unit: string)

  function RowName(r: ShoppingRow): string { r.name }

  /** An ingredient row with its ingredient joined in; the annotation sums
      over the row itself, so its total is its amount. */
  function Project(db: Store, rows: seq<RecipeIngredient>): (r: seq<ShoppingRow>)
    reads db
    requires forall x :: x in rows ==> x.ingredient in db.ingredients
    ensures |r| == |rows|
    ensures forall i :: 0 <= i < |rows| ==>
      r[i] == ShoppingRow(db.ingredients[rows[i].ingredient].name, rows[i].amount,
                          db.ingredients[rows[i].ingredient].measurementUnit)
    decreases |rows|
  {
    if rows == [] then []
    else
      var ing := db.ingredients[rows[0].ingredient];
      [ShoppingRow(ing.name, rows[0].amount, ing.measurementUnit)] + Project(db, rows[1..])
  }

  /** The query of `download_shopping_cart`, ordered by ingredient name. */
  function ShoppingRows(db: Store, user: UserId): (r: seq<ShoppingRow>)
    reads db
    requires RowsReference(db.recipeIngredients, db.recipes.Keys, db.ingredients.Keys)
    ensures SortedBy(r, RowName)
    ensures multiset(r) == multiset(Project(db, CartRows(db, user)))
  {
    var rows := CartRows(db, user);
    assert forall x :: x in rows ==> x.ingredient in db.ingredients;
    SortBy(Project(db, rows), RowName)
  }

  const HEADER: string := "C" + "писок покупок:"

  /** `'{} - {} {}.'.format(name, total, unit)` */
  function FormatLine(r: ShoppingRow): string {
    r.name + " - " + NatToDecimal(r.total) + " " + r.unit + "."
  }

  function Lines(rows: seq<ShoppingRow>): (lines: seq<string>)
    ensures |lines| == |rows|
    ensures forall i :: 0 <= i < |rows| ==> lines[i] == FormatLine(rows[i])
    decreases |rows|
  {
    if rows == [] then [] else [FormatLine(rows[0])] + Lines(rows[1..])
  }

  /** The body of the response: the header, a newline, then the lines
      joined by newlines. */
  function ShoppingDocument(rows: seq<ShoppingRow>): string {
    HEADER + "\n" + Join(Lines(rows), "\n")
  }

  /** `download_shopping_cart`: the lines are appended one by one to
      `shopping_list` and then joined under the header. */
  method DownloadShoppingCart(db: Store, user: UserId) returns (text: string)
    requires db.Valid() && user in db.users
    ensures text == ShoppingDocument(ShoppingRows(db, user))
  {
    var rows := ShoppingRows(db, user);
    text := RenderShoppingList(rows);
  }

  /** The loop of `download_shopping_cart` over the query's rows. */
  method RenderShoppingList(rows: seq<ShoppingRow>) returns (text: string)
    ensures text == ShoppingDocument(rows)
  {
    var shoppingList: seq<string> := [];
    var i := 0;
    while i < |rows|
      invariant 0 <= i <= |rows|
      invariant shoppingList == Lines(rows[..i])
    {
      assert rows[..i + 1] == rows[..i] + [rows[i]];
      LinesAppend(rows[..i], rows[i]);
      shoppingList := shoppingList + [FormatLine(rows[i])];
      i := i + 1;
    }
    assert rows[..i] == rows;
    text := HEADER + "\n" + Join(shoppingList, "\n");
  }

  lemma LinesAppend(rows: seq<ShoppingRow>, r: ShoppingRow)
    ensures Lines(rows + [r]) == Lines(rows) + [FormatLine(r)]
  {
  }

  // Properties of the shopping list

  /** The line of a row starts with the ingredient's name and ` - `, and the
      digits after it read back as the row's total: the number is neither
      lost nor altered by the formatting. */
  lemma FormatLineRoundTrip(r: ShoppingRow)
    ensures var line := FormatLine(r); var digits := NatToDecimal(r.total);
      && |line| == |r.name| + 3 + |digits| + 1 + |r.unit| + 1
      && line[..|r.name|] == r.name
      && line[|r.name|..|r.name| + 3] == " - "
      && DecimalValue(line[|r.name| + 3..|r.name| + 3 + |digits|]) == r.total
      && line[|r.name| + 3 + |digits|..|r.name| + 4 + |digits|] == " "
      && line[|r.name| + 4 + |digits|..|line| - 1] == r.unit
      && line[|line| - 1] == '.'
  {
    var line := FormatLine(r);
    var digits := NatToDecimal(r.total);
    assert line == r.name + " - " + digits + " " + r.unit + ".";
    assert line[|r.name| + 3..|r.name| + 3 + |digits|] == digits;
    DecimalRoundTrip(r.total);
  }

  function TotalOf(rows: seq<ShoppingRow>): nat
    decreases |rows|
  {
    if rows == [] then 0 else rows[0].total + TotalOf(rows[1..])
  }

  function AmountOf(rows: seq<RecipeIngredient>): nat
    decreases |rows|
  {
    if rows == [] then 0 else rows[0].amount + AmountOf(rows[1..])
  }

  lemma {:induction false} TotalOfInsert(x: ShoppingRow, s: seq<ShoppingRow>)
    ensures TotalOf(InsertBy(x, s, RowName)) == x.total + TotalOf(s)
    decreases |s|
  {
    if s != [] && !LexLe(RowName(x), RowName(s[0])) {
      TotalOfInsert(x, s[1..]);
    }
  }

  lemma {:induction false} TotalOfSort(s: seq<ShoppingRow>)
    ensures TotalOf(SortBy(s, RowName)) == TotalOf(s)
    decreases |s|
  {
    if s != [] {
      TotalOfSort(s[1..]);
      TotalOfInsert(s[0], SortBy(s[1..], RowName));
    }
  }

  lemma {:induction false} TotalOfProject(db: Store, rows: seq<RecipeIngredient>)
    requires forall x :: x in rows ==> x.ingredient in db.ingredients
    ensures TotalOf(Project(db, rows)) == AmountOf(rows)
    decreases |rows|
  {
    if rows != [] {
      assert forall x :: x in rows[1..] ==> x in rows;
      TotalOfProject(db, rows[1..]);
      assert Project(db, rows)[1..] == Project(db, rows[1..]);
    }
  }

  /** The totals on the shopping list add up to the amounts of the
      ingredient rows of the recipes in the cart. */
  lemma ShoppingTotalConserved(db: Store, user: UserId)
    requires RowsReference(db.recipeIngredients, db.recipes.Keys, db.ingredients.Keys)
    ensures TotalOf(ShoppingRows(db, user)) == AmountOf(CartRows(db, user))
  {
    var rows := CartRows(db, user);
    assert forall x :: x in rows ==> x.ingredient in db.ingredients;
    TotalOfSort(Project(db, rows));
    TotalOfProject(db, rows);
  }

  /** Only rows of recipes in the cart appear, each as many times as it is
      in the table, with its ingredient's name and unit and its amount. */
  lemma ShoppingRowsSelected(db: Store, user: UserId, r: ShoppingRow)
    requires RowsReference(db.recipeIngredients, db.recipes.Keys, db.ingredients.Keys)
    ensures r in ShoppingRows(db, user) <==>
      exists x :: x in db.recipeIngredients && (user, x.recipe) in db.carts &&
        r == ShoppingRow(db.ingredients[x.ingredient].name, x.amount, db.ingredients[x.ingredient].measurementUnit)
  {
    var rows := CartRows(db, user);
    assert forall x :: x in rows ==> x.ingredient in db.ingredients;
    var projected := Project(db, rows);
    assert r in ShoppingRows(db, user) <==> r in projected by {
      assert r in ShoppingRows(db, user) <==> r in multiset(ShoppingRows(db, user));
    }
    if r in projected {
      var i :| 0 <= i < |projected| && projected[i] == r;
      assert rows[i] in rows;
    }
    if exists x :: x in db.recipeIngredients && (user, x.recipe) in db.carts &&
        r == ShoppingRow(db.ingredients[x.ingredient].name, x.amount, db.ingredients[x.ingredient].measurementUnit) {
      var x :| x in db.recipeIngredients && (user, x.recipe) in db.carts &&
        r == ShoppingRow(db.ingredients[x.ingredient].name, x.amount, db.ingredients[x.ingredient].measurementUnit);
      assert x in rows;
      var i :| 0 <= i < |rows| && rows[i] == x;
      assert projected[i] == r;
    }
  }

  /** The lines come out in order of ingredient name. */
  lemma ShoppingListOrdered(db: Store, user: UserId, i: int, j: int)
    requires RowsReference(db.recipeIngredients, db.recipes.Keys, db.ingredients.Keys)
    requires 0 <= i <= j < |ShoppingRows(db, user)|
    ensures LexLe(ShoppingRows(db, user)[i].name, ShoppingRows(db, user)[j].name)
  {
    SortedByPairwise(ShoppingRows(db, user), RowName, i, j);
  }

  /** A cart whose recipes have no ingredient rows gives the header line
      alone. */
  lemma EmptyCartHeaderOnly(db: Store, user: UserId)
    requires RowsReference(db.recipeIngredients, db.recipes.Keys, db.ingredients.Keys)
    requires forall x :: x in db.recipeIngredients ==> (user, x.recipe) !in db.carts
    ensures ShoppingDocument(ShoppingRows(db, user)) == HEADER + "\n"
  {
    assert Lines([]) == [];
  }
}
