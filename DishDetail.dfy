/**
 * The dish-detail page: the dish comes from the route parameters or from
 * the opener's `acceptDishInfo` event, with a missing name or image
 * defaulted to `''`; "add to cart" pushes the dish onto the stored cart
 * without looking for an item with the same id.
 */
module DishDetail {
  import opened JsValues
  import opened CartStore
  import MenuPage

  /** `router.params`: every parameter is an optional string. */
  datatype RouteParams = RouteParams(id: Option<string>, name: Option<string>, image: Option<string>)

  /** The `acceptDishInfo` payload. */
  datatype DishInfo = DishInfo(id: Option<Id>, name: Option<string>, image: Option<string>)

  /** The dish built from the route: only when the `id` parameter is present and non-empty. */
  function DishFromParams(params: RouteParams): (dish: Option<Item>)
    ensures dish.Some? <==> params.id.Some? && params.id.value != []
    ensures dish.Some? ==> dish.value == Item(StrId(params.id.value), OrEmpty(params.name), OrEmpty(params.image))
  {
    if params.id.Some? && params.id.value != [] then
      Some(Item(StrId(params.id.value), OrEmpty(params.name), OrEmpty(params.image)))
    else None
  }

  /**
   * The dish after an `acceptDishInfo` event: replaced when the payload is
   * there and its id is truthy (so not `''` and not `0`), kept otherwise.
   */
  function AcceptDishInfo(current: Option<Item>, data: Option<DishInfo>): (dish: Option<Item>)
    ensures data.None? || data.value.id.None? || !Truthy(data.value.id.value) ==> dish == current
    ensures data.Some? && data.value.id.Some? && Truthy(data.value.id.value) ==>
      dish == Some(Item(data.value.id.value, OrEmpty(data.value.name), OrEmpty(data.value.image)))
  {
    if data.Some? && data.value.id.Some? && Truthy(data.value.id.value) then
      Some(Item(data.value.id.value, OrEmpty(data.value.name), OrEmpty(data.value.image)))
    else current
  }

  /** A payload whose id is the number 0 is ignored, as JavaScript finds 0 falsy. */
  lemma ZeroIdIsIgnored(current: Option<Item>, name: Option<string>, image: Option<string>)
    ensures AcceptDishInfo(current, Some(DishInfo(Some(NumId(0)), name, image))) == current
  {
  }

  /**
   * A dish loaded from the route has a string id, so it never matches a
   * catalogue dish's number id (`'1'` is not `1`): after adding it, the
   * menu page still adds its own copy of the same dish.
   */
  lemma RouteDishDoesNotBlockMenuAdd(params: RouteParams, cart: seq<Item>, n: int)
    requires DishFromParams(params).Some?
    requires 1 <= n <= 8 && !HasId(cart, NumId(n))
    ensures MenuPage.AddFromMenu(MenuPage.MOCK_DISHES, Append(cart, DishFromParams(params).value), NumId(n)).Added?
  {
    MenuPage.MockDishesWellFormed();
    var r := Append(cart, DishFromParams(params).value);
    forall k | 0 <= k < |r| ensures r[k].id != NumId(n) {
      if k < |cart| { assert r[k] == cart[k]; }
    }
  }

  /**
   * Unlike the menu page, the detail page's add creates a duplicate id
   * when the dish is already in the cart; the menu page refuses that add.
   */
  lemma DetailAddDuplicatesWhereMenuAddRefuses(catalogue: seq<Item>, cart: seq<Item>, dish: Item)
    requires HasId(cart, dish.id)
    ensures !DistinctIds(Append(cart, dish))
    ensures HasId(catalogue, dish.id) ==> MenuPage.AddFromMenu(catalogue, cart, dish.id) == MenuPage.AlreadyInCart
  {
    var k :| 0 <= k < |cart| && cart[k].id == dish.id;
    var r := Append(cart, dish);
    assert r[k] == cart[k] && r[|cart|] == dish;
  }

  /** On a dish not yet in the cart, both add paths give the same cart. */
  lemma AddPathsAgreeOnNewDish(catalogue: seq<Item>, cart: seq<Item>, dish: Item)
    requires MenuPage.FindDish(catalogue, dish.id) == Some(dish)
    requires !HasId(cart, dish.id)
    ensures MenuPage.AddFromMenu(catalogue, cart, dish.id) == MenuPage.Added(Append(cart, dish))
  {
  }

  /** The page's React state: the dish shown, none until one is loaded. */
  class DishPage {
    var dish: Option<Item>

    constructor ()
      ensures dish == None
    {
      dish := None;
    }

    /** The route-parameter half of the page's effect. */
    method LoadRoute(params: RouteParams)
      modifies this
      ensures dish == if DishFromParams(params).Some? then DishFromParams(params) else old(dish)
    {
      var fromRoute := DishFromParams(params);
      if fromRoute.Some? {
        dish := fromRoute;
      }
    }

    /** The `acceptDishInfo` event handler. */
    method OnAcceptDishInfo(data: Option<DishInfo>)
      modifies this
      ensures dish == AcceptDishInfo(old(dish), data)
    {
      dish := AcceptDishInfo(dish, data);
    }

    /**
     * `handleAddToCart`: nothing without a dish; otherwise the stored cart
     * (empty when missing) gets the dish pushed on and is written back.
     */
    method HandleAddToCart(store: Storage) returns (added: bool)
      modifies store
      ensures added <==> dish.Some?
      ensures dish.None? ==> store.cartItems == old(store.cartItems)
      ensures dish.Some? ==> store.cartItems == Some(Append(LoadCart(old(store.cartItems)), dish.value))
    {
      if dish.None? {
        return false;
      }
      var cartItems := LoadCart(store.cartItems);
      cartItems := cartItems + [dish.value];
      store.cartItems := Some(cartItems);
      return true;
    }
  }
}
