/**
 * The menu (index) page's add button: the dish is looked up in the
 * page's catalogue and appended to the stored cart only when no cart
 * item has its id yet.
 */
module MenuPage {
  import opened JsValues
  import opened CartStore

  /** The page's built-in catalogue: eight dishes 辣椒炒肉 with no image and the number ids 1 to 8. */
  const MOCK_DISHES: seq<Item> := seq(8, k => Item(NumId(k + 1), "辣椒炒肉", ""))

  /** `catalogue.find(dish => dish.id === id)`: found exactly when some dish has the id. */
  function FindDish(catalogue: seq<Item>, id: Id): (r: Option<Item>)
    ensures r.None? <==> !HasId(catalogue, id)
    ensures r.Some? ==> r.value in catalogue && r.value.id == id
  {
    if catalogue == [] then None
    else if catalogue[0].id == id then Some(catalogue[0])
    else
      var rest := FindDish(catalogue[1..], id);
      assert HasId(catalogue, id) ==> HasId(catalogue[1..], id) by {
        if HasId(catalogue, id) {
          var k :| 0 <= k < |catalogue| && catalogue[k].id == id;
          assert catalogue[1..][k - 1].id == id;
        }
      }
      rest
  }

  /** `find` returns the first dish with the id. */
  lemma {:induction false} FindDishIsFirst(catalogue: seq<Item>, id: Id, k: nat)
    requires k < |catalogue| && catalogue[k].id == id
    requires forall j :: 0 <= j < k ==> catalogue[j].id != id
    ensures FindDish(catalogue, id) == Some(catalogue[k])
  {
    if k > 0 {
      FindDishIsFirst(catalogue[1..], id, k - 1);
    }
  }

  /** The catalogue's ids are distinct, and it holds ids 1 to 8 only. */
  lemma MockDishesWellFormed()
    ensures DistinctIds(MOCK_DISHES)
    ensures forall n :: HasId(MOCK_DISHES, NumId(n)) <==> 1 <= n <= 8
  {
    forall n | 1 <= n <= 8 ensures HasId(MOCK_DISHES, NumId(n)) {
      assert MOCK_DISHES[n - 1].id == NumId(n);
    }
    forall n | HasId(MOCK_DISHES, NumId(n)) ensures 1 <= n <= 8 {
      var k :| 0 <= k < 8 && MOCK_DISHES[k].id == NumId(n);
    }
  }

  /** What `handleAddDish` did: no such dish, already in the cart (toast), or the new cart. */
  datatype MenuAdd = NotInCatalogue | AlreadyInCart | Added(cart: seq<Item>)

  /** `handleAddDish(dishId)` on the current cart. */
  function AddFromMenu(catalogue: seq<Item>, cart: seq<Item>, dishId: Id): (r: MenuAdd)
    ensures r == NotInCatalogue <==> !HasId(catalogue, dishId)
    ensures r == AlreadyInCart <==> HasId(catalogue, dishId) && HasId(cart, dishId)
    ensures r.Added? <==> HasId(catalogue, dishId) && !HasId(cart, dishId)
    ensures r.Added? ==> FindDish(catalogue, dishId).Some? && r.cart == Append(cart, FindDish(catalogue, dishId).value)
  {
    match FindDish(catalogue, dishId)
    case None => NotInCatalogue
    case Some(dish) => if HasId(cart, dishId) then AlreadyInCart else Added(Append(cart, dish))
  }

  /** The menu path never creates a second item with the same id. */
  lemma AddFromMenuKeepsIdsDistinct(catalogue: seq<Item>, cart: seq<Item>, dishId: Id)
    requires DistinctIds(cart)
    ensures AddFromMenu(catalogue, cart, dishId).Added? ==> DistinctIds(AddFromMenu(catalogue, cart, dishId).cart)
  {
    var r := AddFromMenu(catalogue, cart, dishId);
    if r.Added? {
      var c := r.cart;
      forall j, k | 0 <= j < k < |c| ensures c[j].id != c[k].id {
        if k == |cart| {
          assert c[j] == cart[j];
          assert c[k].id == dishId;
        } else {
          assert c[j] == cart[j] && c[k] == cart[k];
        }
      }
    }
  }

  /** The page's handler: read the cart, decide, and write the cart back only when it grew. */
  method HandleAddDish(store: Storage, dishId: Id) returns (r: MenuAdd)
    modifies store
    ensures r == AddFromMenu(MOCK_DISHES, LoadCart(old(store.cartItems)), dishId)
    ensures store.cartItems == if r.Added? then Some(r.cart) else old(store.cartItems)
  {
    var cartItems := LoadCart(store.cartItems);
    r := AddFromMenu(MOCK_DISHES, cartItems, dishId);
    if r.Added? {
      store.cartItems := Some(r.cart);
    }
  }
}
