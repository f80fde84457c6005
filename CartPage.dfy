/**
 * The cart page: it shows the stored cart, removes every item with a
 * given id (writing the new list to both its state and storage), and
 * titles itself with the menu's name.
 */
module CartPage {
  import opened JsValues
  import opened CartStore

  const DEFAULT_TITLE := "菜篮子"

  /** `items.filter(item => item.id !== id)` */
  function RemoveById(items: seq<Item>, id: Id): (r: seq<Item>)
    ensures |r| <= |items|
    ensures forall k :: 0 <= k < |r| ==> r[k].id != id
  {
    if items == [] then []
    else (if items[0].id == id then [] else [items[0]]) + RemoveById(items[1..], id)
  }

  /** Removal distributes over concatenation: survivors keep their relative order. */
  lemma {:induction false} RemoveConcat(a: seq<Item>, b: seq<Item>, id: Id)
    ensures RemoveById(a + b, id) == RemoveById(a, id) + RemoveById(b, id)
  {
    if a == [] {
      assert a + b == b;
    } else {
      var ab := a + b;
      assert ab[0] == a[0] && ab[1..] == a[1..] + b;
      var head := if a[0].id == id then [] else [a[0]];
      calc {
        RemoveById(ab, id);
        head + RemoveById(a[1..] + b, id);
        { RemoveConcat(a[1..], b, id); }
        head + (RemoveById(a[1..], id) + RemoveById(b, id));
        (head + RemoveById(a[1..], id)) + RemoveById(b, id);
        RemoveById(a, id) + RemoveById(b, id);
      }
    }
  }

  /** Every item with another id is kept as often as it occurred; none with the id is. */
  lemma {:induction false} RemoveCounts(items: seq<Item>, id: Id, x: Item)
    ensures multiset(RemoveById(items, id))[x] == if x.id == id then 0 else multiset(items)[x]
  {
    if items != [] {
      RemoveCounts(items[1..], id, x);
      assert items == [items[0]] + items[1..];
      assert multiset(items) == multiset([items[0]]) + multiset(items[1..]);
    }
  }

  /** An item remains exactly when it was in the cart with another id. */
  lemma RemoveMembership(items: seq<Item>, id: Id, x: Item)
    ensures x in RemoveById(items, id) <==> x in items && x.id != id
  {
    RemoveCounts(items, id, x);
  }

  /** Removing an id that no item has leaves the cart as it is. */
  lemma {:induction false} RemoveAbsent(items: seq<Item>, id: Id)
    requires !HasId(items, id)
    ensures RemoveById(items, id) == items
  {
    if items != [] {
      forall k | 0 <= k < |items[1..]| ensures items[1..][k].id != id {
        assert items[1..][k] == items[k + 1];
      }
      RemoveAbsent(items[1..], id);
      assert items == [items[0]] + items[1..];
    }
  }

  /** Removing twice is removing once. */
  lemma RemoveIdempotent(items: seq<Item>, id: Id)
    ensures RemoveById(RemoveById(items, id), id) == RemoveById(items, id)
  {
    RemoveAbsent(RemoveById(items, id), id);
  }

  /** Removal introduces no id: an id absent before is absent after. */
  lemma RemoveAddsNoId(items: seq<Item>, id: Id, other: Id)
    requires !HasId(items, other)
    ensures !HasId(RemoveById(items, id), other)
  {
    var r := RemoveById(items, id);
    forall k | 0 <= k < |r| ensures r[k].id != other {
      RemoveMembership(items, id, r[k]);
      var m :| 0 <= m < |items| && items[m] == r[k];
    }
  }

  /** A cart with distinct ids keeps them distinct after a removal. */
  lemma {:induction false} RemoveKeepsIdsDistinct(items: seq<Item>, id: Id)
    requires DistinctIds(items)
    ensures DistinctIds(RemoveById(items, id))
  {
    if items != [] {
      var tail := items[1..];
      DistinctTail(items);
      RemoveKeepsIdsDistinct(tail, id);
      if items[0].id != id {
        HeadIdNotInTail(items);
        RemoveAddsNoId(tail, id, items[0].id);
        ConsKeepsIdsDistinct(items[0], RemoveById(tail, id));
      }
    }
  }

  /** `info.menu.name || '菜篮子'`: the navigation-bar title. */
  function CartTitle(menuName: Option<string>): (title: string)
    ensures title != []
    ensures menuName.Some? && menuName.value != [] ==> title == menuName.value
    ensures menuName.None? || menuName.value == [] ==> title == DEFAULT_TITLE
  {
    if menuName.Some? && menuName.value != [] then menuName.value else DEFAULT_TITLE
  }

  /** The page's React state: the cart it displays. */
  class CartView {
    var cartItems: seq<Item>

    constructor ()
      ensures cartItems == []
    {
      cartItems := [];
    }

    /** `useLoad`: the displayed cart is the stored one, or empty when none is stored. */
    method Load(store: Storage)
      modifies this
      ensures cartItems == LoadCart(store.cartItems)
    {
      cartItems := LoadCart(store.cartItems);
    }

    /** `handleRemoveItem(id)`: the filtered list becomes both the displayed and the stored cart. */
    method HandleRemoveItem(store: Storage, id: Id)
      modifies this, store
      ensures cartItems == RemoveById(old(cartItems), id)
      ensures store.cartItems == Some(cartItems)
    {
      var newCartItems := RemoveById(cartItems, id);
      cartItems := newCartItems;
      store.cartItems := Some(newCartItems);
    }
  }
}
