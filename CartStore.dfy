/**
 * The cart as the three pages share it: a list of `{id, name, image}`
 * items kept in device storage under the key `cartItems`.
 */
module CartStore {
  import opened JsValues

  datatype Item = Item(id: Id, name: string, image: string)

  /** The ids of the items, in cart order. */
  function Ids(items: seq<Item>): (ids: seq<Id>)
    ensures |ids| == |items| && forall k :: 0 <= k < |items| ==> ids[k] == items[k].id
  {
    seq(|items|, k requires 0 <= k < |items| => items[k].id)
  }

  /**
   * `items.some(item => item.id === id)`: the same as
   * `items.map(item => item.id).includes(id)`.
   */
  predicate HasId(items: seq<Item>, id: Id): (b: bool)
    ensures b <==> id in Ids(items)
  {
    exists k :: 0 <= k < |items| && items[k].id == id
  }

  /** No two items share an id. */
  predicate DistinctIds(items: seq<Item>) {
    forall j, k :: 0 <= j < k < |items| ==> items[j].id != items[k].id
  }

  /** The tail of a cart with distinct ids has distinct ids. */
  lemma DistinctTail(items: seq<Item>)
    requires items != [] && DistinctIds(items)
    ensures DistinctIds(items[1..])
  {
    var tail := items[1..];
    forall j, k | 0 <= j < k < |tail| ensures tail[j].id != tail[k].id {
      assert tail[j] == items[j + 1] && tail[k] == items[k + 1];
    }
  }

  /** In a cart with distinct ids the first item's id does not recur. */
  lemma HeadIdNotInTail(items: seq<Item>)
    requires items != [] && DistinctIds(items)
    ensures !HasId(items[1..], items[0].id)
  {
    var tail := items[1..];
    forall k | 0 <= k < |tail| ensures tail[k].id != items[0].id {
      assert tail[k] == items[k + 1];
    }
  }

  /** Putting an item with a new id in front of a cart with distinct ids keeps them distinct. */
  lemma ConsKeepsIdsDistinct(item: Item, items: seq<Item>)
    requires DistinctIds(items) && !HasId(items, item.id)
    ensures DistinctIds([item] + items)
  {
    var r := [item] + items;
    forall j, k | 0 <= j < k < |r| ensures r[j].id != r[k].id {
      assert r[k] == items[k - 1];
      if j > 0 { assert r[j] == items[j - 1]; }
    }
  }

  /** The storage slot `cartItems`; None while nothing has been written. */
  class Storage {
    var cartItems: Option<seq<Item>>

    constructor (initial: Option<seq<Item>>)
      ensures cartItems == initial
    {
      cartItems := initial;
    }
  }

  /** `Taro.getStorageSync('cartItems') || []`: a missing cart reads as the empty list. */
  function LoadCart(stored: Option<seq<Item>>): (items: seq<Item>)
    ensures stored.None? ==> items == []
    ensures stored.Some? ==> items == stored.value
  {
    stored.GetOr([])
  }

  /** `cartItems.push(dish)`: one more item at the end, the rest untouched. */
  function Append(items: seq<Item>, item: Item): (r: seq<Item>)
    ensures |r| == |items| + 1 && r[..|items|] == items && r[|items|] == item
  {
    items + [item]
  }
}
