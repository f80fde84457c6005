/**
 * The category-management page: a list of categories that the user
 * reorders (move up, move down), shrinks (delete; the category named
 * 其他 cannot be deleted) and extends (add a new, trimmed, unique name).
 */
module CategoryManage {
  import opened JsValues

  datatype Category = Category(id: Id, name: string)

  /** The protected catch-all category. */
  const OTHER := "其他"

  /** Why an edit was refused; each is shown as a toast. */
  datatype Refusal =
    | OtherUndeletable   // "其他"类别不可删除
    | NameEmpty          // 类别名称不能为空
    | NameExists         // 该类别已存在

  /** The outcome of a delete or an add: the new list, or a refusal with the list unchanged. */
  datatype Edit = Changed(categories: seq<Category>) | Refused(reason: Refusal)

  /** The names of the categories, in list order. */
  function Names(cs: seq<Category>): (names: seq<string>)
    ensures |names| == |cs| && forall k :: 0 <= k < |cs| ==> names[k] == cs[k].name
  {
    seq(|cs|, k requires 0 <= k < |cs| => cs[k].name)
  }

  /**
   * `categories.some(cat => cat.name === name)`: the same as
   * `categories.map(cat => cat.name).includes(name)`.
   */
  predicate HasName(cs: seq<Category>, name: string): (b: bool)
    ensures b <==> name in Names(cs)
  {
    exists k :: 0 <= k < |cs| && cs[k].name == name
  }

  /** No two categories share a name. */
  predicate UniqueNames(cs: seq<Category>) {
    forall j, k :: 0 <= j < k < |cs| ==> cs[j].name != cs[k].name
  }

  /** The list used when the opener passes no categories. */
  const DEFAULT_CATEGORIES: seq<Category> := [
    Category(StrId("1"), "炒菜"),
    Category(StrId("2"), "汤"),
    Category(StrId("3"), "主食"),
    Category(StrId("4"), "面食"),
    Category(StrId("5"), "火锅"),
    Category(StrId("6"), "粥"),
    Category(StrId("7"), "凉菜"),
    Category(StrId("8"), OTHER)
  ]

  /** The default list has eight distinct names and contains 其他 (last). */
  lemma DefaultCategoriesWellFormed()
    ensures |DEFAULT_CATEGORIES| == 8
    ensures UniqueNames(DEFAULT_CATEGORIES)
    ensures HasName(DEFAULT_CATEGORIES, OTHER) && DEFAULT_CATEGORIES[7].name == OTHER
  {
    assert DEFAULT_CATEGORIES[7].name == OTHER;
  }

  /**
   * The list the page adopts from the opener's `acceptCategories` event:
   * the received list when there is one and it is non-empty, the default
   * list otherwise.
   */
  function AcceptedCategories(received: Option<seq<Category>>): (cs: seq<Category>)
    ensures cs != []
    ensures received.Some? && received.value != [] ==> cs == received.value
    ensures received.None? || received.value == [] ==> cs == DEFAULT_CATEGORIES && HasName(cs, OTHER)
  {
    if received.Some? && |received.value| > 0 then received.value
    else
      DefaultCategoriesWellFormed();
      DEFAULT_CATEGORIES
  }

  /** Exchanges the entries at two positions. */
  function Swap(cs: seq<Category>, i: nat, j: nat): (r: seq<Category>)
    requires i < |cs| && j < |cs|
    ensures |r| == |cs| && r[i] == cs[j] && r[j] == cs[i]
    ensures forall k :: 0 <= k < |cs| && k != i && k != j ==> r[k] == cs[k]
  {
    cs[i := cs[j]][j := cs[i]]
  }

  /** An exchange of two entries is a permutation. */
  lemma SwapIsPermutation(cs: seq<Category>, i: nat, j: nat)
    requires i < |cs| && j < |cs|
    ensures multiset(Swap(cs, i, j)) == multiset(cs)
  {
  }

  /**
   * `handleMoveUp(index)`: nothing at the top; otherwise the entry and the
   * one above it change places, every other position is kept, and the
   * result is a permutation of the list.
   */
  function MovedUp(cs: seq<Category>, index: nat): (r: seq<Category>)
    requires index < |cs|
    ensures |r| == |cs| && multiset(r) == multiset(cs)
    ensures index == 0 ==> r == cs
    ensures 0 < index ==>
      && r[index - 1] == cs[index]
      && r[index] == cs[index - 1]
      && forall k :: 0 <= k < |cs| && k != index - 1 && k != index ==> r[k] == cs[k]
  {
    if index == 0 then cs
    else
      SwapIsPermutation(cs, index - 1, index);
      Swap(cs, index - 1, index)
  }

  /**
   * `handleMoveDown(index)`: nothing at the bottom; otherwise the entry and
   * the one below it change places, every other position is kept, and the
   * result is a permutation of the list.
   */
  function MovedDown(cs: seq<Category>, index: nat): (r: seq<Category>)
    requires index < |cs|
    ensures |r| == |cs| && multiset(r) == multiset(cs)
    ensures index == |cs| - 1 ==> r == cs
    ensures index < |cs| - 1 ==>
      && r[index] == cs[index + 1]
      && r[index + 1] == cs[index]
      && forall k :: 0 <= k < |cs| && k != index && k != index + 1 ==> r[k] == cs[k]
  {
    if index == |cs| - 1 then cs
    else
      SwapIsPermutation(cs, index, index + 1);
      Swap(cs, index, index + 1)
  }

  /** Moving an entry up and then moving it back down restores the list. */
  lemma MoveDownUndoesMoveUp(cs: seq<Category>, index: nat)
    requires 0 < index < |cs|
    ensures MovedDown(MovedUp(cs, index), index - 1) == cs
  {
    assert MovedDown(MovedUp(cs, index), index - 1) == Swap(Swap(cs, index - 1, index), index - 1, index);
  }

  /** Moving an entry down and then moving it back up restores the list. */
  lemma MoveUpUndoesMoveDown(cs: seq<Category>, index: nat)
    requires index + 1 < |cs|
    ensures MovedUp(MovedDown(cs, index), index + 1) == cs
  {
    assert MovedUp(MovedDown(cs, index), index + 1) == Swap(Swap(cs, index, index + 1), index, index + 1);
  }

  /** An exchange keeps every name present and keeps names unique. */
  lemma SwapKeepsNames(cs: seq<Category>, i: nat, j: nat, name: string)
    requires i < |cs| && j < |cs|
    ensures HasName(Swap(cs, i, j), name) <==> HasName(cs, name)
    ensures UniqueNames(cs) ==> UniqueNames(Swap(cs, i, j))
  {
    var r := Swap(cs, i, j);
    if HasName(cs, name) {
      var k :| 0 <= k < |cs| && cs[k].name == name;
      var k' := if k == i then j else if k == j then i else k;
      assert r[k'].name == name;
    }
    if HasName(r, name) {
      var k :| 0 <= k < |r| && r[k].name == name;
      var k' := if k == i then j else if k == j then i else k;
      assert cs[k'].name == name;
    }
    if UniqueNames(cs) {
      forall a, b | 0 <= a < b < |r| ensures r[a].name != r[b].name {
        var a' := if a == i then j else if a == j then i else a;
        var b' := if b == i then j else if b == j then i else b;
        assert r[a] == cs[a'] && r[b] == cs[b'] && a' != b';
      }
    }
  }

  /** A move up keeps 其他 in the list and keeps names unique. */
  lemma MoveUpKeepsOtherAndUniqueness(cs: seq<Category>, index: nat)
    requires index < |cs|
    ensures HasName(cs, OTHER) ==> HasName(MovedUp(cs, index), OTHER)
    ensures UniqueNames(cs) ==> UniqueNames(MovedUp(cs, index))
  {
    if 0 < index {
      assert MovedUp(cs, index) == Swap(cs, index - 1, index);
      SwapKeepsNames(cs, index - 1, index, OTHER);
    }
  }

  /** A move down keeps 其他 in the list and keeps names unique. */
  lemma MoveDownKeepsOtherAndUniqueness(cs: seq<Category>, index: nat)
    requires index < |cs|
    ensures HasName(cs, OTHER) ==> HasName(MovedDown(cs, index), OTHER)
    ensures UniqueNames(cs) ==> UniqueNames(MovedDown(cs, index))
  {
    if index < |cs| - 1 {
      assert MovedDown(cs, index) == Swap(cs, index, index + 1);
      SwapKeepsNames(cs, index, index + 1, OTHER);
    }
  }

  /**
   * `handleDelete(index)`: refused when the entry is named 其他,
   * otherwise the entry is spliced out and the rest keep their order.
   */
  function Delete(cs: seq<Category>, index: nat): (e: Edit)
    requires index < |cs|
    ensures e.Refused? <==> cs[index].name == OTHER
    ensures e.Refused? ==> e.reason == OtherUndeletable
    ensures e.Changed? ==>
      && |e.categories| == |cs| - 1
      && (forall k :: 0 <= k < index ==> e.categories[k] == cs[k])
      && (forall k :: index <= k < |e.categories| ==> e.categories[k] == cs[k + 1])
  {
    if cs[index].name == OTHER then Refused(OtherUndeletable)
    else Changed(cs[..index] + cs[index + 1..])
  }

  /** A successful delete removes exactly one occurrence of the deleted entry. */
  lemma DeleteRemovesOne(cs: seq<Category>, index: nat)
    requires index < |cs| && cs[index].name != OTHER
    ensures multiset(Delete(cs, index).categories) == multiset(cs) - multiset{cs[index]}
  {
    assert cs == cs[..index] + [cs[index]] + cs[index + 1..];
  }

  /** A delete keeps 其他 in the list and keeps names unique. */
  lemma DeleteKeepsOtherAndUniqueness(cs: seq<Category>, index: nat)
    requires index < |cs|
    ensures Delete(cs, index).Changed? && HasName(cs, OTHER) ==> HasName(Delete(cs, index).categories, OTHER)
    ensures Delete(cs, index).Changed? && UniqueNames(cs) ==> UniqueNames(Delete(cs, index).categories)
  {
    var e := Delete(cs, index);
    if e.Changed? {
      var r := e.categories;
      if HasName(cs, OTHER) {
        var k :| 0 <= k < |cs| && cs[k].name == OTHER;
        assert k != index;
        if k < index { assert r[k].name == OTHER; } else { assert r[k - 1].name == OTHER; }
      }
      if UniqueNames(cs) {
        forall a, b | 0 <= a < b < |r| ensures r[a].name != r[b].name {
          var a' := if a < index then a else a + 1;
          var b' := if b < index then b else b + 1;
          assert r[a] == cs[a'] && r[b] == cs[b'] && a' < b';
        }
      }
    }
  }

  /**
   * `handleAddCategory`: the input is trimmed; a blank name and a name
   * equal to an existing one are refused; otherwise a category with the
   * trimmed name and the fresh id is appended.
   */
  function AddCategory(cs: seq<Category>, input: string, newId: string): (e: Edit)
    ensures e == Refused(NameEmpty) <==> AllWhitespace(input)
    ensures e == Refused(NameExists) <==> !AllWhitespace(input) && HasName(cs, Trim(input))
    ensures e.Changed? <==> !AllWhitespace(input) && !HasName(cs, Trim(input))
    ensures e.Changed? ==> e.categories == cs + [Category(StrId(newId), Trim(input))]
  {
    var name := Trim(input);
    if name == [] then Refused(NameEmpty)
    else if HasName(cs, name) then Refused(NameExists)
    else Changed(cs + [Category(StrId(newId), name)])
  }

  /** A successful add keeps names unique and keeps 其他; the added name is trimmed and not blank. */
  lemma AddKeepsOtherAndUniqueness(cs: seq<Category>, input: string, newId: string)
    ensures AddCategory(cs, input, newId).Changed? && UniqueNames(cs) ==> UniqueNames(AddCategory(cs, input, newId).categories)
    ensures AddCategory(cs, input, newId).Changed? && HasName(cs, OTHER) ==> HasName(AddCategory(cs, input, newId).categories, OTHER)
    ensures AddCategory(cs, input, newId).Changed? ==>
      var added := AddCategory(cs, input, newId).categories[|cs|].name;
      added != [] && IsTrimmed(added)
  {
    var e := AddCategory(cs, input, newId);
    if e.Changed? {
      var r := e.categories;
      if UniqueNames(cs) {
        forall a, b | 0 <= a < b < |r| ensures r[a].name != r[b].name {
          if b == |cs| {
            assert r[a] == cs[a];
          } else {
            assert r[a] == cs[a] && r[b] == cs[b];
          }
        }
      }
      if HasName(cs, OTHER) {
        var k :| 0 <= k < |cs| && cs[k].name == OTHER;
        assert r[k].name == OTHER;
      }
    }
  }

  /** The page's React state: the category list and the text of the add field. */
  class CategoryPage {
    var categories: seq<Category>
    var newCategory: string

    constructor ()
      ensures categories == [] && newCategory == []
    {
      categories := [];
      newCategory := [];
    }

    /** The `acceptCategories` event handler. */
    method AcceptCategories(received: Option<seq<Category>>)
      modifies this
      ensures categories == AcceptedCategories(received)
      ensures newCategory == old(newCategory)
    {
      categories := AcceptedCategories(received);
    }

    /** The add field's `onInput`. */
    method SetNewCategory(value: string)
      modifies this
      ensures newCategory == value && categories == old(categories)
    {
      newCategory := value;
    }

    /** `handleMoveUp`: copy the list, swap through a temporary, store the copy. */
    method HandleMoveUp(index: nat)
      requires index < |categories|
      modifies this
      ensures categories == MovedUp(old(categories), index)
      ensures newCategory == old(newCategory)
    {
      if index == 0 { return; }
      var cs := categories;
      var copy := new Category[|cs|](k requires 0 <= k < |cs| => cs[k]);
      var temp := copy[index];
      copy[index] := copy[index - 1];
      copy[index - 1] := temp;
      categories := copy[..];
    }

    /** `handleMoveDown`: copy the list, swap through a temporary, store the copy. */
    method HandleMoveDown(index: nat)
      requires index < |categories|
      modifies this
      ensures categories == MovedDown(old(categories), index)
      ensures newCategory == old(newCategory)
    {
      if index == |categories| - 1 { return; }
      var cs := categories;
      var copy := new Category[|cs|](k requires 0 <= k < |cs| => cs[k]);
      var temp := copy[index];
      copy[index] := copy[index + 1];
      copy[index + 1] := temp;
      categories := copy[..];
    }

    /** `handleDelete`: the refusal, if any, is returned; otherwise the entry is spliced out. */
    method HandleDelete(index: nat) returns (refusal: Option<Refusal>)
      requires index < |categories|
      modifies this
      ensures Delete(old(categories), index).Refused? ==>
        refusal == Some(OtherUndeletable) && categories == old(categories)
      ensures Delete(old(categories), index).Changed? ==>
        refusal == None && categories == Delete(old(categories), index).categories
      ensures newCategory == old(newCategory)
    {
      if categories[index].name == OTHER {
        return Some(OtherUndeletable);
      }
      var copy := categories;
      copy := copy[..index] + copy[index + 1..];
      categories := copy;
      return None;
    }

    /** `handleAddCategory`, with the `Date.now()` id passed in; on success the field is cleared. */
    method HandleAddCategory(newId: string) returns (refusal: Option<Refusal>)
      modifies this
      ensures AddCategory(old(categories), old(newCategory), newId).Refused? ==>
        && refusal == Some(AddCategory(old(categories), old(newCategory), newId).reason)
        && categories == old(categories) && newCategory == old(newCategory)
      ensures AddCategory(old(categories), old(newCategory), newId).Changed? ==>
        && refusal == None
        && categories == AddCategory(old(categories), old(newCategory), newId).categories
        && newCategory == []
    {
      var e := AddCategory(categories, newCategory, newId);
      if e.Refused? {
        return Some(e.reason);
      }
      categories := e.categories;
      newCategory := [];
      return None;
    }
  }
}
