# Menu mini-program: list operations and form validators

This project models the logic inside a Taro (React) mini-program for
browsing a family menu and filling a shopping basket (菜篮子). Most of the
program is rendering, navigation and toasts. The logic modelled here is:

- the **category editor**: move a category up or down, delete it (the
  catch-all category 其他 cannot be deleted), add a new one under a
  trimmed, non-blank, unused name, and fall back to a default list;
- the **cart**, kept in device storage under the key `cartItems`. The
  menu page adds a dish only when no cart item has its id. The dish-detail
  page always appends. The cart page removes every item with a given id;
- the **form validators** `isEmpty`, `isLengthValid` and the dish (20),
  category (10) and menu (30) name validators, and the add-dish save gate
  (name first, then image);
- the **header image source**, which has its backticks removed.

The add-dish page's "upload image" button only stores the temporary file
path that the image picker returns (`res.tempFilePaths[0]`); the save gate
checks that such a path is present.

Modules follow the source files: `CategoryManage`
(`pages/categoryManage`), `MenuPage` (`pages/index`), `CartPage`
(`pages/cart`), `DishDetail` (`pages/dishDetail`), `AddDish`
(`pages/addDish`), `ValidationUtils` (`utils/validationUtils`) and
`Header` (`components/Header`). Two support modules sit beside them:
`CartStore` holds the shared cart item type and the `cartItems` storage
slot, and `JsValues` holds the JavaScript semantics the pages use.

Modelling choices:

- `undefined` and `null` are `None` of `Option`.
- Ids of type `string | number` are the datatype `Id`. It has a string
  case and a number case, so its equality is `===`: `'1'` is not `1`.
  JavaScript truthiness of ids (`''` and `0` are falsy) is `Truthy`.
- `trim` removes the ECMAScript WhiteSpace and LineTerminator code points.
- `length` is the number of UTF-16 code units (`Utf16Length`). It equals
  the character count on text in the Basic Multilingual Plane.
- Each component whose modelled handlers change state is a class holding
  the state those handlers use (`CategoryPage`, `CartView`, `DishPage`),
  and device storage is the class `Storage`. Each handler is a method whose
  contract ties the new state to a pure function of the old state, and the
  properties are lemmas about those functions. The add-dish gate takes its
  two state values, `dishName` and `dishImage`, as arguments. State that no
  modelled handler uses, such as the active tab and the active category,
  is not modelled.
- The move handlers copy the list into an array and swap through a
  temporary, as the source does.
- The `Date.now()` id of a new category is a parameter.

## Model

| member | source | states |
|---|---|---|
| JsValues.Trim | src/utils/validationUtils.ts:12 | `trim()` leaves no leading or trailing whitespace, never lengthens, and is empty exactly when the input is all whitespace |
| JsValues.TrimIdempotent | src/utils/validationUtils.ts:24 | trimming twice is trimming once |
| JsValues.TrimOfTrimmed | src/utils/validationUtils.ts:24 | a string with no whitespace at either end is left as it is |
| JsValues.TrimIsSlice | src/utils/validationUtils.ts:24 | the trimmed string is a contiguous slice of the input, with only whitespace cut off on either side |
| JsValues.Utf16Length | src/utils/validationUtils.ts:24 | `length` counts UTF-16 code units, between `\|s\|` and `2\|s\|` |
| JsValues.Utf16LengthInBmp | src/utils/validationUtils.ts:24 | on BMP text `length` equals the number of characters |
| JsValues.Truthy | src/pages/dishDetail/index.tsx:32 | an id is falsy exactly when it is `''` or `0` |
| JsValues.OrEmpty | src/pages/dishDetail/index.tsx:22-23 | `x \|\| ''` on an optional string gives the string when present, `''` otherwise |
| ValidationUtils.IsEmpty | src/utils/validationUtils.ts:11-13 | `isEmpty` holds iff the value is absent or all whitespace |
| ValidationUtils.IsLengthValid | src/utils/validationUtils.ts:22-26 | false whenever `isEmpty` holds; otherwise holds iff `min <= length(trim(v)) <= max` |
| ValidationUtils.ValidateBounded | src/utils/validationUtils.ts:33-52 | valid iff present, not blank and trimmed length at most the bound; valid iff the message is empty; a blank name gets the empty message, an over-long one the length message |
| ValidationUtils.ValidateDishName | src/utils/validationUtils.ts:33-52 | the dish validator with bound 20 and its two messages; valid iff the message is empty |
| ValidationUtils.ValidateCategoryName | src/utils/validationUtils.ts:59-78 | the category validator with bound 10 and its two messages; valid iff the message is empty |
| ValidationUtils.ValidateMenuName | src/utils/validationUtils.ts:85-104 | the menu validator with bound 30 and its two messages; valid iff the message is empty |
| ValidationUtils.BlankNameGetsEmptyMessage | src/utils/validationUtils.ts:34-39 | a blank name always gets the "不能为空" message of each validator, never the length message |
| ValidationUtils.BoundedIgnoresSurroundingWhitespace | src/utils/validationUtils.ts:23-24 | the shared validator shape gives the same result for a name and its trimmed form |
| ValidationUtils.ValidatorsIgnoreSurroundingWhitespace | src/utils/validationUtils.ts:24 | each validator gives the same result for a name and its trimmed form |
| ValidationUtils.ValidityIsMonotoneInBound | src/utils/validationUtils.ts:41 | category-valid implies dish-valid implies menu-valid; menu-valid with trimmed length at most 10 implies category- and dish-valid |
| ValidationUtils.DishNameBoundOnBmpText | src/utils/validationUtils.ts:41 | on BMP names the dish validator accepts exactly 1 to 20 trimmed characters |
| ValidationUtils.AstralNameIsLongerThanItsCharacters | src/utils/validationUtils.ts:24 | a trimmed name holding a character above U+FFFF has a `length` greater than its character count, so a valid dish name then has fewer than 20 characters |
| ValidationUtils.AstralCountsTwice | src/utils/validationUtils.ts:24 | one character above U+FFFF anywhere in a string makes `length` exceed the character count |
| AddDish.HandleSave | src/pages/addDish/index.tsx:41-67 | the name-required outcome iff the name is blank, whatever the image; image-required iff the name is not blank and the image is empty; save iff both are present |
| AddDish.BlankNameIsEmptyName | src/pages/addDish/index.tsx:42 | a whitespace-only name is treated exactly like the empty name |
| AddDish.NameTestIsIsEmpty | src/pages/addDish/index.tsx:42 | the gate's name test agrees with `isEmpty` |
| AddDish.GateIsLaxerThanDishValidator | src/pages/addDish/index.tsx:42-58 | the gate does not apply the 20-unit bound: a trimmed name longer than 20 characters with an image is saved although `validateDishName` rejects it |
| Header.StripBackticks | src/components/Header/index.tsx:25 | the result has no backtick and is no longer than the input |
| Header.StripConcat | src/components/Header/index.tsx:25 | stripping distributes over concatenation, so characters keep their order |
| Header.StripWithoutBackticks | src/components/Header/index.tsx:25 | a string with no backtick is returned unchanged |
| Header.StripIdempotent | src/components/Header/index.tsx:25 | stripping twice is stripping once |
| Header.StripCounts | src/components/Header/index.tsx:25 | every non-backtick character keeps its number of occurrences; backticks occur zero times |
| Header.StripLength | src/components/Header/index.tsx:25 | the output is shorter by exactly the number of backticks |
| Header.ImageSource | src/components/Header/index.tsx:24-28 | the placeholder when the menu image is absent or empty, otherwise the image with its backticks stripped |
| CategoryManage.DefaultCategoriesWellFormed | src/pages/categoryManage/index.tsx:26-35 | the default list has eight entries with distinct names, and its last entry is 其他 |
| CategoryManage.AcceptedCategories | src/pages/categoryManage/index.tsx:21-37 | a received non-empty list is adopted; otherwise the default list, which contains 其他; the result is never empty |
| CategoryManage.Swap | src/pages/categoryManage/index.tsx:46-48 | the two positions are exchanged and every other position is unchanged |
| CategoryManage.SwapIsPermutation | src/pages/categoryManage/index.tsx:45-48 | an exchange preserves the multiset of categories |
| CategoryManage.HasName | src/pages/categoryManage/index.tsx:91 | `some(cat => cat.name === name)` holds iff the name is among the list's names |
| CategoryManage.MovedUp | src/pages/categoryManage/index.tsx:43-50 | moving up at index 0 changes nothing; otherwise positions `i-1` and `i` are exchanged and all others kept; length and multiset preserved |
| CategoryManage.MovedDown | src/pages/categoryManage/index.tsx:53-60 | moving down at the last index changes nothing; otherwise positions `i` and `i+1` are exchanged and all others kept; length and multiset preserved |
| CategoryManage.MoveDownUndoesMoveUp | src/pages/categoryManage/index.tsx:43-60 | moving an entry up and then down again restores the list |
| CategoryManage.MoveUpUndoesMoveDown | src/pages/categoryManage/index.tsx:43-60 | moving an entry down and then up again restores the list |
| CategoryManage.SwapKeepsNames | src/pages/categoryManage/index.tsx:45-48 | an exchange keeps the set of names and keeps names unique |
| CategoryManage.MoveUpKeepsOtherAndUniqueness | src/pages/categoryManage/index.tsx:43-50 | after a move up 其他 is still present and unique names stay unique |
| CategoryManage.MoveDownKeepsOtherAndUniqueness | src/pages/categoryManage/index.tsx:53-60 | after a move down 其他 is still present and unique names stay unique |
| CategoryManage.Delete | src/pages/categoryManage/index.tsx:63-77 | refused iff the entry is named 其他; otherwise exactly that entry is removed, the list shrinks by one and the others keep their order |
| CategoryManage.DeleteRemovesOne | src/pages/categoryManage/index.tsx:74-76 | a delete removes exactly one occurrence of the deleted entry from the multiset |
| CategoryManage.DeleteKeepsOtherAndUniqueness | src/pages/categoryManage/index.tsx:63-77 | after a delete 其他 is still present and unique names stay unique |
| CategoryManage.AddCategory | src/pages/categoryManage/index.tsx:80-103 | a blank name is refused as empty; a trimmed name equal to an existing name is refused as a duplicate; otherwise one category with the trimmed name and the new id is appended |
| CategoryManage.AddKeepsOtherAndUniqueness | src/pages/categoryManage/index.tsx:91-101 | a successful add keeps names unique and keeps 其他; the added name is trimmed and not blank |
| CategoryManage.CategoryPage.constructor | src/pages/categoryManage/index.tsx:12-13 | the page starts with no categories and an empty input field |
| CategoryManage.CategoryPage.AcceptCategories | src/pages/categoryManage/index.tsx:21-38 | the event sets the list to the accepted categories |
| CategoryManage.CategoryPage.SetNewCategory | src/pages/categoryManage/index.tsx:163 | typing sets the input field and leaves the list alone |
| CategoryManage.CategoryPage.HandleMoveUp | src/pages/categoryManage/index.tsx:43-50 | the list becomes the moved-up list; the input field is unchanged |
| CategoryManage.CategoryPage.HandleMoveDown | src/pages/categoryManage/index.tsx:53-60 | the list becomes the moved-down list; the input field is unchanged |
| CategoryManage.CategoryPage.HandleDelete | src/pages/categoryManage/index.tsx:63-77 | on 其他 the refusal is returned and the list is unchanged; otherwise the list becomes the delete result |
| CategoryManage.CategoryPage.HandleAddCategory | src/pages/categoryManage/index.tsx:80-103 | a refusal is returned with list and field unchanged; otherwise the list becomes the add result and the field is cleared |
| CartStore.Storage.constructor | src/pages/index/index.tsx:50 | the storage slot starts with the given contents, possibly missing |
| CartStore.HasId | src/pages/index/index.tsx:55 | `some(item => item.id === id)` holds iff the id is among the cart's ids |
| CartStore.LoadCart | src/pages/index/index.tsx:50 | a missing cart reads as the empty list, a stored one as itself |
| CartStore.Append | src/pages/dishDetail/index.tsx:63 | `push` adds exactly one item at the end and leaves the old prefix unchanged |
| MenuPage.FindDish | src/pages/index/index.tsx:52 | found iff some catalogue dish has the id; a found dish is in the catalogue and has that id |
| MenuPage.FindDishIsFirst | src/pages/index/index.tsx:52 | `find` returns the first catalogue dish with the id |
| MenuPage.MockDishesWellFormed | src/pages/index/index.tsx:25-34 | the catalogue's ids are distinct and are exactly the numbers 1 to 8 |
| MenuPage.AddFromMenu | src/pages/index/index.tsx:47-73 | not in the catalogue: nothing happens; already in the cart: refused; otherwise the cart is the old cart with the catalogue dish appended |
| MenuPage.AddFromMenuKeepsIdsDistinct | src/pages/index/index.tsx:55-58 | if cart ids were distinct before, they are distinct after |
| MenuPage.HandleAddDish | src/pages/index/index.tsx:47-73 | storage is written only when the dish was added, with the new cart; otherwise it is untouched |
| CartPage.RemoveById | src/pages/cart/index.tsx:41 | no remaining item has the id, and the cart never grows |
| CartPage.RemoveMembership | src/pages/cart/index.tsx:41 | an item remains iff it was in the cart with another id |
| CartPage.RemoveAddsNoId | src/pages/cart/index.tsx:41 | an id absent before a removal is absent after it |
| CartPage.RemoveConcat | src/pages/cart/index.tsx:41 | removal distributes over concatenation, so the survivors keep their relative order |
| CartPage.RemoveCounts | src/pages/cart/index.tsx:41 | every item with another id keeps its number of occurrences; items with the id occur zero times |
| CartPage.RemoveAbsent | src/pages/cart/index.tsx:41 | removing an id no item has leaves the cart unchanged |
| CartPage.RemoveIdempotent | src/pages/cart/index.tsx:41 | removing twice is removing once |
| CartPage.RemoveKeepsIdsDistinct | src/pages/cart/index.tsx:41 | distinct ids stay distinct after a removal |
| CartPage.CartTitle | src/pages/cart/index.tsx:22 | the title is the menu name when non-empty, 菜篮子 otherwise, and never empty |
| CartPage.CartView.constructor | src/pages/cart/index.tsx:16 | the page starts with an empty cart |
| CartPage.CartView.Load | src/pages/cart/index.tsx:29-30 | the displayed cart is the stored one, or empty when none is stored |
| CartPage.CartView.HandleRemoveItem | src/pages/cart/index.tsx:40-45 | the displayed cart becomes the filtered cart, and exactly that list is written to storage |
| DishDetail.DishFromParams | src/pages/dishDetail/index.tsx:18-25 | a dish is built iff the id parameter is present and non-empty; it keeps the id as a string and gets `''` for a missing name or image |
| DishDetail.AcceptDishInfo | src/pages/dishDetail/index.tsx:31-38 | a payload without a truthy id leaves the dish unchanged; otherwise the dish gets the payload's id, and `''` for a missing name or image |
| DishDetail.ZeroIdIsIgnored | src/pages/dishDetail/index.tsx:32 | a payload whose id is the number 0 is ignored |
| DishDetail.RouteDishDoesNotBlockMenuAdd | src/pages/dishDetail/index.tsx:18-24 | a dish from the route has a string id, so the menu page still adds the catalogue dish with the matching number id |
| DishDetail.DetailAddDuplicatesWhereMenuAddRefuses | src/pages/dishDetail/index.tsx:61-64 | when an item with the dish's id is already in the cart, the detail add breaks id distinctness while the menu add refuses |
| DishDetail.AddPathsAgreeOnNewDish | src/pages/dishDetail/index.tsx:61-64 | for a catalogue dish not yet in the cart, both add paths give the same cart |
| DishDetail.DishPage.constructor | src/pages/dishDetail/index.tsx:14 | the page starts with no dish |
| DishDetail.DishPage.LoadRoute | src/pages/dishDetail/index.tsx:18-25 | the dish is set from the route only when the route yields one |
| DishDetail.DishPage.OnAcceptDishInfo | src/pages/dishDetail/index.tsx:31-39 | the dish becomes the accepted dish |
| DishDetail.DishPage.HandleAddToCart | src/pages/dishDetail/index.tsx:58-70 | nothing without a dish; otherwise the stored cart, empty when missing, gets the dish appended even if its id is present, and is written back |

## Left out

- Toasts, modals, navigation, `console.log` and the event-channel wiring are left out. The outcome a toast reports appears as a result tag (`Refusal`, `MenuAdd`, `SaveOutcome`, a returned flag).
- The detail page's delete handler only asks for confirmation, logs and navigates. It has no state effect, so it is not modelled.
- `getCombineInfo` and the other service calls are network and storage I/O. The cart title takes the menu name as a parameter.
- The move and delete handlers require an index inside the list. The page only calls them with the index of a rendered entry.
- A JavaScript string is a sequence of UTF-16 code units and may hold a lone surrogate; a string here is a sequence of Unicode scalar values, so such strings are not modelled, and `Utf16Length` is the `length` of well-formed text only.
- JavaScript numbers are modelled as integers. Fractional ids and NaN are not modelled.
- The event payloads are modelled as already shaped records. Values of unexpected JavaScript types, such as a number given as a name, are not modelled.
- `CartStore.Item`: the cart item's `image` is a string, because every producer in these pages sets one (`''` when missing).
