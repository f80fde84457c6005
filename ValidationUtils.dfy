/**
 * Form validators of the utility module: an emptiness test, a length
 * range test, and three name validators that differ only in their
 * upper bound (dish 20, category 10, menu 30) and their messages.
 */
module ValidationUtils {
  import opened JsValues

  /** The `{valid, message}` object every validator returns. */
  datatype Validation = Validation(valid: bool, message: string)

  const DISH_NAME_MAX: nat := 20
  const CATEGORY_NAME_MAX: nat := 10
  const MENU_NAME_MAX: nat := 30

  const DISH_EMPTY_MESSAGE := "菜品名称不能为空"
  const DISH_LENGTH_MESSAGE := "菜品名称长度应在1-20个字符之间"
  const CATEGORY_EMPTY_MESSAGE := "分类名称不能为空"
  const CATEGORY_LENGTH_MESSAGE := "分类名称长度应在1-10个字符之间"
  const MENU_EMPTY_MESSAGE := "菜单名称不能为空"
  const MENU_LENGTH_MESSAGE := "菜单名称长度应在1-30个字符之间"

  /** `isEmpty(value)`: absent, or nothing but whitespace. */
  predicate IsEmpty(value: Option<string>): (b: bool)
    ensures b <==> value.None? || AllWhitespace(value.value)
  {
    value.None? || Trim(value.value) == []
  }

  /** `isLengthValid(value, min, max)`: never for an empty value; otherwise the trimmed length is in range. */
  function IsLengthValid(value: string, min: int, max: int): (b: bool)
    ensures IsEmpty(Some(value)) ==> !b
    ensures !IsEmpty(Some(value)) ==> (b <==> min <= Utf16Length(Trim(value)) <= max)
  {
    if IsEmpty(Some(value)) then false
    else
      var length := Utf16Length(Trim(value));
      min <= length && length <= max
  }

  /**
   * The shape shared by the three validators: the emptiness check runs
   * first, then the length check against `1..max`.
   */
  function ValidateBounded(name: Option<string>, max: nat, emptyMessage: string, lengthMessage: string): (v: Validation)
    requires emptyMessage != [] && lengthMessage != []
    ensures v.valid <==> name.Some? && Trim(name.value) != [] && Utf16Length(Trim(name.value)) <= max
    ensures v.valid <==> v.message == []
    ensures IsEmpty(name) ==> v.message == emptyMessage
    ensures !IsEmpty(name) && !v.valid ==> v.message == lengthMessage
  {
    if IsEmpty(name) then Validation(false, emptyMessage)
    else if !IsLengthValid(name.value, 1, max) then Validation(false, lengthMessage)
    else Validation(true, [])
  }

  /** `validateDishName`: valid iff present, not blank, and at most 20 code units once trimmed. */
  function ValidateDishName(name: Option<string>): (v: Validation)
    ensures v.valid <==> name.Some? && Trim(name.value) != [] && Utf16Length(Trim(name.value)) <= DISH_NAME_MAX
    ensures v.valid <==> v.message == []
    ensures IsEmpty(name) ==> v.message == DISH_EMPTY_MESSAGE
    ensures !IsEmpty(name) && !v.valid ==> v.message == DISH_LENGTH_MESSAGE
  {
    ValidateBounded(name, DISH_NAME_MAX, DISH_EMPTY_MESSAGE, DISH_LENGTH_MESSAGE)
  }

  /** `validateCategoryName`: as the dish validator, with the bound 10. */
  function ValidateCategoryName(name: Option<string>): (v: Validation)
    ensures v.valid <==> name.Some? && Trim(name.value) != [] && Utf16Length(Trim(name.value)) <= CATEGORY_NAME_MAX
    ensures v.valid <==> v.message == []
    ensures IsEmpty(name) ==> v.message == CATEGORY_EMPTY_MESSAGE
    ensures !IsEmpty(name) && !v.valid ==> v.message == CATEGORY_LENGTH_MESSAGE
  {
    ValidateBounded(name, CATEGORY_NAME_MAX, CATEGORY_EMPTY_MESSAGE, CATEGORY_LENGTH_MESSAGE)
  }

  /** `validateMenuName`: as the dish validator, with the bound 30. */
  function ValidateMenuName(name: Option<string>): (v: Validation)
    ensures v.valid <==> name.Some? && Trim(name.value) != [] && Utf16Length(Trim(name.value)) <= MENU_NAME_MAX
    ensures v.valid <==> v.message == []
    ensures IsEmpty(name) ==> v.message == MENU_EMPTY_MESSAGE
    ensures !IsEmpty(name) && !v.valid ==> v.message == MENU_LENGTH_MESSAGE
  {
    ValidateBounded(name, MENU_NAME_MAX, MENU_EMPTY_MESSAGE, MENU_LENGTH_MESSAGE)
  }

  /** A blank name is never reported as too long: the emptiness message wins. */
  lemma BlankNameGetsEmptyMessage(s: string)
    requires AllWhitespace(s)
    ensures ValidateDishName(Some(s)) == Validation(false, DISH_EMPTY_MESSAGE)
    ensures ValidateCategoryName(Some(s)) == Validation(false, CATEGORY_EMPTY_MESSAGE)
    ensures ValidateMenuName(Some(s)) == Validation(false, MENU_EMPTY_MESSAGE)
  {
  }

  /** The shared shape only looks at the trimmed name. */
  lemma BoundedIgnoresSurroundingWhitespace(s: string, max: nat, emptyMessage: string, lengthMessage: string)
    requires emptyMessage != [] && lengthMessage != []
    ensures ValidateBounded(Some(Trim(s)), max, emptyMessage, lengthMessage)
         == ValidateBounded(Some(s), max, emptyMessage, lengthMessage)
  {
    TrimIdempotent(s);
  }

  /** The validators only look at the trimmed name: trimming first changes no verdict. */
  lemma ValidatorsIgnoreSurroundingWhitespace(s: string)
    ensures ValidateDishName(Some(Trim(s))) == ValidateDishName(Some(s))
    ensures ValidateCategoryName(Some(Trim(s))) == ValidateCategoryName(Some(s))
    ensures ValidateMenuName(Some(Trim(s))) == ValidateMenuName(Some(s))
  {
    BoundedIgnoresSurroundingWhitespace(s, DISH_NAME_MAX, DISH_EMPTY_MESSAGE, DISH_LENGTH_MESSAGE);
    BoundedIgnoresSurroundingWhitespace(s, CATEGORY_NAME_MAX, CATEGORY_EMPTY_MESSAGE, CATEGORY_LENGTH_MESSAGE);
    BoundedIgnoresSurroundingWhitespace(s, MENU_NAME_MAX, MENU_EMPTY_MESSAGE, MENU_LENGTH_MESSAGE);
  }

  /**
   * The bounds are nested: a category-valid name is dish-valid, a
   * dish-valid name is menu-valid, and a menu-valid name of trimmed length
   * at most 10 is valid for all three.
   */
  lemma ValidityIsMonotoneInBound(name: Option<string>)
    ensures ValidateCategoryName(name).valid ==> ValidateDishName(name).valid
    ensures ValidateDishName(name).valid ==> ValidateMenuName(name).valid
    ensures ValidateMenuName(name).valid && Utf16Length(Trim(name.value)) <= CATEGORY_NAME_MAX
            ==> ValidateCategoryName(name).valid && ValidateDishName(name).valid
  {
  }

  /** On BMP names `length` is the character count, so the bound is a plain count. */
  lemma DishNameBoundOnBmpText(s: string)
    requires InBmp(Trim(s))
    ensures ValidateDishName(Some(s)).valid <==> 1 <= |Trim(s)| <= DISH_NAME_MAX
  {
    Utf16LengthInBmp(Trim(s));
  }

  /**
   * A trimmed name holding a character above U+FFFF (an emoji, say) is
   * longer in `length` than in characters, so a valid name then has fewer
   * than 20 characters.
   */
  lemma AstralNameIsLongerThanItsCharacters(s: string, k: nat)
    requires k < |Trim(s)| && Trim(s)[k] as int > 0xFFFF
    ensures Utf16Length(Trim(s)) > |Trim(s)|
    ensures ValidateDishName(Some(s)).valid ==> |Trim(s)| < DISH_NAME_MAX
  {
    AstralCountsTwice(Trim(s), k);
  }

  /** One character above U+FFFF makes `length` exceed the character count. */
  lemma {:induction false} AstralCountsTwice(s: string, k: nat)
    requires k < |s| && s[k] as int > 0xFFFF
    ensures Utf16Length(s) > |s|
  {
    if k > 0 {
      assert s[1..][k - 1] == s[k];
      AstralCountsTwice(s[1..], k - 1);
    }
  }
}
