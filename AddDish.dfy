/**
 * The save gate of the add-dish page: the name is checked first (after
 * trimming), then the image path; only when both are present does the
 * save go ahead.
 */
module AddDish {
  import opened JsValues
  import ValidationUtils

  /** Which toast the gate shows, or that it went on to save. */
  datatype SaveOutcome =
    | NameRequired    // 请输入菜品名称
    | ImageRequired   // 请上传或生成菜品图片
    | Saved

  /** `handleSave` over the page's `dishName` and `dishImage` state. */
  function HandleSave(dishName: string, dishImage: string): (o: SaveOutcome)
    ensures o == NameRequired <==> AllWhitespace(dishName)
    ensures o == ImageRequired <==> !AllWhitespace(dishName) && dishImage == []
    ensures o == Saved <==> !AllWhitespace(dishName) && dishImage != []
  {
    if Trim(dishName) == [] then NameRequired
    else if dishImage == [] then ImageRequired
    else Saved
  }

  /** A whitespace-only name is treated exactly as the empty name, whatever the image. */
  lemma BlankNameIsEmptyName(dishName: string, dishImage: string)
    requires Trim(dishName) == []
    ensures HandleSave(dishName, dishImage) == HandleSave([], dishImage) == NameRequired
  {
  }

  /** The gate's name test is the utility module's `isEmpty`. */
  lemma NameTestIsIsEmpty(dishName: string, dishImage: string)
    ensures HandleSave(dishName, dishImage) == NameRequired <==> ValidationUtils.IsEmpty(Some(dishName))
  {
  }

  /**
   * The gate does not apply the 20-unit bound of `validateDishName`: a
   * trimmed name of more than 20 characters with an image is saved although
   * the validator rejects it.
   */
  lemma GateIsLaxerThanDishValidator(dishName: string, dishImage: string)
    requires IsTrimmed(dishName) && |dishName| > ValidationUtils.DISH_NAME_MAX
    requires dishImage != []
    ensures HandleSave(dishName, dishImage) == Saved
    ensures !ValidationUtils.ValidateDishName(Some(dishName)).valid
  {
    TrimOfTrimmed(dishName);
  }
}
