/** One line of a receipt, with the checks its validation attributes make. */
module ItemModel {
  import opened Text
  import Money

  datatype Item = Item(shortDescription: string, price: string)

  /** The pattern `^[\w\s\-]+$` of `ShortDescription`: one or more word
      characters, white space or hyphens. */
  predicate IsDescriptionText(s: string) {
    |s| >= 1 && forall i :: 0 <= i < |s| ==> IsWordChar(s[i]) || IsWhiteSpace(s[i]) || s[i] == '-'
  }

  /** What the `[Required]` and `[RegularExpression]` attributes of an item accept. */
  predicate IsValidItem(item: Item) {
    IsRequiredPresent(item.shortDescription) && IsDescriptionText(item.shortDescription) &&
    IsRequiredPresent(item.price) && Money.IsAmount(item.price)
  }

  /** The price of a valid item denotes a whole number of cents. */
  lemma ValidItemHasPrice(item: Item)
    requires IsValidItem(item)
    ensures Money.ParseCents(item.price).Some?
  {
  }

  /** A description made only of white space matches the pattern, and it is the
      `[Required]` attribute that turns it away. */
  lemma {:induction false} BlankDescriptionMatchesPattern(s: string)
    requires |s| >= 1 && IsBlank(s)
    ensures IsDescriptionText(s)
    ensures !IsRequiredPresent(s)
  {
  }
}
