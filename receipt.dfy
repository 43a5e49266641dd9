/** A submitted receipt, with the checks its validation attributes make. */
module ReceiptModel {
  import opened Text
  import opened ItemModel
  import Money
  import Calendar

  datatype Receipt = Receipt(
    retailer: string,
    purchaseDate: string,
    purchaseTime: string,
    items: seq<Item>,
    total: string)

  /** The pattern `^[\w\s\-&]+$` of `Retailer`: one or more word characters,
      white space, hyphens or ampersands. */
  predicate IsRetailerText(s: string) {
    |s| >= 1 && forall i :: 0 <= i < |s| ==> IsWordChar(s[i]) || IsWhiteSpace(s[i]) || s[i] == '-' || s[i] == '&'
  }

  /** What the validation attributes of a receipt accept. `PurchaseDate` is only
      `[Required]`: `[DataType(DataType.Date)]` is a display hint and checks
      nothing. `Items` is `[Required]` and `[MinLength(1)]`, and every item is
      validated in turn. */
  predicate IsValidReceipt(r: Receipt) {
    IsRequiredPresent(r.retailer) && IsRetailerText(r.retailer) &&
    IsRequiredPresent(r.purchaseDate) &&
    IsRequiredPresent(r.purchaseTime) && Calendar.IsPurchaseTimeText(r.purchaseTime) &&
    |r.items| >= 1 && (forall i :: 0 <= i < |r.items| ==> IsValidItem(r.items[i])) &&
    IsRequiredPresent(r.total) && Money.IsAmount(r.total)
  }

  /** What the scorer can rely on for a valid receipt: the total and every price
      parse, the time parses to an hour in [0, 23], and there is at least one item. */
  lemma ValidReceiptParses(r: Receipt)
    requires IsValidReceipt(r)
    ensures Money.ParseCents(r.total).Some?
    ensures Calendar.ParseTime(r.purchaseTime).Some? && Calendar.ParseTime(r.purchaseTime).value.hours <= 23
    ensures |r.items| >= 1
    ensures forall i :: 0 <= i < |r.items| ==> Money.ParseCents(r.items[i].price).Some?
  {
  }

  /** The date is not checked: a valid receipt may carry a date that does not parse. */
  lemma {:induction false} ValidReceiptWithUnparsedDate()
    ensures var r := Receipt("Target", "someday", "13:01", [Item("Pepsi", "1.25")], "1.25");
      IsValidReceipt(r) && Calendar.ParseDate(r.purchaseDate).None?
  {
    var r := Receipt("Target", "someday", "13:01", [Item("Pepsi", "1.25")], "1.25");
    assert r.retailer[0] == 'T';
    assert r.purchaseDate[0] == 's' && r.total[0] == '1';
    assert r.items[0].shortDescription[0] == 'P' && r.items[0].price[0] == '1';
    assert r.purchaseTime[0] == '1';
  }
}
