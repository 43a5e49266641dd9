/** The running total of the point calculation is an `int` added to without
    overflow checking. A valid receipt whose points exceed `int.MaxValue` is
    accepted and given a wrapped, possibly negative, number of points. */
module OverflowFinding {
  import opened Text
  import opened Wrappers
  import opened ItemModel
  import opened ReceiptModel
  import opened Scoring
  import opened Controller
  import Money
  import Calendar
  import ReferenceReceipts

  /** Above `int.MaxValue` the two calculations part: the checked one reports an
      overflow, while the one as written, unless a cast throws first, gives a
      number of points other than the sum of the rules. */
  lemma AsWrittenWrapsAboveRange(r: Receipt)
    requires Score(r) > IntMax
    requires RetailerPoints(r.retailer) <= IntMax && BonusesFit(r.items)
    ensures CheckedPoints(r) == Overflow
    ensures PointsAsWritten(r).Scored? && PointsAsWritten(r).points != Score(r)
  {
  }

  /** Up to 2^32 - 1 points, the wrapped result is negative. */
  lemma {:induction false} WrapJustAboveRangeIsNegative(x: int)
    requires IntMax < x < 0x1_0000_0000
    ensures Wrap32(x) == x - 0x1_0000_0000 < 0
  {
    Wrap32OfCongruent(x, x - 0x1_0000_0000, 1);
  }

  /** Two items of 6000000000.00 with a three-character description. */
  const Heavy := Receipt(
    "A", "2022-01-02", "13:00",
    [Item("Tea", "6000000000.00"), Item("Tea", "6000000000.00")],
    "12000000000.00")

  /** A whole number of units with no cents has the text of its digits followed by ".00". */
  lemma {:induction false} ParseWhole(w: string)
    requires |w| >= 1 && IsDigits(w)
    ensures Money.ParseCents(w + ".00") == Some(DigitsValue(w) * 100)
  {
    var s := w + ".00";
    assert s[..|s| - 3] == w;
    assert s[|s| - 2..] == "00";
  }

  function Pow10(n: nat): (p: nat) {
    if n == 0 then 1 else 10 * Pow10(n - 1)
  }

  /** Zero digits after the first `m` multiply the value by ten each. */
  lemma {:induction false} TrailingZeros(s: string, m: nat, k: nat)
    requires IsDigits(s) && m <= k <= |s|
    requires forall i :: m <= i < k ==> s[i] == '0'
    ensures DigitsValue(s[..k]) == DigitsValue(s[..m]) * Pow10(k - m)
  {
    if k > m {
      TrailingZeros(s, m, k - 1);
      assert s[..k][..k - 1] == s[..k - 1];
    }
  }

  lemma {:induction false} SixThousandMillion()
    ensures IsDigits("6000000000") && DigitsValue("6000000000") == 6000000000
  {
    var s := "6000000000";
    assert s[..1] == "6" && s[..10] == s;
    TrailingZeros(s, 1, 10);
    assert Pow10(9) == 1000000000;
  }

  lemma {:induction false} TwelveThousandMillion()
    ensures IsDigits("12000000000") && DigitsValue("12000000000") == 12000000000
  {
    var s := "12000000000";
    assert s[..1] == "1" && s[..11] == s;
    assert s[..2][..1] == s[..1] && s[..2][1] == '2';
    assert DigitsValue(s[..1]) == 1;
    assert DigitsValue(s[..2]) == 12;
    TrailingZeros(s, 2, 11);
    assert Pow10(9) == 1000000000;
  }

  lemma {:induction false} HeavyPrice()
    ensures Money.ParseCents("6000000000.00") == Some(600000000000)
  {
    SixThousandMillion();
    ParseWhole("6000000000");
    assert "6000000000" + ".00" == "6000000000.00";
  }

  lemma {:induction false} HeavyTotal()
    ensures Money.ParseCents("12000000000.00") == Some(1200000000000)
  {
    TwelveThousandMillion();
    ParseWhole("12000000000");
    assert "12000000000" + ".00" == "12000000000.00";
  }

  /** Each item earns a fifth of 6000000000, within the range of an `int`. */
  lemma {:induction false} HeavyItems()
    ensures ItemPoints(Heavy.items[0]) == 1200000000 && ItemPoints(Heavy.items[1]) == 1200000000
  {
    HeavyPrice();
    TrimOfUnpadded("Tea");
    ReferenceReceipts.WithBonus(Heavy.items[0], 3, 600000000000);
  }

  lemma {:induction false} HeavyItemsSum()
    ensures ItemsPoints(Heavy.items) == 2400000000 && PairPoints(|Heavy.items|) == 5
    ensures BonusesFit(Heavy.items)
  {
    var t := Heavy.items;
    HeavyItems();
    assert t[..1][..0] == [] && t[..1][0] == t[0];
    assert t[..1] == [t[0]] && t == t[..1] + [t[1]];
    ReferenceReceipts.Snoc([], t[0]);
    ReferenceReceipts.Snoc(t[..1], t[1]);
  }

  lemma {:induction false} HeavyOtherRules()
    ensures RetailerPoints(Heavy.retailer) == 1
    ensures RoundTotalPoints(Heavy.total) == 50 && QuarterTotalPoints(Heavy.total) == 25
    ensures OddDayPoints(Heavy.purchaseDate) == 0 && AfternoonPoints(Heavy.purchaseTime) == 0
  {
    HeavyTotal();
    assert Calendar.FormatDate(Calendar.Date(2022, 1, 2)) == "2022-01-02";
    Calendar.FormatThenParseDate(Calendar.Date(2022, 1, 2));
    assert Calendar.FormatTime(Calendar.TimeOfDay(13, 0)) == "13:00";
    Calendar.FormatThenParseTime(Calendar.TimeOfDay(13, 0));
  }

  lemma {:induction false} HeavyItemIsValid()
    ensures IsValidItem(Item("Tea", "6000000000.00"))
  {
    var item := Item("Tea", "6000000000.00");
    assert item.shortDescription[0] == 'T' && item.price[0] == '6';
  }

  lemma {:induction false} HeavyIsValid()
    ensures IsValidReceipt(Heavy)
  {
    HeavyItemIsValid();
    assert Heavy.items[1] == Heavy.items[0] == Item("Tea", "6000000000.00");
    assert Heavy.retailer[0] == 'A' && Heavy.purchaseDate[0] == '2';
    assert Heavy.purchaseTime[0] == '1' && Heavy.total[0] == '1';
  }

  /** The receipt is valid and its rules add up to 2400000081, which no `int`
      holds: the calculation as written answers -1894967215 points, and the
      checked calculation reports the overflow. */
  lemma {:induction false} HeavyReceiptWraps()
    ensures IsValidReceipt(Heavy)
    ensures Score(Heavy) == 2400000081
    ensures PointsAsWritten(Heavy) == Scored(-1894967215)
    ensures CheckedPoints(Heavy) == Overflow
  {
    HeavyIsValid();
    HeavyItemsSum();
    HeavyOtherRules();
    WrapJustAboveRangeIsNegative(2400000081);
  }

  /** The requests of the finding, each on a new store. As written, the receipt
      is accepted and its id then answers -1894967215 points; the corrected
      service answers a server error and the id is not found. */
  method HeavySession(id: Guid)
    returns (asWritten: ProcessResult, stored: LookupResult, corrected: ProcessResult, missing: LookupResult)
    ensures asWritten == Accepted(id) && stored == Found(-1894967215)
    ensures corrected == ServerError && missing == NotFound
  {
    HeavyReceiptWraps();
    var store := new ReceiptController();
    asWritten := store.ProcessAsWritten(Heavy, id);
    stored := store.GetPoints(id);
    var fixedStore := new ReceiptController();
    corrected := fixedStore.Process(Heavy, id);
    missing := fixedStore.GetPoints(id);
  }
}
