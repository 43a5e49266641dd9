/** The point rules of `CalculatePoints`, each as a function of the receipt, and
    their sum, computed over unbounded integers. */
module Scoring {
  import opened Text
  import opened Wrappers
  import opened ItemModel
  import opened ReceiptModel
  import Money
  import Calendar

  /** One point for every letter or digit in the retailer name. */
  function RetailerPoints(retailer: string): (p: nat) {
    CountLetterOrDigit(retailer)
  }

  /** What `totalAmount` holds after `decimal.TryParse`: the total, or the
      default 0 that an unsuccessful parse leaves behind. */
  function TotalAmount(total: string): (cents: nat) {
    Money.ParseCents(total).GetOr(0)
  }

  /** 50 points when the total parses and is a whole number. */
  function RoundTotalPoints(total: string): (p: nat) {
    var parsed := Money.ParseCents(total);
    if parsed.Some? && parsed.value % 100 == 0 then 50 else 0
  }

  /** 25 points when `totalAmount` is a multiple of 0.25; this check does not
      look at whether the parse succeeded. */
  function QuarterTotalPoints(total: string): (p: nat) {
    if TotalAmount(total) % 25 == 0 then 25 else 0
  }

  /** 5 points for every two items. */
  function PairPoints(itemCount: nat): (p: nat) {
    (itemCount / 2) * 5
  }

  /** The conditions of the description rule: a description that is not blank,
      whose trimmed length is a multiple of 3, and a price that parses. */
  predicate EarnsDescriptionBonus(item: Item) {
    !IsBlank(item.shortDescription) &&
    |Trim(item.shortDescription)| % 3 == 0 &&
    Money.ParseCents(item.price).Some?
  }

  /** What one item adds: a fifth of its price rounded up when it earns the
      description bonus, and nothing otherwise. */
  function ItemPoints(item: Item): (p: nat) {
    if EarnsDescriptionBonus(item) then Money.CeilingOfFifth(Money.ParseCents(item.price).value) else 0
  }

  /** An item earning the bonus adds the least whole number of points that is
      at least a fifth of its price; any other item adds nothing. */
  lemma ItemRule(item: Item)
    ensures EarnsDescriptionBonus(item) ==>
      var cents := Money.ParseCents(item.price).value;
      500 * (ItemPoints(item) - 1) < cents <= 500 * ItemPoints(item)
    ensures !EarnsDescriptionBonus(item) ==> ItemPoints(item) == 0
  {
  }

  /** What all the items add, in order. */
  function ItemsPoints(items: seq<Item>): (p: nat) {
    if items == [] then 0 else ItemsPoints(items[..|items| - 1]) + ItemPoints(items[|items| - 1])
  }

  /** 6 points when the date parses and its day of the month is odd. */
  function OddDayPoints(date: string): (p: nat) {
    var parsed := Calendar.ParseDate(date);
    if parsed.Some? && parsed.value.day % 2 == 1 then 6 else 0
  }

  /** 10 points when the time parses and its hour is 14 or 15. */
  function AfternoonPoints(time: string): (p: nat) {
    var parsed := Calendar.ParseTime(time);
    if parsed.Some? && 14 <= parsed.value.hours < 16 then 10 else 0
  }

  /** The points of a receipt: the sum of the seven rules. */
  function Score(r: Receipt): (points: nat) {
    RetailerPoints(r.retailer) +
    RoundTotalPoints(r.total) + QuarterTotalPoints(r.total) +
    PairPoints(|r.items|) + ItemsPoints(r.items) +
    OddDayPoints(r.purchaseDate) + AfternoonPoints(r.purchaseTime)
  }

  /** The retailer rule adds the number of positions that hold a letter or a digit. */
  lemma {:induction false} RetailerRuleCountsLettersAndDigits(retailer: string)
    ensures RetailerPoints(retailer) == |LetterOrDigitPositions(retailer)|
  {
    CountIsNumberOfPositions(retailer);
  }

  /** "M&M Corner Market" earns 14: the ampersand and the spaces add nothing. */
  lemma {:induction false} RetailerExample()
    ensures RetailerPoints("M&M Corner Market") == 14
  {
    var a, b, c := "M&M ", "Corner", " Market";
    CornerMarketPieces();
    assert "M&M Corner Market" == a + b + c;
    CountConcat(a + b, c);
    CountConcat(a, b);
  }

  lemma {:induction false} CornerMarketPieces()
    ensures CountLetterOrDigit("M&M ") == 2
    ensures CountLetterOrDigit("Corner") == 6
    ensures CountLetterOrDigit(" Market") == 6
  {
    assert CountLetterOrDigit("M&M ") == 2;
    assert CountLetterOrDigit("Corner") == 6;
  }

  /** On a total of the validated shape the two total rules read its last two
      digits: 50 for ".00", 25 for ".00", ".25", ".50" and ".75". */
  lemma {:induction false} TotalRulesOnValidTotal(total: string)
    requires Money.IsAmount(total)
    ensures RoundTotalPoints(total) == 50 <==> total[|total| - 2..] == "00"
    ensures QuarterTotalPoints(total) == 25 <==> total[|total| - 2..] in {"00", "25", "50", "75"}
  {
    Money.WholeIffZeroCents(total);
    Money.QuarterIffQuarterCents(total);
  }

  /** A whole-number total earns both total rules, 75 points. */
  lemma WholeTotalEarnsBoth(total: string)
    requires Money.ParseCents(total).Some? && Money.ParseCents(total).value % 100 == 0
    ensures RoundTotalPoints(total) + QuarterTotalPoints(total) == 75
  {
  }

  /** A total that does not parse earns no round-total points, yet the quarter
      rule, reading the default 0, adds 25. */
  lemma UnparsedTotalEarnsQuarterOnly(total: string)
    requires Money.ParseCents(total).None?
    ensures RoundTotalPoints(total) == 0 && QuarterTotalPoints(total) == 25
  {
  }

  /** Item sums split over concatenation, so items contribute independently. */
  lemma {:induction false} ItemsPointsAppend(a: seq<Item>, b: seq<Item>)
    ensures ItemsPoints(a + b) == ItemsPoints(a) + ItemsPoints(b)
    decreases |b|
  {
    if b == [] {
      assert a + b == a;
    } else {
      var init := b[..|b| - 1];
      assert (a + b)[..|a + b| - 1] == a + init;
      ItemsPointsAppend(a, init);
    }
  }

  /** Taking one item out of a list takes exactly its own points out of the sum. */
  lemma {:induction false} ItemsPointsRemove(b: seq<Item>, j: nat)
    requires j < |b|
    ensures ItemsPoints(b) == ItemsPoints(b[..j] + b[j + 1..]) + ItemPoints(b[j])
  {
    var before, after := b[..j], b[j + 1..];
    assert b == before + [b[j]] + after;
    ItemsPointsAppend(before + [b[j]], after);
    ItemsPointsAppend(before, [b[j]]);
    ItemsPointsAppend(before, after);
    assert ItemsPoints([b[j]]) == ItemPoints(b[j]) by {
      assert [b[j]][..0] == [];
    }
  }

  /** No single item adds more than all the items together. */
  lemma {:induction false} ItemPointsAtMostItemsPoints(items: seq<Item>, j: nat)
    requires j < |items|
    ensures ItemPoints(items[j]) <= ItemsPoints(items)
  {
    ItemsPointsRemove(items, j);
  }

  /** The items add the same whatever their order. */
  lemma {:induction false} ItemsPointsIgnoresOrder(a: seq<Item>, b: seq<Item>)
    requires multiset(a) == multiset(b)
    ensures ItemsPoints(a) == ItemsPoints(b)
    decreases |a|
  {
    assert |a| == |multiset(a)| == |multiset(b)| == |b|;
    if a != [] {
      var x, init := a[|a| - 1], a[..|a| - 1];
      assert a == init + [x];
      assert x in multiset(b);
      var j :| 0 <= j < |b| && b[j] == x;
      var rest := b[..j] + b[j + 1..];
      assert b == b[..j] + [x] + b[j + 1..];
      assert multiset(init) == multiset(a) - multiset{x};
      assert multiset(rest) == multiset(b) - multiset{x};
      ItemsPointsIgnoresOrder(init, rest);
      ItemsPointsRemove(b, j);
    }
  }

  /** Reordering the items leaves the points unchanged: the pair bonus sees only
      how many items there are, and each item's bonus is its own. */
  lemma {:induction false} ScoreIgnoresItemOrder(r: Receipt, items: seq<Item>)
    requires multiset(items) == multiset(r.items)
    ensures Score(r.(items := items)) == Score(r)
  {
    assert |items| == |multiset(items)| == |r.items|;
    ItemsPointsIgnoresOrder(items, r.items);
  }
  /** A description of white space only earns nothing, whatever the price. */
  lemma BlankDescriptionEarnsNothing(item: Item)
    requires IsBlank(item.shortDescription)
    ensures ItemPoints(item) == 0
  {
  }

  /** A date earns the odd-day points exactly when it parses and its text ends in
      an odd digit; a date that does not parse earns nothing. */
  lemma {:induction false} OddDayRule(date: string)
    ensures OddDayPoints(date) == 6 <==> Calendar.ParseDate(date).Some? && date[9] in "13579"
    ensures Calendar.ParseDate(date).None? ==> OddDayPoints(date) == 0
  {
    if Calendar.ParseDate(date).Some? {
      Calendar.OddDayIffOddLastDigit(date);
    }
  }

  /** A valid purchase time earns the afternoon points exactly when it starts
      with "14" or "15": 14:00 and 15:59 earn them, 13:59 and 16:00 do not. */
  lemma {:induction false} AfternoonRule(time: string)
    requires Calendar.IsPurchaseTimeText(time)
    ensures AfternoonPoints(time) == 10 <==> time[..2] == "14" || time[..2] == "15"
  {
    Calendar.PurchaseTimeHour(time);
    assert time[..2] == [time[0], time[1]];
  }

  lemma {:induction false} AfternoonExamples()
    ensures AfternoonPoints("14:00") == 10 && AfternoonPoints("15:59") == 10
    ensures AfternoonPoints("13:59") == 0 && AfternoonPoints("16:00") == 0
  {
    assert Calendar.ParseTime("14:00") == Some(Calendar.TimeOfDay(14, 0));
    assert Calendar.ParseTime("15:59") == Some(Calendar.TimeOfDay(15, 59));
    assert Calendar.ParseTime("13:59") == Some(Calendar.TimeOfDay(13, 59));
    assert Calendar.ParseTime("16:00") == Some(Calendar.TimeOfDay(16, 0));
  }
}
