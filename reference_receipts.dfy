/** The two reference receipts of the service's documentation and a few single
    items, scored by the rules. Each literal fact (a trimmed length, a parsed
    amount, date or time) is established on its own and then combined. */
module ReferenceReceipts {
  import opened Text
  import opened Wrappers
  import opened ItemModel
  import opened ReceiptModel
  import opened Scoring
  import Money
  import Calendar

  const Target := Receipt(
    "Target", "2022-01-01", "13:01",
    [Item("Mountain Dew 12PK", "6.49"),
     Item("Emils Cheese Pizza", "12.25"),
     Item("Knorr Creamy Chicken", "1.26"),
     Item("Doritos Nacho Cheese", "3.35"),
     Item("   Klarbrunn 12-PK 12 FL OZ  ", "12.00")],
    "35.35")

  const CornerMarket := Receipt(
    "M&M Corner Market", "2022-03-20", "14:33",
    [Item("Gatorade", "2.25"), Item("Gatorade", "2.25"), Item("Gatorade", "2.25"), Item("Gatorade", "2.25")],
    "9.00")

  /** An item whose trimmed description has a length that is not a multiple of
      3 adds nothing, whatever its price. */
  lemma {:induction false} WithoutBonus(item: Item, n: nat)
    requires |Trim(item.shortDescription)| == n && n % 3 != 0
    ensures ItemPoints(item) == 0
  {
  }

  /** An item whose trimmed description is non-empty with a length that is a
      multiple of 3 adds a fifth of its price, rounded up. */
  lemma {:induction false} WithBonus(item: Item, n: nat, cents: nat)
    requires |Trim(item.shortDescription)| == n && n > 0 && n % 3 == 0
    requires Money.ParseCents(item.price) == Some(cents)
    ensures ItemPoints(item) == Money.CeilingOfFifth(cents)
  {
    TrimEmptyIffBlank(item.shortDescription);
  }

  lemma {:induction false} Snoc(items: seq<Item>, x: Item)
    ensures ItemsPoints(items + [x]) == ItemsPoints(items) + ItemPoints(x)
  {
    assert (items + [x])[..|items|] == items;
  }

  lemma {:induction false} FourItems(a: Item, b: Item, c: Item, d: Item)
    ensures ItemsPoints([a, b, c, d]) == ItemPoints(a) + ItemPoints(b) + ItemPoints(c) + ItemPoints(d)
  {
    Snoc([], a);
    Snoc([a], b);
    Snoc([a, b], c);
    Snoc([a, b, c], d);
    assert [] + [a] == [a];
    assert [a] + [b] == [a, b];
    assert [a, b] + [c] == [a, b, c];
    assert [a, b, c] + [d] == [a, b, c, d];
  }

  lemma {:induction false} FiveItems(a: Item, b: Item, c: Item, d: Item, e: Item)
    ensures ItemsPoints([a, b, c, d, e]) ==
      ItemPoints(a) + ItemPoints(b) + ItemPoints(c) + ItemPoints(d) + ItemPoints(e)
  {
    FourItems(a, b, c, d);
    Snoc([a, b, c, d], e);
    assert [a, b, c, d] + [e] == [a, b, c, d, e];
  }

  lemma {:induction false} TeaPrices()
    ensures Money.ParseCents("0.00") == Some(0)
    ensures Money.ParseCents("2.50") == Some(250)
    ensures Money.ParseCents("10.00") == Some(1000)
  {
    assert Money.FormatCents(0) == "0.00";
    Money.FormatThenParse(0);
    assert Money.FormatCents(250) == "2.50";
    Money.FormatThenParse(250);
    assert Money.FormatCents(1000) == "10.00";
    Money.FormatThenParse(1000);
  }

  /** On a three-character description a price of 0.00 earns 0, 10.00 earns
      exactly 2, and 2.50 (a fifth of which is 0.5) is rounded up to 1. */
  lemma {:induction false} ItemPriceExamples()
    ensures ItemPoints(Item("Tea", "0.00")) == 0
    ensures ItemPoints(Item("Tea", "10.00")) == 2
    ensures ItemPoints(Item("Tea", "2.50")) == 1
  {
    TrimOfUnpadded("Tea");
    TeaPrices();
    WithBonus(Item("Tea", "0.00"), 3, 0);
    WithBonus(Item("Tea", "10.00"), 3, 1000);
    WithBonus(Item("Tea", "2.50"), 3, 250);
  }

  lemma {:induction false} TargetPrices()
    ensures Money.ParseCents("12.25") == Some(1225)
    ensures Money.ParseCents("12.00") == Some(1200)
  {
    assert Money.FormatCents(1225) == "12.25";
    Money.FormatThenParse(1225);
    assert Money.FormatCents(1200) == "12.00";
    Money.FormatThenParse(1200);
  }

  /** The padded description loses three spaces in front and two behind. */
  lemma {:induction false} KlarbrunnTrimmed()
    ensures |Trim("   Klarbrunn 12-PK 12 FL OZ  ")| == 24
  {
    var s := "   Klarbrunn 12-PK 12 FL OZ  ";
    assert s[3] == 'K' && s[26] == 'Z';
    assert LeadingWhiteSpace(s, 3) == 0;
    assert LeadingWhiteSpace(s, 0) == 3;
    assert TrailingWhiteSpace(s, 3, 27) == 0;
    assert TrailingWhiteSpace(s, 3, |s|) == 2;
  }

  lemma {:induction false} TargetItemsWithoutBonus()
    ensures ItemPoints(Target.items[0]) == 0
    ensures ItemPoints(Target.items[2]) == 0
    ensures ItemPoints(Target.items[3]) == 0
  {
    TrimOfUnpadded("Mountain Dew 12PK");
    WithoutBonus(Target.items[0], 17);
    TrimOfUnpadded("Knorr Creamy Chicken");
    WithoutBonus(Target.items[2], 20);
    TrimOfUnpadded("Doritos Nacho Cheese");
    WithoutBonus(Target.items[3], 20);
  }

  lemma {:induction false} TargetItemsWithBonus()
    ensures ItemPoints(Target.items[1]) == 3
    ensures ItemPoints(Target.items[4]) == 3
  {
    TargetPrices();
    TrimOfUnpadded("Emils Cheese Pizza");
    WithBonus(Target.items[1], 18, 1225);
    KlarbrunnTrimmed();
    WithBonus(Target.items[4], 24, 1200);
  }

  /** Five items make two pairs. Of them only "Emils Cheese Pizza" (18 characters, 12.25) and
      the trimmed "Klarbrunn 12-PK 12 FL OZ" (24 characters, 12.00) earn,
      3 points each. */
  lemma {:induction false} TargetItemsEarn6()
    ensures PairPoints(|Target.items|) == 10
    ensures ItemsPoints(Target.items) == 6
  {
    var t := Target.items;
    FiveItems(t[0], t[1], t[2], t[3], t[4]);
    assert t == [t[0], t[1], t[2], t[3], t[4]];
    TargetItemsWithoutBonus();
    TargetItemsWithBonus();
  }

  /** 35.35 is neither whole nor a multiple of 0.25. */
  lemma {:induction false} TargetTotalRules()
    ensures RoundTotalPoints(Target.total) == 0 && QuarterTotalPoints(Target.total) == 0
  {
    assert Money.FormatCents(3535) == "35.35";
    Money.FormatThenParse(3535);
  }

  /** The first of January is odd and 13:01 is before two o'clock. */
  lemma {:induction false} TargetMomentRules()
    ensures OddDayPoints(Target.purchaseDate) == 6 && AfternoonPoints(Target.purchaseTime) == 0
  {
    assert Calendar.FormatDate(Calendar.Date(2022, 1, 1)) == "2022-01-01";
    Calendar.FormatThenParseDate(Calendar.Date(2022, 1, 1));
  }

  lemma {:induction false} TargetNameRule()
    ensures RetailerPoints(Target.retailer) == 6
  {
    assert CountLetterOrDigit("Target") == 6;
  }

  /** The "Target" receipt earns 28 points: 6 for the name, 10 for two pairs,
      6 for its items, 6 for the first of January. */
  lemma {:induction false} TargetEarns28()
    ensures Score(Target) == 28
  {
    TargetNameRule();
    TargetTotalRules();
    TargetMomentRules();
    TargetItemsEarn6();
  }

  /** 9.00 is whole, and so also a multiple of 0.25. */
  lemma {:induction false} CornerMarketTotalRules()
    ensures RoundTotalPoints(CornerMarket.total) == 50 && QuarterTotalPoints(CornerMarket.total) == 25
  {
    assert Money.FormatCents(900) == "9.00";
    Money.FormatThenParse(900);
  }

  /** The 20th is even and 14:33 is between two and four o'clock. */
  lemma {:induction false} CornerMarketMomentRules()
    ensures OddDayPoints(CornerMarket.purchaseDate) == 0 && AfternoonPoints(CornerMarket.purchaseTime) == 10
  {
    assert Calendar.FormatDate(Calendar.Date(2022, 3, 20)) == "2022-03-20";
    Calendar.FormatThenParseDate(Calendar.Date(2022, 3, 20));
  }

  /** Four "Gatorade" items (8 characters) make two pairs and earn nothing
      for their descriptions. */
  lemma {:induction false} CornerMarketItemsEarnNothing()
    ensures PairPoints(|CornerMarket.items|) == 10
    ensures ItemsPoints(CornerMarket.items) == 0
  {
    var g := CornerMarket.items[0];
    TrimOfUnpadded("Gatorade");
    WithoutBonus(g, 8);
    FourItems(g, g, g, g);
    assert CornerMarket.items == [g, g, g, g];
  }

  lemma {:induction false} CornerMarketNameRule()
    ensures RetailerPoints(CornerMarket.retailer) == 14
  {
    RetailerExample();
  }

  /** The "M&M Corner Market" receipt earns 109 points: 14 for the name, 75 for
      the whole total, 10 for two pairs, 10 for 14:33. */
  lemma {:induction false} CornerMarketEarns109()
    ensures Score(CornerMarket) == 109
  {
    CornerMarketNameRule();
    CornerMarketTotalRules();
    CornerMarketMomentRules();
    CornerMarketItemsEarnNothing();
  }
}
