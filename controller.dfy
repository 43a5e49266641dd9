/** The receipt service: the point calculation as the controller performs it on
    C# `int`s, and the store from receipt ids to points that `Process` writes
    and `GetPoints` reads.

    One `ReceiptController` object stands for the store across all the calls it
    receives. */
module Controller {
  import opened Wrappers
  import opened ItemModel
  import opened ReceiptModel
  import opened Scoring
  import Text
  import Money
  import Calendar

  /** `int.MinValue` and `int.MaxValue`. */
  const IntMin := -0x8000_0000
  const IntMax := 0x7FFF_FFFF

  predicate IsInt32(x: int) {
    IntMin <= x <= IntMax
  }

  /** Unchecked `int` arithmetic: `x` reduced to the 32-bit two's-complement range. */
  function Wrap32(x: int): (r: int)
    ensures IsInt32(r)
  {
    (x - IntMin) % 0x1_0000_0000 + IntMin
  }

  /** A value already in range is left alone. */
  lemma Wrap32OfInt32(x: int)
    requires IsInt32(x)
    ensures Wrap32(x) == x
  {
  }

  /** Wrapping after every addition is wrapping once at the end. */
  lemma Wrap32Add(a: int, b: int)
    ensures Wrap32(Wrap32(a) + b) == Wrap32(a + b)
  {
    var k := (a - IntMin) / 0x1_0000_0000;
    assert Wrap32(a) == a - k * 0x1_0000_0000;
    assert Wrap32(a) + b - IntMin == (a + b - IntMin) - k * 0x1_0000_0000;
  }

  /** Whether `a + b` leaves the `int` range upwards (1), downwards (-1) or not (0). */
  function Carry(a: int, b: int): (c: int) {
    if a + b > IntMax then 1 else if a + b < IntMin then -1 else 0
  }

  /** Unchecked `a + b` on two `int`s: the sum, corrected by 2^32 when it
      leaves the range. */
  function AddInt32(a: int, b: int): (s: int)
    requires IsInt32(a) && IsInt32(b)
    ensures IsInt32(s)
    ensures s == a + b - Carry(a, b) * 0x1_0000_0000
  {
    var t := a + b;
    if t > IntMax then t - 0x1_0000_0000 else if t < IntMin then t + 0x1_0000_0000 else t
  }

  /** The unchecked sum is the wrapped sum. */
  lemma AddInt32IsWrap32(a: int, b: int)
    requires IsInt32(a) && IsInt32(b)
    ensures AddInt32(a, b) == Wrap32(a + b)
  {
    Wrap32OfCongruent(a + b, AddInt32(a, b), Carry(a, b));
  }

  /** The number of times 2^32 separates `x` from its wrapped value. */
  function WrapCount(x: int): (k: int)
    ensures x == Wrap32(x) + k * 0x1_0000_0000
  {
    (x - IntMin) / 0x1_0000_0000
  }

  /** Two numbers that differ by a multiple of 2^32 wrap to the same `int`;
      one that is already an `int` wraps to itself. */
  lemma {:induction false} Wrap32OfCongruent(x: int, r: int, k: int)
    requires IsInt32(r) && x == r + k * 0x1_0000_0000
    ensures Wrap32(x) == r
  {
    assert (x - IntMin) == (r - IntMin) + k * 0x1_0000_0000;
  }

  /** Every item's bonus survives the cast to `int`, checked item by item in
      the order of the loop. */
  predicate BonusesFit(items: seq<Item>) {
    items == [] || (BonusesFit(items[..|items| - 1]) && ItemPoints(items[|items| - 1]) <= IntMax)
  }

  /** The item-by-item check holds exactly when no item's bonus exceeds `int.MaxValue`. */
  lemma BonusesFitIffAll(items: seq<Item>)
    ensures BonusesFit(items) <==> forall i :: 0 <= i < |items| ==> ItemPoints(items[i]) <= IntMax
  {
    if BonusesFit(items) {
      forall i | 0 <= i < |items| ensures ItemPoints(items[i]) <= IntMax {
        BonusesFitAt(items, i);
      }
    } else {
      FirstBonusTooLarge(items);
    }
  }

  lemma {:induction false} BonusesFitAt(items: seq<Item>, i: nat)
    requires BonusesFit(items) && i < |items|
    ensures ItemPoints(items[i]) <= IntMax
  {
    var init := items[..|items| - 1];
    if i < |init| {
      BonusesFitAt(init, i);
      assert init[i] == items[i];
    }
  }

  lemma {:induction false} FirstBonusTooLarge(items: seq<Item>)
    requires !BonusesFit(items)
    ensures exists i :: 0 <= i < |items| && ItemPoints(items[i]) > IntMax
  {
    var init, last := items[..|items| - 1], items[|items| - 1];
    if ItemPoints(last) <= IntMax {
      FirstBonusTooLarge(init);
      var i :| 0 <= i < |init| && ItemPoints(init[i]) > IntMax;
      assert init[i] == items[i];
    }
  }

  /** A list whose prefix fails the check fails it too. */
  lemma {:induction false} BonusesFitOfPrefix(items: seq<Item>, n: nat)
    requires n <= |items|
    ensures BonusesFit(items) ==> BonusesFit(items[..n])
    decreases |items| - n
  {
    if n < |items| {
      BonusesFitOfPrefix(items, n + 1);
      BonusesFitStep(items, n);
    } else {
      assert items[..n] == items;
    }
  }

  /** One more item extends the check by that item's bonus. */
  lemma BonusesFitStep(items: seq<Item>, i: nat)
    requires i < |items|
    ensures BonusesFit(items[..i + 1]) <==> BonusesFit(items[..i]) && ItemPoints(items[i]) <= IntMax
  {
    assert items[..i + 1][..i] == items[..i];
  }

  /** Adding to a wrapped partial sum gives the wrapped new sum. */
  lemma WrappedStep(points: int, amount: int, exact: int)
    requires points == Wrap32(exact) && IsInt32(amount)
    ensures AddInt32(points, amount) == Wrap32(exact + amount)
  {
    AddInt32IsWrap32(points, amount);
    Wrap32Add(exact, amount);
  }

  /** The same for an amount that is itself wrapped first. */
  lemma WrappedPairStep(points: int, amount: int, exact: int)
    requires points == Wrap32(exact)
    ensures AddInt32(points, Wrap32(amount)) == Wrap32(exact + amount)
  {
    AddInt32IsWrap32(points, Wrap32(amount));
    Wrap32Add(exact, Wrap32(amount));
    Wrap32Add(amount, exact);
  }

  /** What a point calculation gives: a number of points, or the
      `OverflowException` that ends the request with a server error. */
  datatype Outcome = Scored(points: int) | Overflow

  /** The calculation as written: `points +=` and the pair product wrap around
      on overflow, while `(int)Math.Ceiling(...)` throws for an item bonus above
      `int.MaxValue` and `Count` throws for a count above it. */
  function PointsAsWritten(r: Receipt): (o: Outcome) {
    if RetailerPoints(r.retailer) > IntMax then Overflow
    else if !BonusesFit(r.items) then Overflow
    else Scored(Wrap32(Score(r)))
  }

  /** The calculation with checked arithmetic: the exact sum of the rules, or an
      overflow when that sum does not fit in an `int`. */
  function CheckedPoints(r: Receipt): (o: Outcome)
    ensures o.Scored? ==> 0 <= o.points <= IntMax
  {
    if Score(r) <= IntMax then Scored(Score(r)) else Overflow
  }

  /** On every receipt whose points fit in an `int` the calculation as written
      and the checked one agree, and give the sum of the rules. */
  lemma {:induction false} AsWrittenAgreesInRange(r: Receipt)
    requires Score(r) <= IntMax
    ensures PointsAsWritten(r) == CheckedPoints(r) == Scored(Score(r))
  {
    forall i | 0 <= i < |r.items|
      ensures ItemPoints(r.items[i]) <= IntMax
    {
      ItemPointsAtMostItemsPoints(r.items, i);
    }
    BonusesFitIffAll(r.items);
    Wrap32OfInt32(Score(r));
  }

  /** The points taken by the items before position `j` never exceed those of
      all the items. */
  lemma {:induction false} ItemsPointsOfPrefix(items: seq<Item>, j: nat)
    requires j <= |items|
    ensures ItemsPoints(items[..j]) <= ItemsPoints(items)
  {
    assert items == items[..j] + items[j..];
    ItemsPointsAppend(items[..j], items[j..]);
  }

  /** The points of the items up to and including position `i`. */
  lemma {:induction false} ItemsPointsStep(items: seq<Item>, i: nat)
    requires i < |items|
    ensures ItemsPoints(items[..i + 1]) == ItemsPoints(items[..i]) + ItemPoints(items[i])
  {
    assert items[..i + 1][..i] == items[..i];
  }

  /** The body of the `foreach` over the items: the bonus of one item, a fifth
      of its price rounded up when its description is not blank, its trimmed
      length is a multiple of 3 and its price parses; nothing otherwise. */
  method ItemBonus(item: Item) returns (bonus: nat)
    ensures bonus == ItemPoints(item)
    ensures EarnsDescriptionBonus(item) ==>
      500 * (bonus - 1) < Money.ParseCents(item.price).value <= 500 * bonus
    ensures !EarnsDescriptionBonus(item) ==> bonus == 0
  {
    ItemRule(item);
    bonus := 0;
    if !Text.IsBlank(item.shortDescription) && |Text.Trim(item.shortDescription)| % 3 == 0 {
      var itemPrice := Money.ParseCents(item.price);
      if itemPrice.Some? {
        bonus := Money.CeilingOfFifth(itemPrice.value);
      }
    }
  }

  /** A 128-bit `Guid`. */
  newtype Guid = x: int | 0 <= x < 0x1_0000_0000_0000_0000_0000_0000_0000_0000

  /** What `GetPoints` answers: the stored points, or "not found". */
  datatype LookupResult = Found(points: int) | NotFound

  /** What `Process` answers: the id, or the server error of an overflow. */
  datatype ProcessResult = Accepted(id: Guid) | ServerError

  /** `TryGetValue` on the store. */
  function Lookup(receipts: map<Guid, int>, id: Guid): (r: LookupResult)
    ensures r.Found? <==> id in receipts
    ensures r.Found? ==> r.points == receipts[id]
  {
    if id in receipts then Found(receipts[id]) else NotFound
  }

  /** Storing under `id` changes the answer for `id` only. */
  lemma LookupAfterStore(receipts: map<Guid, int>, id: Guid, points: int, other: Guid)
    ensures Lookup(receipts[id := points], other) ==
      if other == id then Found(points) else Lookup(receipts, other)
  {
  }

  class ReceiptController {
    /** The `Receipts` dictionary. */
    var receipts: map<Guid, int>
    /** The receipt each entry was computed from. */
    ghost var submitted: map<Guid, Receipt>

    /** Every stored number is the checked points of the receipt stored under
        the same id. */
    ghost predicate Valid()
      reads this
    {
      receipts.Keys == submitted.Keys &&
      forall id :: id in receipts ==> CheckedPoints(submitted[id]) == Scored(receipts[id])
    }

    /** Every stored number is what the calculation as written gives for the
        receipt stored under the same id. */
    ghost predicate ValidAsWritten()
      reads this
    {
      receipts.Keys == submitted.Keys &&
      forall id :: id in receipts ==> PointsAsWritten(submitted[id]) == Scored(receipts[id])
    }

    constructor()
      ensures Valid() && ValidAsWritten() && receipts == map[]
    {
      receipts := map[];
      submitted := map[];
    }

    /** `CalculatePoints` as written: each rule added to `points` with
        wrap-around, and an overflow for an item bonus above `int.MaxValue`. */
    method CalculatePointsAsWritten(receipt: Receipt) returns (outcome: Outcome)
      ensures outcome == PointsAsWritten(receipt)
    {
      var items := receipt.items;
      // `points` is the running total as an `int`; the ghost `exact` is the same
      // sum over unbounded integers, `wraps` times 2^32 away from it.
      var letters := RetailerPoints(receipt.retailer);
      if letters > IntMax {
        return Overflow;
      }
      var points := letters;
      ghost var exact, wraps := letters, 0;
      var parsedTotal := Money.ParseCents(receipt.total);
      var totalAmount := parsedTotal.GetOr(0);
      if parsedTotal.Some? && totalAmount % 100 == 0 {
        points, exact, wraps := AddInt32(points, 50), exact + 50, wraps + Carry(points, 50);
      }
      if totalAmount % 25 == 0 {
        points, exact, wraps := AddInt32(points, 25), exact + 25, wraps + Carry(points, 25);
      }
      var pairs := Wrap32((|items| / 2) * 5);
      ghost var pairWraps := WrapCount((|items| / 2) * 5);
      points, exact, wraps := AddInt32(points, pairs), exact + (|items| / 2) * 5, wraps + pairWraps + Carry(points, pairs);
      assert exact == RetailerPoints(receipt.retailer) + RoundTotalPoints(receipt.total) +
        QuarterTotalPoints(receipt.total) + PairPoints(|items|);
      Wrap32OfCongruent(exact, points, wraps);
      var afterItems := AddItemBonusesAsWritten(items, points, exact);
      if afterItems.Overflow? {
        return Overflow;
      }
      points, exact := afterItems.points, exact + ItemsPoints(items);
      wraps := WrapCount(exact);
      var parsedDate := Calendar.ParseDate(receipt.purchaseDate);
      if parsedDate.Some? && parsedDate.value.day % 2 == 1 {
        points, exact, wraps := AddInt32(points, 6), exact + 6, wraps + Carry(points, 6);
      }
      var parsedTime := Calendar.ParseTime(receipt.purchaseTime);
      if parsedTime.Some? && parsedTime.value.hours >= 14 && parsedTime.value.hours < 16 {
        points, exact, wraps := AddInt32(points, 10), exact + 10, wraps + Carry(points, 10);
      }
      assert exact == Score(receipt);
      Wrap32OfCongruent(exact, points, wraps);
      return Scored(points);
    }

    /** The `foreach` over the items of the calculation as written: each item's
        bonus is cast to `int`, which throws when it exceeds `int.MaxValue`, and
        added with wrap-around to the running total `points`, which stands for
        the exact running sum `exact`. */
    method AddItemBonusesAsWritten(items: seq<Item>, points: int, ghost exact: int) returns (outcome: Outcome)
      requires points == Wrap32(exact)
      ensures outcome == if BonusesFit(items) then Scored(Wrap32(exact + ItemsPoints(items))) else Overflow
    {
      var sum := points;
      ghost var exactSum, wraps := exact, WrapCount(exact);
      var i := 0;
      while i < |items|
        invariant 0 <= i <= |items|
        invariant BonusesFit(items[..i])
        invariant exactSum == exact + ItemsPoints(items[..i])
        invariant IsInt32(sum) && exactSum == sum + wraps * 0x1_0000_0000
      {
        var bonus := ItemBonus(items[i]);
        BonusesFitStep(items, i);
        if bonus > IntMax {
          BonusesFitOfPrefix(items, i + 1);
          return Overflow;
        }
        ItemsPointsStep(items, i);
        sum, exactSum, wraps := AddInt32(sum, bonus), exactSum + bonus, wraps + Carry(sum, bonus);
        i := i + 1;
      }
      assert items[..i] == items;
      Wrap32OfCongruent(exactSum, sum, wraps);
      return Scored(sum);
    }

    /** `CalculatePoints` with every addition checked: the sum of the rules, or
        an overflow as soon as a partial sum would exceed `int.MaxValue`. */
    method CalculatePoints(receipt: Receipt) returns (outcome: Outcome)
      ensures outcome == CheckedPoints(receipt)
    {
      var items := receipt.items;
      var points := RetailerPoints(receipt.retailer);
      if points > IntMax {
        return Overflow;
      }
      var parsedTotal := Money.ParseCents(receipt.total);
      var totalAmount := parsedTotal.GetOr(0);
      if parsedTotal.Some? && totalAmount % 100 == 0 {
        points := points + 50;
      }
      if totalAmount % 25 == 0 {
        points := points + 25;
      }
      points := points + (|items| / 2) * 5;
      if points > IntMax {
        return Overflow;
      }
      ghost var beforeItems := points;
      assert beforeItems == RetailerPoints(receipt.retailer) + RoundTotalPoints(receipt.total) +
        QuarterTotalPoints(receipt.total) + PairPoints(|items|);
      var i := 0;
      while i < |items|
        invariant 0 <= i <= |items|
        invariant points == beforeItems + ItemsPoints(items[..i]) <= IntMax
      {
        var bonus := ItemBonus(items[i]);
        ItemsPointsStep(items, i);
        if points + bonus > IntMax {
          ItemsPointsOfPrefix(items, i + 1);
          return Overflow;
        }
        points := points + bonus;
        i := i + 1;
      }
      assert items[..i] == items;
      ghost var afterItems := points;
      var parsedDate := Calendar.ParseDate(receipt.purchaseDate);
      if parsedDate.Some? && parsedDate.value.day % 2 == 1 {
        points := points + 6;
      }
      var parsedTime := Calendar.ParseTime(receipt.purchaseTime);
      if parsedTime.Some? && parsedTime.value.hours >= 14 && parsedTime.value.hours < 16 {
        points := points + 10;
      }
      assert points == afterItems + OddDayPoints(receipt.purchaseDate) + AfternoonPoints(receipt.purchaseTime);
      if points > IntMax {
        return Overflow;
      }
      return Scored(points);
    }

    /** `Process` as written: score the receipt with the calculation as
        written, then store its points under the new id (overwriting, as the
        indexer does, should the id be taken already). Only an exception of
        the calculation ends the request, with nothing stored; a wrapped sum is
        stored and the id answered. */
    method ProcessAsWritten(receipt: Receipt, newId: Guid) returns (result: ProcessResult)
      requires ValidAsWritten()
      modifies this
      ensures ValidAsWritten()
      ensures PointsAsWritten(receipt).Scored? ==>
        result == Accepted(newId) &&
        receipts == old(receipts)[newId := PointsAsWritten(receipt).points] &&
        submitted == old(submitted)[newId := receipt]
      ensures PointsAsWritten(receipt).Overflow? ==>
        result == ServerError && receipts == old(receipts) && submitted == old(submitted)
    {
      var outcome := CalculatePointsAsWritten(receipt);
      if outcome.Overflow? {
        return ServerError;
      }
      receipts := receipts[newId := outcome.points];
      submitted := submitted[newId := receipt];
      return Accepted(newId);
    }

    /** The corrected `Process`: score the receipt with checked arithmetic, then
        store its points under the new id (overwriting, as the indexer does,
        should the id be taken already). An overflow ends the request with
        nothing stored. */
    method Process(receipt: Receipt, newId: Guid) returns (result: ProcessResult)
      requires Valid()
      modifies this
      ensures Valid()
      ensures CheckedPoints(receipt).Scored? ==>
        result == Accepted(newId) &&
        receipts == old(receipts)[newId := CheckedPoints(receipt).points] &&
        submitted == old(submitted)[newId := receipt]
      ensures CheckedPoints(receipt).Overflow? ==>
        result == ServerError && receipts == old(receipts) && submitted == old(submitted)
    {
      var outcome := CalculatePoints(receipt);
      if outcome.Overflow? {
        return ServerError;
      }
      receipts := receipts[newId := outcome.points];
      submitted := submitted[newId := receipt];
      return Accepted(newId);
    }

    /** `GetPoints`: the points stored under `id`, or "not found". A found
        number is what the store's calculation gives for the receipt submitted
        under `id`. */
    method GetPoints(id: Guid) returns (result: LookupResult)
      ensures result == Lookup(receipts, id)
      ensures Valid() && result.Found? ==> id in submitted && result.points == Score(submitted[id])
      ensures ValidAsWritten() && result.Found? ==>
        id in submitted && PointsAsWritten(submitted[id]) == Scored(result.points)
    {
      if id in receipts {
        return Found(receipts[id]);
      }
      return NotFound;
    }
  }
}
