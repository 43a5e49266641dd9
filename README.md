# Receipt processor, modelled in Dafny

The receipt processor is a small web service. A client submits a receipt: a
retailer name, a purchase date and time, a list of items (each a short
description and a price) and a total. The service computes a number of reward
points for it and stores them under a new `Guid`. It answers with that id,
and it later answers the points stored under an id, or "not found".

The points are the sum of seven rules:
- one point per letter or digit of the retailer name;
- 50 when the total is a whole amount;
- 25 when the total is a multiple of 0.25;
- 5 for every two items;
- for each item whose description is not blank, whose trimmed description has a length that is a multiple of 3 and whose price parses, a fifth of its price rounded up;
- 6 for an odd day of the month;
- 10 for a purchase time from 14:00 to 15:59.

The model has these modules:

- `Text`: ASCII character classes. It counts letters and digits, implements
  `string.Trim` as two scans, and relates digit strings to their values.
- `Money`: the validated amount shape `d+.dd`. An amount is a whole number of
  cents, and parsing and formatting are checked against each other.
- `Calendar`: the time shape `HH:MM` and the ISO date form, each with a parser
  and a formatter that round-trip.
- `ItemModel` and `ReceiptModel`: the two records, as datatypes. Their
  validation attributes (`[Required]`, `[RegularExpression]`, `[MinLength]`)
  are modelled as character predicates.
- `Scoring`: each rule as a function of the receipt, and their sum `Score` over
  unbounded integers, with lemmas for the rules' properties.
- `Controller`: the controller class.
  - `CalculatePointsAsWritten` is the calculation on C# `int`s as the code
    performs it. `points +=` wraps around, and the casts and `Count` throw.
  - `CalculatePoints` is the corrected calculation, with checked additions.
  - `ProcessAsWritten` (the code's `Process`), the corrected `Process` and
    `GetPoints` work on a `receipts` map field. A ghost map records which
    receipt each entry came from. The invariant `ValidAsWritten` ties every
    stored number to the calculation as written, and `Valid` ties it to the
    checked calculation.
- `ReferenceReceipts`: the two documented example receipts (28 and 109
  points), plus single items.
- `OverflowFinding`: a valid receipt on which the calculation as written gives
  negative points.
- `Session`: two submissions and three lookups on one store.

Behaviour of the code worth noting:
- **Unparseable total.** The quarter rule reads the `totalAmount` that a failed
  `decimal.TryParse` leaves at 0, so an unparseable total earns 25.
- **Item order.** Item order never changes the points (`ScoreIgnoresItemOrder`).
- **Reused id.** Storing under an id that is already present overwrites the
  old entry.
- **Total above `int.MaxValue`.** The running total is an `int` that wraps
  past `int.MaxValue`; `Process` stores and answers the wrapped number (see
  "Findings").

## Model

| member | source | states |
|---|---|---|
| `Controller.ReceiptController.CalculatePointsAsWritten` | Receipt-Processor/Controllers/ReceiptController.cs:68-115 | The `int` calculation as written. It throws when the letter count or an item's bonus exceeds `int.MaxValue`. Otherwise it answers the sum of the seven rules reduced modulo 2^32 into the `int` range, even when the true sum is larger. |
| `Controller.ReceiptController.AddItemBonusesAsWritten` | Receipt-Processor/Controllers/ReceiptController.cs:91-99 | The `foreach` over the items. It throws (`Overflow`) exactly when some item's bonus does not fit in an `int`. Otherwise, starting from a wrapped partial sum, it answers the wrapped sum plus all item bonuses. |
| `Controller.ReceiptController.CalculatePoints` | Receipt-Processor/Controllers/ReceiptController.cs:68-115 | The corrected calculation. It answers exactly the sum of the seven rules when that sum fits in an `int`, and `Overflow` otherwise. |
| `Controller.CheckedPoints` | Receipt-Processor/Controllers/ReceiptController.cs:68-115 | A checked calculation never answers a negative number or one above `int.MaxValue`. |
| `Controller.AsWrittenAgreesInRange` | Receipt-Processor/Controllers/ReceiptController.cs:68-115 | On every receipt whose rules add up to at most `int.MaxValue`, the calculation as written and the corrected one agree on the exact sum. |
| `Controller.ItemBonus` | Receipt-Processor/Controllers/ReceiptController.cs:93-97 | The loop body for one item answers exactly that item's rule: a fifth of the price rounded up, or 0. |
| `Controller.BonusesFitIffAll` | Receipt-Processor/Controllers/ReceiptController.cs:97 | Checking the `(int)` casts item by item in loop order succeeds exactly when no item's bonus exceeds `int.MaxValue`. |
| `Controller.AddInt32IsWrap32` | Receipt-Processor/Controllers/ReceiptController.cs:73-111 | One unchecked `int` addition is the exact sum reduced modulo 2^32 into the `int` range. |
| `Controller.Wrap32Add` | Receipt-Processor/Controllers/ReceiptController.cs:73-111 | Reducing after every addition gives the same result as reducing once at the end. |
| `Controller.Lookup` | Receipt-Processor/Controllers/ReceiptController.cs:53-60 | `TryGetValue`: found exactly when the id is a key, and then the stored value. |
| `Controller.LookupAfterStore` | Receipt-Processor/Controllers/ReceiptController.cs:33 | Storing under an id changes the answer for that id only. Every other id answers as before. |
| `Controller.ReceiptController.constructor` | Receipt-Processor/Controllers/ReceiptController.cs:11 | A new store is empty and satisfies the store invariant. |
| `Controller.ReceiptController.ProcessAsWritten` | Receipt-Processor/Controllers/ReceiptController.cs:24-37 | `Process` as the code performs it. Whenever the calculation as written does not throw, its number, wrapped or not, is stored under the new id and the id is answered; the receipt is recorded under the id. All other entries are unchanged, and a reused id is overwritten. When the calculation throws, nothing changes and the answer is a server error. Every stored number stays the as-written points of its receipt. |
| `Controller.ReceiptController.Process` | Receipt-Processor/Controllers/ReceiptController.cs:24-37 | The corrected `Process`, which scores with checked arithmetic. The exact points are stored under the new id and the id is answered, with the receipt recorded under it; other entries are unchanged. When the sum does not fit in an `int`, nothing changes and the answer is a server error. Every stored number stays the exact points of its receipt. |
| `Controller.ReceiptController.GetPoints` | Receipt-Processor/Controllers/ReceiptController.cs:50-61 | Answers the stored points when the id is present and "not found" otherwise. A found value is the as-written points of the receipt submitted under that id, and the sum of its rules in a store kept by the corrected `Process`. |
| `Session.TwoReceipts` | Receipt-Processor/Controllers/ReceiptController.cs:24-61 | After two submissions to the code's `Process` (`ProcessAsWritten`) under distinct ids, of receipts whose points fit in an `int`, each id answers its own receipt's points, and an id never handed out answers "not found". |
| `Scoring.RetailerRuleCountsLettersAndDigits` | Receipt-Processor/Controllers/ReceiptController.cs:73 | The retailer rule adds exactly the number of positions that hold a letter or a digit. |
| `Text.NonAlphanumericAddsNothing` | Receipt-Processor/Controllers/ReceiptController.cs:73 | Inserting characters that are neither letters nor digits (`&`, `-`, `_`, white space) leaves the count unchanged. |
| `Text.CountConcat` | Receipt-Processor/Controllers/ReceiptController.cs:73 | The letter-and-digit count of a concatenation is the sum of the two counts. |
| `Text.CountIsNumberOfPositions` | Receipt-Processor/Controllers/ReceiptController.cs:73 | The count equals the size of the set of letter-or-digit positions. |
| `Scoring.RetailerExample` | Receipt-Processor/Controllers/ReceiptController.cs:73 | "M&M Corner Market" earns 14. |
| `Scoring.TotalRulesOnValidTotal` | Receipt-Processor/Controllers/ReceiptController.cs:76-85 | On a validated total: 50 exactly when it ends in ".00"; 25 exactly when it ends in ".00", ".25", ".50" or ".75". |
| `Scoring.WholeTotalEarnsBoth` | Receipt-Processor/Controllers/ReceiptController.cs:76-85 | A whole total earns both total rules, 75 points. |
| `Scoring.UnparsedTotalEarnsQuarterOnly` | Receipt-Processor/Controllers/ReceiptController.cs:76-82 | A total that does not parse earns no round-total points but still earns the 25 of the quarter rule. |
| `Money.ParseCents` | Receipt-Processor/Models/Receipt.cs:41 | An amount parses exactly when it has the shape `d+.dd`. The cents before and after the point are the digits' values. |
| `Money.FormatThenParse` | Receipt-Processor/Models/Receipt.cs:41 | Every number of cents has a text of the validated shape that parses back to it. |
| `Money.ParseThenFormat` | Receipt-Processor/Models/Receipt.cs:41 | A validated amount without a superfluous leading zero is the canonical text of its value, so each value has one canonical text. |
| `Money.WholeIffZeroCents` | Receipt-Processor/Controllers/ReceiptController.cs:76 | `amount % 1 == 0` exactly when the text ends in ".00". |
| `Money.QuarterIffQuarterCents` | Receipt-Processor/Controllers/ReceiptController.cs:82 | `amount % 0.25m == 0` exactly when the text ends in ".00", ".25", ".50" or ".75". |
| `Money.CeilingOfFifth` | Receipt-Processor/Controllers/ReceiptController.cs:97 | The result is the least whole number at least a fifth of the amount: `Math.Ceiling(amount * 0.2m)`. |
| `Scoring.ItemRule` | Receipt-Processor/Controllers/ReceiptController.cs:93-97 | An item earning the description bonus adds the ceiling of a fifth of its price; any other item adds 0. |
| `Scoring.BlankDescriptionEarnsNothing` | Receipt-Processor/Controllers/ReceiptController.cs:93 | A description of white space only earns nothing, whatever the price. |
| `Text.Trim` | Receipt-Processor/Controllers/ReceiptController.cs:94 | The trimmed text is no longer than the text, and neither starts nor ends with white space. |
| `Text.TrimIsInfix` | Receipt-Processor/Controllers/ReceiptController.cs:94 | The text is its trim with a blank prefix and a blank suffix around it. |
| `Text.TrimEmptyIffBlank` | Receipt-Processor/Controllers/ReceiptController.cs:93-94 | The trim is empty exactly when the text is blank, so a non-blank description has a positive trimmed length. |
| `Text.TrimOfPadded` | Receipt-Processor/Controllers/ReceiptController.cs:94 | White space around a text that neither starts nor ends with white space is exactly what `Trim` removes. |
| `Scoring.ItemsPointsAppend` | Receipt-Processor/Controllers/ReceiptController.cs:91-99 | The item bonuses of a concatenation are the sum of the two lists' bonuses, so items contribute independently. |
| `Scoring.ItemsPointsRemove` | Receipt-Processor/Controllers/ReceiptController.cs:91-99 | Taking one item out of the list takes exactly its own bonus out of the sum. |
| `Scoring.ItemsPointsIgnoresOrder` | Receipt-Processor/Controllers/ReceiptController.cs:91-99 | Two lists with the same items in any order earn the same item bonuses. |
| `Scoring.ScoreIgnoresItemOrder` | Receipt-Processor/Controllers/ReceiptController.cs:88-99 | Reordering the items leaves the receipt's points unchanged, pair bonus included. |
| `Scoring.OddDayRule` | Receipt-Processor/Controllers/ReceiptController.cs:102-105 | The odd-day points are earned exactly when the date parses and its last digit is odd. A date that does not parse earns nothing. |
| `Calendar.ParseDate` | Receipt-Processor/Controllers/ReceiptController.cs:102 | A parsed date is a real calendar date of the ISO shape, and its day is the number its last two digits spell. |
| `Calendar.FormatThenParseDate` | Receipt-Processor/Controllers/ReceiptController.cs:102 | Every calendar date has an ISO text that parses back to it. |
| `Calendar.ParseDateOfShape` | Receipt-Processor/Controllers/ReceiptController.cs:102 | A text of the ISO shape whose fields name a calendar date parses, to the date its fields name. |
| `Calendar.ParseThenFormatDate` | Receipt-Processor/Controllers/ReceiptController.cs:102 | A text that parses is the ISO text of its date, so no two texts parse to the same date. |
| `Calendar.OddDayIffOddLastDigit` | Receipt-Processor/Controllers/ReceiptController.cs:102 | A parsed day is odd exactly when the text's last digit is odd. |
| `Scoring.AfternoonRule` | Receipt-Processor/Controllers/ReceiptController.cs:108-112 | A valid time earns the afternoon points exactly when its hour is "14" or "15". |
| `Scoring.AfternoonExamples` | Receipt-Processor/Controllers/ReceiptController.cs:108-112 | 14:00 and 15:59 earn 10; 13:59 and 16:00 earn nothing. |
| `Calendar.ParseTime` | Receipt-Processor/Models/Receipt.cs:27 | A time parses exactly when it matches the `PurchaseTime` pattern, and the result is a time of day. |
| `Calendar.FormatThenParseTime` | Receipt-Processor/Models/Receipt.cs:27 | Every time of day has a text of the pattern that parses back to it. |
| `Calendar.PurchaseTimeHour` | Receipt-Processor/Models/Receipt.cs:26-27 | A valid purchase time parses, and its hour is the number its first two characters spell, in [0, 23]. |
| `ReceiptModel.ValidReceiptParses` | Receipt-Processor/Models/Receipt.cs:12-42 | For a valid receipt, with digits read as ASCII: the total and every price parse, the time parses to an hour in [0, 23], and there is at least one item. |
| `ReceiptModel.ValidReceiptWithUnparsedDate` | Receipt-Processor/Models/Receipt.cs:19-21 | A receipt can pass validation while its date does not parse. |
| `ItemModel.ValidItemHasPrice` | Receipt-Processor/Models/Item.cs:16-17 | With digits read as ASCII, the price of a valid item parses to a whole number of cents. |
| `ItemModel.BlankDescriptionMatchesPattern` | Receipt-Processor/Models/Item.cs:9-10 | A description of white space only matches the pattern; it is `[Required]` that turns it away. |
| `ReferenceReceipts.ItemPriceExamples` | Receipt-Processor/Controllers/ReceiptController.cs:97 | On a three-character description, 0.00 earns 0, 10.00 earns 2, and 2.50 is rounded up to 1. |
| `ReferenceReceipts.TargetEarns28` | Receipt-Processor/Controllers/ReceiptController.cs:68-115 | The documented "Target" receipt earns 28 points. |
| `ReferenceReceipts.CornerMarketEarns109` | Receipt-Processor/Controllers/ReceiptController.cs:68-115 | The documented "M&M Corner Market" receipt earns 109 points. |
| `OverflowFinding.AsWrittenWrapsAboveRange` | Receipt-Processor/Controllers/ReceiptController.cs:68-115 | When the rules add up to more than `int.MaxValue` and no conversion throws, the checked calculation overflows. The calculation as written instead answers a number other than the sum. |
| `OverflowFinding.WrapJustAboveRangeIsNegative` | Receipt-Processor/Controllers/ReceiptController.cs:97 | A sum between 2^31 and 2^32 - 1 wraps to a negative `int`. |
| `OverflowFinding.HeavySession` | Receipt-Processor/Controllers/ReceiptController.cs:24-61 | On that receipt the code's `Process` answers the new id, and looking the id up then answers -1894967215 points. The corrected `Process` answers a server error, and the id is not found. |
| `OverflowFinding.HeavyReceiptWraps` | Receipt-Processor/Controllers/ReceiptController.cs:68-115 | A valid receipt with two 6000000000.00 items earns 2400000081 by the rules. The calculation as written answers -1894967215 for it, and the checked one reports the overflow. |

## Left out

- HTTP layer:
  - routing, JSON binding, and the `Ok`/`NotFound` wrappers are not modelled; answers are datatypes;
  - the automatic 400 answer to an invalid receipt (`[ApiController]` model validation) is not modelled. `IsValidReceipt` states what validation accepts, but neither `ProcessAsWritten` nor `Process` requires it. `Process` itself does not check the receipt (ASP.NET rejects an invalid one before calling it), so these contracts cover every receipt, valid or not.
- Concurrency:
  - `ConcurrentDictionary` is modelled as a sequential map;
  - concurrent calls are not modelled.
- Lifetime of the store: ASP.NET creates a controller per request, so the instance field `Receipts` would start empty on every request. The model instead treats one `ReceiptController` object as persisting across all the calls it receives.
- `Guid.NewGuid` is not modelled: `ProcessAsWritten` and `Process` take the new id as a parameter. A `Guid` is a 128-bit number.
- Library parsers: `decimal.TryParse`, `DateTime.TryParse` and `TimeSpan.TryParse` accept culture-dependent forms. The model parses only the validated shapes: `d+.dd` for amounts, `HH:MM` for times (hour first, two digits), and the ISO form `yyyy-MM-dd` for dates. Other forms they would accept are treated as not parsing. This matters for the date, which validation does not check.
- The range and precision of `decimal` (96-bit, 28 digits) are not modelled. Amounts are unbounded whole numbers of cents.
- `Controller.ReceiptController.CalculatePointsAsWritten` and `Money.ParseCents`: the range of `decimal` is not modelled. In the code, an amount above `decimal.MaxValue` (about 7.9 × 10^28) makes `decimal.TryParse` fail without throwing. Such a price earns no item bonus, and such a total earns only the 25 the quarter rule gives the default 0. The model parses such an amount, so for such a price `PointsAsWritten` answers `Overflow` where the code answers a number. "It throws when an item's bonus exceeds `int.MaxValue`" holds only for amounts a `decimal` can represent.
- Unicode: `char.IsLetterOrDigit`, `string.IsNullOrWhiteSpace`, `Trim` and the pattern classes `\d`, `\w` and `\s` are restricted to ASCII. In .NET, `\d` matches any Unicode decimal digit while `decimal.TryParse` reads only `0`–`9`. So a total or price such as "٩.٠٠" passes validation but does not parse. Such a total earns the 25 of the quarter rule on the default 0 and not the 50; such a price earns no item bonus.
- `ReceiptModel.ValidReceiptParses`, `ItemModel.ValidItemHasPrice` and `Calendar.PurchaseTimeHour` hold only under this ASCII reading of `\d`. With Unicode digits, a validated amount or time need not parse. The `PurchaseTime` pattern also uses `\d`, so a time such as "14:3٣" passes validation, but `TimeSpan.TryParse` does not read it, and it earns no afternoon points.
- The regular-expression engine and the `DataAnnotations` machinery are not modelled; each pattern is an explicit character predicate.
- `null` fields, and `List`/`string` size limits, are not modelled.

## Findings

| source | as written | input that shows it | evidently intended | confidence | as-written member | corrected member |
|---|---|---|---|---|---|---|
| Receipt-Processor/Controllers/ReceiptController.cs:70-114 | The running total `points` is an `int` added to with `+=` in the default unchecked context, so a sum above `int.MaxValue` silently wraps around. `Process` stores that number and later answers it, negative or too small. | Retailer "A", date "2022-01-02", time "13:00", two items "Tea" at "6000000000.00", total "12000000000.00". The receipt is valid and its rules add up to 2400000081; the stored points are -1894967215. | Points are the sum of the rules, never negative. A sum that cannot be represented is an error, not a wrapped number. | not executed | `Controller.ReceiptController.CalculatePointsAsWritten`, `Controller.ReceiptController.ProcessAsWritten`, `OverflowFinding.HeavyReceiptWraps`, `OverflowFinding.HeavySession` | `Controller.ReceiptController.CalculatePoints`, `Controller.CheckedPoints`, `Controller.ReceiptController.Process` |
