/** A client session against one store: two receipts are submitted under two
    distinct new ids, then both ids and an id never handed out are looked up. */
module Session {
  import opened ReceiptModel
  import opened Scoring
  import opened Controller

  /** With the code's `Process`, each receipt's points are found under its own
      id, neither submission disturbs the other, and an id never handed out is
      not found. */
  method TwoReceipts(a: Receipt, b: Receipt, idA: Guid, idB: Guid, other: Guid)
    returns (pointsA: LookupResult, pointsB: LookupResult, unknown: LookupResult)
    requires Score(a) <= IntMax && Score(b) <= IntMax
    requires idA != idB && other != idA && other != idB
    ensures pointsA == Found(Score(a))
    ensures pointsB == Found(Score(b))
    ensures unknown == NotFound
  {
    AsWrittenAgreesInRange(a);
    AsWrittenAgreesInRange(b);
    var store := new ReceiptController();
    var first := store.ProcessAsWritten(a, idA);
    var second := store.ProcessAsWritten(b, idB);
    assert store.receipts == map[idA := Score(a), idB := Score(b)];
    pointsA := store.GetPoints(idA);
    pointsB := store.GetPoints(idB);
    unknown := store.GetPoints(other);
  }
}
