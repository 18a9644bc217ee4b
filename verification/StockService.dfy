/**
 The stock service as the program writes it: a class that locks and reads the parts,
 validates everything, then writes absolute stock values line by line. Each method is
 one transaction and is proved to be the corresponding function of module Stock.
 */
module StockServices {
  import opened Identifiers
  import opened Canonical
  import opened Errors
  import opened Stock

  lemma {:induction false} QuantityOfSnoc(items: seq<Item>, x: Item, p: PartId)
    ensures QuantityOf(items + [x], p) == QuantityOf(items, p) + if x.partId == p then x.quantity else 0
  {
    if items == [] {
      assert items + [x] == [x] && [x][1..] == [];
    } else {
      assert (items + [x])[1..] == items[1..] + [x];
      QuantityOfSnoc(items[1..], x, p);
    }
  }

  /** Writing line i of distinct lines extends what the first i lines have written. */
  lemma WriteIsFresh(items: seq<Item>, i: nat, p: PartId)
    requires Distinct(items) && i < |items|
    ensures QuantityOf(items[..i + 1], p) == if items[i].partId == p then items[i].quantity
      else QuantityOf(items[..i], p)
  {
    assert items[..i + 1] == items[..i] + [items[i]];
    QuantityOfSnoc(items[..i], items[i], p);
    if items[i].partId == p {
      QuantityAbsent(items[..i], p);
    }
  }

  /** One absolute write, computed from the stock read before the loop, is one more line of the total effect. */
  lemma DeductStep(parts: map<PartId, Part>, items: seq<Item>, i: nat, now: Time)
    requires ValidItems(items) && i < |items| && items[i].partId in parts
    ensures var p := items[i].partId;
      var done := Deduct(parts, items[..i], now);
      && p in done
      && Deduct(parts, items[..i + 1], now) ==
        done[p := done[p].(stock := parts[p].stock - items[i].quantity, updatedAt := now)]
  {
    assert ValidItem(items[i]);
    forall p | p in parts
      ensures QuantityOf(items[..i + 1], p) == if items[i].partId == p then items[i].quantity
        else QuantityOf(items[..i], p)
    {
      WriteIsFresh(items, i, p);
    }
  }

  lemma RestoreStep(parts: map<PartId, Part>, items: seq<Item>, i: nat, now: Time)
    requires ValidItems(items) && i < |items| && items[i].partId in parts
    ensures var p := items[i].partId;
      var done := Restore(parts, items[..i], now);
      && p in done
      && Restore(parts, items[..i + 1], now) ==
        done[p := done[p].(stock := parts[p].stock + items[i].quantity, updatedAt := now)]
  {
    assert ValidItem(items[i]);
    forall p | p in parts
      ensures QuantityOf(items[..i + 1], p) == if items[i].partId == p then items[i].quantity
        else QuantityOf(items[..i], p)
    {
      WriteIsFresh(items, i, p);
    }
  }

  lemma NothingToDo(parts: map<PartId, Part>, now: Time)
    ensures Deduct(parts, [], now) == parts && Restore(parts, [], now) == parts
  {
  }

  lemma SameNewOperation(parts: map<PartId, Part>, snapshot: map<PartId, Part>, items: seq<Item>, now: Time)
    requires forall i :: 0 <= i < |items| ==>
      items[i].partId in parts && items[i].partId in snapshot && snapshot[items[i].partId] == parts[items[i].partId]
    ensures NewOperation(snapshot, items, now) == NewOperation(parts, items, now)
  {
    assert NewOperation(snapshot, items, now).lines == NewOperation(parts, items, now).lines;
  }

  /** Some lines of a released operation already carry their release data. */
  function PartlyReleased(parts: map<PartId, Part>, lines: seq<Line>, n: nat): seq<Line>
    requires n <= |lines| && forall i :: 0 <= i < |lines| ==> lines[i].partId in parts
  {
    seq(|lines|, i requires 0 <= i < |lines| => if i < n then ReleasedLine(parts[lines[i].partId], lines[i])
      else lines[i])
  }

  lemma PartlyReleasedStep(parts: map<PartId, Part>, op: Operation, i: nat, now: Time)
    requires forall j :: 0 <= j < |op.lines| ==> op.lines[j].partId in parts
    ensures i < |op.lines| ==>
      var lines := PartlyReleased(parts, op.lines, i);
      && lines[i] == op.lines[i]
      && PartlyReleased(parts, op.lines, i + 1) == lines[i := ReleasedLine(parts[lines[i].partId], lines[i])]
    ensures PartlyReleased(parts, op.lines, 0) == op.lines
    ensures ReleasedOperation(parts, op, now) ==
      op.(status := Released, releasedAt := Some(now), lines := PartlyReleased(parts, op.lines, |op.lines|))
  {
    assert ReleasedOperation(parts, op, now).lines == PartlyReleased(parts, op.lines, |op.lines|);
  }

  class StockService {
    var parts: map<PartId, Part>
    var ledger: map<OrderId, Operation>

    constructor (catalogue: map<PartId, Part>)
      ensures Contents() == Db(catalogue, map[])
    {
      parts, ledger := catalogue, map[];
    }

    function Contents(): Db
      reads this
    {
      Db(parts, ledger)
    }

    /**
     `lockParts`: exactly the ids that exist among those asked for, each with its row as the
     transaction sees it while it holds the lock.
     */
    method LockParts(ids: set<PartId>) returns (partsById: map<PartId, Part>)
      ensures partsById.Keys == parts.Keys * ids
      ensures forall id :: id in partsById ==> partsById[id] == parts[id]
    {
      partsById := map p | p in parts && p in ids :: parts[p];
    }

    method Reserve(orderId: OrderId, items: seq<Item>, now: Time) returns (answer: Answer)
      requires ValidItems(items)
      modifies this
      ensures (Contents(), answer) == Stock.Reserve(old(Contents()), orderId, items, now)
    {
      hide ValidItems, Distinct, Fingerprint, Deduct, Restore, QuantityOf, ReserveResult, NewOperation, IsUuid, Items;
      NothingToDo(parts, now);
      var requestHash := Fingerprint(items);
      if orderId in ledger {
        var existing := ledger[orderId];
        if existing.requestHash != requestHash { return Refused(OrderIdConflict(orderId)); }
        if existing.status == Released { return Refused(ReservationAlreadyReleased(orderId)); }
        return Granted(ReserveResult(orderId, existing, true));
      }

      var partsById := LockParts(set i | 0 <= i < |items| :: items[i].partId);
      SnapshotSuffices(parts, partsById, items);
      var missing := Missing(partsById, items);
      if missing != [] { return Refused(PartsNotFound(missing)); }
      var shortages := Shortages(partsById, items);
      if shortages != [] { return Refused(InsufficientStock(shortages)); }

      ghost var before := parts;
      assert forall j :: 0 <= j < |items| ==>
        items[j].partId in before && items[j].partId in partsById
          && partsById[items[j].partId] == before[items[j].partId];
      for i := 0 to |items|
        invariant parts == Deduct(before, items[..i], now)
        invariant ledger == old(ledger)
      {
        var part := partsById[items[i].partId];
        DeductStep(before, items, i, now);
        parts := parts[items[i].partId := parts[items[i].partId].(stock :=
          part.stock - items[i].quantity, updatedAt := now)];
      }
      assert items[..|items|] == items;
      var operation := NewOperation(partsById, items, now);
      SameNewOperation(before, partsById, items, now);
      ledger := ledger[orderId := operation];
      return Granted(ReserveResult(orderId, operation, false));
    }

    /** The rows of an operation name distinct parts (unique index) with positive quantities (CHECK). */
    method Release(orderId: OrderId, now: Time) returns (answer: Answer)
      requires orderId in ledger ==> ValidItems(Items(ledger[orderId]))
      modifies this
      ensures (Contents(), answer) == Stock.Release(old(Contents()), orderId, now)
    {
      hide ValidItems, Distinct, Fingerprint, Restore, QuantityOf, ReleaseResult, ReleasedOperation, PartlyReleased;
      NothingToDo(parts, now);
      if orderId !in ledger { return Refused(ReservationNotFound(orderId)); }
      var operation := ledger[orderId];
      if operation.status == Released { return ReleaseResult(orderId, operation, true); }

      var items := Items(operation);
      var partsById := LockParts(set i | 0 <= i < |items| :: items[i].partId);
      SnapshotSuffices(parts, partsById, items);
      if Missing(partsById, items) != [] { return Threw; }
      assert forall i :: 0 <= i < |items| ==> items[i].partId == operation.lines[i].partId;

      var lines := RestoreLines(operation, partsById, now);
      PartlyReleasedStep(old(parts), operation, 0, now);
      var released := operation.(status := Released, releasedAt := Some(now), lines := lines);
      ledger := ledger[orderId := released];
      return ReleaseResult(orderId, released, false);
    }

    /** The write loop of a release: each line restores its part and records the stock before and after. */
    method RestoreLines(operation: Operation, partsById: map<PartId, Part>, now: Time) returns (lines: seq<Line>)
      requires ValidItems(Items(operation))
      requires forall i :: 0 <= i < |operation.lines| ==>
        var p := operation.lines[i].partId; p in parts && p in partsById && partsById[p] == parts[p]
      modifies this`parts
      ensures parts == Restore(old(parts), Items(operation), now)
      ensures lines == PartlyReleased(old(parts), operation.lines, |operation.lines|)
    {
      hide ValidItems, Restore, QuantityOf, PartlyReleased;
      ghost var before := parts;
      ghost var items := Items(operation);
      NothingToDo(parts, now);
      lines := operation.lines;
      PartlyReleasedStep(before, operation, 0, now);
      for i := 0 to |operation.lines|
        invariant |lines| == |operation.lines|
        invariant parts == Restore(before, items[..i], now)
        invariant lines == PartlyReleased(before, operation.lines, i)
      {
        PartlyReleasedStep(before, operation, i, now);
        assert items[i] == Item(lines[i].partId, lines[i].quantity);
        RestoreStep(before, items, i, now);
        var stockBefore := partsById[lines[i].partId].stock;
        var stockAfter := stockBefore + lines[i].quantity;
        parts := parts[lines[i].partId := parts[lines[i].partId].(stock := stockAfter, updatedAt := now)];
        lines := lines[i := lines[i].(releasedBefore := Some(stockBefore), releasedAfter := Some(stockAfter))];
      }
      assert items[..|items|] == items;
    }
  }
}
