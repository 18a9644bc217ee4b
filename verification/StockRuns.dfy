/**
 What the stock service promises over whole runs: exact replays, one effective
 deduction and restoration per order, the audit chain, and exact admission.
 */
module StockRuns {
  import opened Identifiers
  import opened Canonical
  import opened Errors
  import opened Sums
  import opened Stock

  lemma {:induction false} ExecConcat(db: Db, a: seq<StockCall>, b: seq<StockCall>)
    ensures Exec(db, a + b) == Exec(Exec(db, a), b)
  {
    if b == [] {
      assert a + b == a;
    } else {
      assert (a + b)[..|a + b| - 1] == a + b[..|b| - 1];
      ExecConcat(db, a, b[..|b| - 1]);
    }
  }

  lemma ServeNeverThrows(db: Db, initial: map<PartId, int>, call: StockCall)
    requires DbInv(db, initial)
    ensures Serve(db, call).1 != Threw
  {
    hide IsUuid, Fingerprint, TotalHeld, QuantityOf;
    if call.ReleaseCall? && call.orderId in db.ledger {
      var op := db.ledger[call.orderId];
      assert OperationOk(op, db.parts.Keys);
      assert forall i :: 0 <= i < |op.lines| ==>
        LineOk(op.lines[i], op.status) && Items(op)[i].partId == op.lines[i].partId;
    }
  }

  // ---------- all or nothing ----------

  /** Line i of an answer reports what the part and the item were, and the stock before and after. */
  predicate Reports(m: Mutation, part: Part, item: Item, stockBefore: int, stockAfter: int) {
    && m.partId == item.partId && m.quantity == item.quantity && m.sku == part.sku && m.name == part.name
    && m.stockBefore == stockBefore && m.stockAfter == stockAfter
  }

  /** A fresh grant answers and records every line in order, with the part as it was, and the time of the call. */
  lemma GrantIsRecorded(db: Db, orderId: OrderId, items: seq<Item>, now: Time)
    requires orderId !in db.ledger && CanDeduct(db.parts, items)
    ensures var (after, answer) := Reserve(db, orderId, items, now);
      && answer.Granted? && answer.result.orderId == orderId && answer.result.processedAt == now
      && |answer.result.items| == |items|
      && (forall i :: 0 <= i < |items| ==>
            var part := db.parts[items[i].partId];
            Reports(answer.result.items[i], part, items[i], part.stock, part.stock - items[i].quantity))
      && after.ledger.Keys == db.ledger.Keys + {orderId}
      && var row := after.ledger[orderId];
         && row.status == Reserved && row.reservedAt == now && row.releasedAt == None && |row.lines| == |items|
         && forall i :: 0 <= i < |items| ==>
              var part := db.parts[items[i].partId];
              row.lines[i] == Line(i + 1, items[i].partId, part.sku, part.name, items[i].quantity,
                                   part.stock, part.stock - items[i].quantity, None, None)
  {
    hide IsUuid, Fingerprint, QuantityOf, Deduct;
  }

  /** A written part keeps its sku and name, and is stamped with the time of the call. */
  predicate Written(part: Part, later: Part, stock: int, now: Time) {
    later.sku == part.sku && later.name == part.name && later.stock == stock && later.updatedAt == now
  }

  /**
   A call that is not granted afresh changes nothing; a fresh reserve is granted exactly when every
   line can be deducted.
   */
  lemma ReserveAllOrNothing(db: Db, orderId: OrderId, items: seq<Item>, now: Time)
    requires Distinct(items)
    ensures var (after, answer) := Reserve(db, orderId, items, now);
      var effective := orderId !in db.ledger && CanDeduct(db.parts, items);
      && (effective ==>
            && answer.Granted? && !answer.result.replayed && orderId in after.ledger
            && answer.result.orderId == orderId && answer.result.processedAt == now && |answer.result.items| == |items|)
      && (!effective ==> after == db && (answer.Granted? ==> answer.result.replayed))
      && (effective ==> forall i :: 0 <= i < |items| ==>
            && after.parts[items[i].partId].stock == db.parts[items[i].partId].stock - items[i].quantity
            && Reports(answer.result.items[i], db.parts[items[i].partId], items[i],
                       db.parts[items[i].partId].stock, after.parts[items[i].partId].stock)
            && (items[i].quantity > 0 ==>
                  Written(db.parts[items[i].partId], after.parts[items[i].partId],
                          db.parts[items[i].partId].stock - items[i].quantity, now)))
      && (effective ==> forall p :: p in db.parts && (forall i :: 0 <= i < |items| ==> items[i].partId != p) ==>
        after.parts[p] == db.parts[p])
  {
    hide IsUuid, Fingerprint, QuantityOf;
    var after := Reserve(db, orderId, items, now).0;
    if orderId !in db.ledger && CanDeduct(db.parts, items) {
      GrantIsRecorded(db, orderId, items, now);
      forall i | 0 <= i < |items|
        ensures items[i].quantity > 0 ==>
          Written(db.parts[items[i].partId], after.parts[items[i].partId],
                  db.parts[items[i].partId].stock - items[i].quantity, now)
        ensures after.parts[items[i].partId].stock == db.parts[items[i].partId].stock - items[i].quantity
      {
        QuantityPresent(items, i);
      }
      forall p | p in db.parts && forall i :: 0 <= i < |items| ==> items[i].partId != p
        ensures after.parts[p] == db.parts[p]
      {
        QuantityAbsent(items, p);
      }
    }
  }

  predicate Short(parts: map<PartId, Part>, item: Item) {
    item.partId in parts && parts[item.partId].stock < item.quantity
  }

  function ShortageOf(parts: map<PartId, Part>, item: Item): Shortage
    requires Short(parts, item)
  {
    Shortage(item.partId, item.quantity, parts[item.partId].stock)
  }

  predicate ShortLine(parts: map<PartId, Part>, items: seq<Item>, x: Shortage) {
    exists i :: 0 <= i < |items| && Short(parts, items[i]) && x == ShortageOf(parts, items[i])
  }

  lemma {:induction false} MissingAre(parts: map<PartId, Part>, items: seq<Item>, p: PartId)
    ensures p in Missing(parts, items) <==> p !in parts && exists i :: 0 <= i < |items| && items[i].partId == p
  {
    if items != [] {
      MissingAre(parts, items[1..], p);
      assert items == [items[0]] + items[1..];
      if i :| 0 <= i < |items[1..]| && items[1..][i].partId == p { assert items[i + 1].partId == p; }
    }
  }

  lemma {:induction false} ShortagesAre(parts: map<PartId, Part>, items: seq<Item>, x: Shortage)
    requires forall i :: 0 <= i < |items| ==> items[i].partId in parts
    ensures x in Shortages(parts, items) <==> ShortLine(parts, items, x)
  {
    if items != [] {
      ShortagesAre(parts, items[1..], x);
      assert items == [items[0]] + items[1..];
      if i :| 0 <= i < |items[1..]| && Short(parts, items[1..][i]) && x == ShortageOf(parts, items[1..][i]) {
        assert items[i + 1] == items[1..][i];
      }
    }
  }

  /** Missing parts are listed in the order of the request: what a list adds comes after what was there. */
  lemma {:induction false} MissingInOrder(parts: map<PartId, Part>, items: seq<Item>, x: Item)
    ensures Missing(parts, items + [x]) == Missing(parts, items) + if x.partId in parts then [] else [x.partId]
  {
    if items == [] {
      assert items + [x] == [x] && [x][1..] == [];
    } else {
      assert (items + [x])[0] == items[0] && (items + [x])[1..] == items[1..] + [x];
      MissingInOrder(parts, items[1..], x);
    }
  }

  /** And so are short lines. */
  lemma {:induction false} ShortagesInOrder(parts: map<PartId, Part>, items: seq<Item>, x: Item)
    requires x.partId in parts && forall i :: 0 <= i < |items| ==> items[i].partId in parts
    ensures Shortages(parts, items + [x]) ==
      Shortages(parts, items) + if Short(parts, x) then [ShortageOf(parts, x)] else []
  {
    if items == [] {
      assert items + [x] == [x] && [x][1..] == [];
    } else {
      assert (items + [x])[0] == items[0] && (items + [x])[1..] == items[1..] + [x];
      ShortagesInOrder(parts, items[1..], x);
    }
  }

  /** Each refusal of a reserve has exactly one cause, and lists exactly the missing parts or the short lines. */
  lemma RefusalsAreExact(db: Db, o: OrderId, items: seq<Item>, now: Time)
    ensures var answer := Reserve(db, o, items, now).1;
      var missing := exists i :: 0 <= i < |items| && items[i].partId !in db.parts;
      var short := exists i :: 0 <= i < |items| && Short(db.parts, items[i]);
      && (answer == Refused(OrderIdConflict(o)) <==> o in db.ledger && db.ledger[o].requestHash != Fingerprint(items))
      && (answer == Refused(ReservationAlreadyReleased(o)) <==>
            o in db.ledger && db.ledger[o].requestHash == Fingerprint(items) && db.ledger[o].status == Released)
      && ((answer.Refused? && answer.error.PartsNotFound?) <==> o !in db.ledger && missing)
      && ((answer.Refused? && answer.error.InsufficientStock?) <==> o !in db.ledger && !missing && short)
      && (answer.Refused? && answer.error.PartsNotFound? ==> forall p :: p in answer.error.partIds <==>
            p !in db.parts && exists i :: 0 <= i < |items| && items[i].partId == p)
      && (answer.Refused? && answer.error.InsufficientStock? ==>
        forall x :: x in answer.error.shortages <==> ShortLine(db.parts, items, x))
  {
    hide Fingerprint, NewOperation, ReserveResult, Deduct;
    forall p ensures p in Missing(db.parts, items) <==> p !in db.parts && exists i ::
      0 <= i < |items| && items[i].partId == p {
      MissingAre(db.parts, items, p);
    }
    if Missing(db.parts, items) == [] {
      forall x ensures x in Shortages(db.parts, items) <==> ShortLine(db.parts, items, x) {
        ShortagesAre(db.parts, items, x);
      }
    }
  }

  /** A first release answers and records every line of its row in order, and the time of the call. */
  lemma ReleaseIsRecorded(db: Db, initial: map<PartId, int>, orderId: OrderId, now: Time)
    requires DbInv(db, initial) && orderId in db.ledger && db.ledger[orderId].status == Reserved
    ensures var (after, answer) := Release(db, orderId, now);
      var row := db.ledger[orderId];
      && answer.Granted? && answer.result.orderId == orderId && answer.result.processedAt == now
      && |answer.result.items| == |row.lines|
      && orderId in after.ledger && var later := after.ledger[orderId];
         && later.status == Released && later.releasedAt == Some(now) && later.reservedAt == row.reservedAt
         && |later.lines| == |row.lines|
         && forall i :: 0 <= i < |row.lines| ==>
              var line := row.lines[i]; var m := answer.result.items[i];
              && line.partId in db.parts
              && var stock := db.parts[line.partId].stock;
                 && later.lines[i] == line.(releasedBefore := Some(stock), releasedAfter := Some(stock + line.quantity))
                 && m.partId == line.partId && m.sku == line.sku && m.name == line.name && m.quantity == line.quantity
                 && m.stockBefore == stock && m.stockAfter == stock + line.quantity
  {
    hide IsUuid, Fingerprint, TotalHeld, QuantityOf, Restore;
    var row := db.ledger[orderId];
    assert OperationOk(row, db.parts.Keys);
    assert forall i :: 0 <= i < |row.lines| ==>
      LineOk(row.lines[i], row.status) && Items(row)[i].partId == row.lines[i].partId;
  }

  lemma PositiveLine(op: Operation, catalogue: set<PartId>, i: nat)
    requires OperationOk(op, catalogue) && i < |op.lines|
    ensures Items(op)[i].quantity > 0
  {
    hide Fingerprint, IsUuid, Distinct;
  }

  /** A release that takes effect puts exactly the reserved quantities back, on top of the stock of that moment. */
  lemma ReleaseRestoresExactly(db: Db, initial: map<PartId, int>, orderId: OrderId, now: Time)
    requires DbInv(db, initial) && orderId in db.ledger && db.ledger[orderId].status == Reserved
    ensures var (after, answer) := Release(db, orderId, now);
      var items := Items(db.ledger[orderId]);
      && after != db && answer.Granted? && !answer.result.replayed && |answer.result.items| == |items|
      && answer.result.orderId == orderId && answer.result.processedAt == now
      && orderId in after.ledger && after.ledger[orderId].releasedAt == Some(now)
      && (forall i :: 0 <= i < |items| ==>
            && items[i].partId in db.parts
            && after.parts[items[i].partId].stock == db.parts[items[i].partId].stock + items[i].quantity
            && Written(db.parts[items[i].partId], after.parts[items[i].partId],
                       db.parts[items[i].partId].stock + items[i].quantity, now)
            && answer.result.items[i].partId == items[i].partId
            && answer.result.items[i].quantity == items[i].quantity
            && answer.result.items[i].sku == db.ledger[orderId].lines[i].sku
            && answer.result.items[i].name == db.ledger[orderId].lines[i].name
            && answer.result.items[i].stockBefore == db.parts[items[i].partId].stock
            && answer.result.items[i].stockAfter == after.parts[items[i].partId].stock)
      && (forall p :: p in db.parts && (forall i :: 0 <= i < |items| ==> items[i].partId != p) ==>
        after.parts[p] == db.parts[p])
  {
    hide IsUuid, Fingerprint, TotalHeld, LineOk, QuantityOf, Distinct, ValidItem;
    var after := Release(db, orderId, now).0;
    var op := db.ledger[orderId];
    var items := Items(op);
    assert OperationOk(op, db.parts.Keys);
    assert forall i :: 0 <= i < |items| ==>
      items[i].partId == op.lines[i].partId && items[i].quantity == op.lines[i].quantity;
    ReleaseIsRecorded(db, initial, orderId, now);
    forall i | 0 <= i < |items|
      ensures Written(db.parts[items[i].partId], after.parts[items[i].partId],
                      db.parts[items[i].partId].stock + items[i].quantity, now)
    {
      QuantityPresent(items, i);
      PositiveLine(op, db.parts.Keys, i);
    }
    forall p | p in db.parts && forall i :: 0 <= i < |items| ==> items[i].partId != p
      ensures after.parts[p] == db.parts[p]
    {
      QuantityAbsent(items, p);
    }
  }

  // ---------- ledger rows only move forward ----------

  /** `later` is the same reservation as `op`, possibly released since; a released row never changes. */
  predicate SameReservation(op: Operation, later: Operation) {
    && later.requestHash == op.requestHash
    && Items(later) == Items(op)
    && ReserveResult("", later, true) == ReserveResult("", op, true)
    && (op.status == Released ==> later == op)
  }

  ghost predicate LedgerExtends(ledger: map<OrderId, Operation>, later: map<OrderId, Operation>) {
    forall o :: o in ledger ==> o in later && SameReservation(ledger[o], later[o])
  }

  lemma ServeExtends(db: Db, call: StockCall)
    ensures LedgerExtends(db.ledger, Serve(db, call).0.ledger)
    ensures forall o :: o in db.ledger && o != call.orderId ==> Serve(db, call).0.ledger[o] == db.ledger[o]
    ensures forall o :: o in Serve(db, call).0.ledger && o != call.orderId ==> o in db.ledger
  {
    hide IsUuid, Fingerprint, QuantityOf, Missing, Shortages;
    var o := call.orderId;
    if o in db.ledger && call.ReleaseCall? && Serve(db, call).0 != db {
      var later := Serve(db, call).0.ledger[o];
      assert Items(later) == Items(db.ledger[o]);
      assert ReserveResult("", later, true).items == ReserveResult("", db.ledger[o], true).items;
    }
  }

  lemma {:induction false} ExecExtends(db: Db, calls: seq<StockCall>)
    ensures LedgerExtends(db.ledger, Exec(db, calls).ledger)
  {
    hide IsUuid, Fingerprint, Serve;
    if calls != [] {
      ExecExtends(db, calls[..|calls| - 1]);
      ServeExtends(Exec(db, calls[..|calls| - 1]), calls[|calls| - 1]);
    }
  }

  /**
   A reserve that was granted is answered the same for ever by any permutation of its lines,
   with only `replayed` changed, whatever calls were served in between, until its release;
   from then on it is refused as already released. Neither answer changes anything.
   */
  lemma ReserveReplayIsExact(
    db: Db, orderId: OrderId, items: seq<Item>, now: Time, between: seq<StockCall>, again: seq<Item>, later: Time)
    requires ValidItems(items) && ValidItems(again) && multiset(items) == multiset(again)
    requires Reserve(db, orderId, items, now).1.Granted?
    ensures var (first, answer) := Reserve(db, orderId, items, now);
      var current := Exec(first, between);
      && orderId in current.ledger
      && Reserve(current, orderId, again, later) ==
           (current, if current.ledger[orderId].status == Released then Refused(ReservationAlreadyReleased(orderId))
                  else Granted(answer.result.(replayed := true)))
  {
    hide IsUuid, Fingerprint, QuantityOf, Missing, Shortages, Exec;
    var first := Reserve(db, orderId, items, now).0;
    FingerprintIsCanonical(items, again);
    ExecExtends(first, between);
    var op, current := first.ledger[orderId], Exec(first, between).ledger[orderId];
    assert SameReservation(op, current);
    assert ReserveResult(orderId, current, true).items == ReserveResult("", current, true).items;
    assert ReserveResult(orderId, op, true).items == ReserveResult("", op, true).items;
  }

  /** A granted release is answered the same for ever, with only `replayed` changed. */
  lemma ReleaseReplayIsExact(db: Db, orderId: OrderId, now: Time, between: seq<StockCall>, later: Time)
    requires Release(db, orderId, now).1.Granted?
    ensures var (first, answer) := Release(db, orderId, now);
      var current := Exec(first, between);
      Release(current, orderId, later) == (current, Granted(answer.result.(replayed := true)))
  {
    hide IsUuid, Fingerprint, QuantityOf, Missing, Exec;
    var first := Release(db, orderId, now).0;
    ExecExtends(first, between);
    assert SameReservation(first.ledger[orderId], Exec(first, between).ledger[orderId]);
  }

  // ---------- one deduction, one restoration ----------

  predicate Deducts(db: Db, call: StockCall, o: OrderId) {
    o !in db.ledger && o in Serve(db, call).0.ledger
  }

  predicate IsReleased(ledger: map<OrderId, Operation>, o: OrderId) {
    o in ledger && ledger[o].status == Released
  }

  predicate Restores(db: Db, call: StockCall, o: OrderId) {
    !IsReleased(db.ledger, o) && IsReleased(Serve(db, call).0.ledger, o)
  }

  function Deductions(db: Db, calls: seq<StockCall>, o: OrderId): nat {
    if calls == [] then 0
    else
      var before := calls[..|calls| - 1];
      Deductions(db, before, o) + if Deducts(Exec(db, before), calls[|calls| - 1], o) then 1 else 0
  }

  function Restorations(db: Db, calls: seq<StockCall>, o: OrderId): nat {
    if calls == [] then 0
    else
      var before := calls[..|calls| - 1];
      Restorations(db, before, o) + if Restores(Exec(db, before), calls[|calls| - 1], o) then 1 else 0
  }

  /** Stock is only touched by a call that first creates or first releases its own order's row. */
  lemma OnlyEffectsMoveStock(db: Db, call: StockCall)
    requires !Deducts(db, call, call.orderId) && !Restores(db, call, call.orderId)
    ensures Serve(db, call).0 == db
  {
    hide IsUuid, Fingerprint, QuantityOf;
  }

  /** Over any run an order is deducted once if its row appears and never otherwise; likewise restored and released. */
  lemma {:induction false} EffectsHappenOnce(db: Db, calls: seq<StockCall>, o: OrderId)
    ensures Deductions(db, calls, o) == (if o !in db.ledger && o in Exec(db, calls).ledger then 1 else 0)
    ensures Restorations(db, calls, o) ==
      (if !IsReleased(db.ledger, o) && IsReleased(Exec(db, calls).ledger, o) then 1 else 0)
  {
    hide Serve;
    if calls != [] {
      var before := calls[..|calls| - 1];
      EffectsHappenOnce(db, before, o);
      ExecExtends(db, before);
      ServeExtends(Exec(db, before), calls[|calls| - 1]);
    }
  }

  // ---------- the audit chain ----------

  datatype Movement = Movement(partId: PartId, before: int, after: int)

  /** The movements a call records in the ledger, in line order. */
  /** The reservation columns of a ledger row, line by line. */
  function ReservedMoves(op: Operation): seq<Movement> {
    seq(|op.lines|, i requires 0 <= i < |op.lines| =>
      Movement(op.lines[i].partId, op.lines[i].reservedBefore, op.lines[i].reservedAfter))
  }

  /** Its release columns. */
  function ReleasedMoves(op: Operation): seq<Movement> {
    seq(|op.lines|, i requires 0 <= i < |op.lines| =>
      Movement(op.lines[i].partId, op.lines[i].releasedBefore.GetOr(0), op.lines[i].releasedAfter.GetOr(0)))
  }

  /** What a call moves, as it writes it into its row. */
  function Movements(db: Db, call: StockCall): seq<Movement> {
    var o := call.orderId;
    var ledger := Serve(db, call).0.ledger;
    if Deducts(db, call, o) then ReservedMoves(ledger[o])
    else if Restores(db, call, o) then ReleasedMoves(ledger[o])
    else []
  }

  function AuditLog(db: Db, calls: seq<StockCall>): seq<Movement> {
    if calls == [] then []
    else
      var before := calls[..|calls| - 1];
      AuditLog(db, before) + Movements(Exec(db, before), calls[|calls| - 1])
  }

  /** The movements of p in the log form a chain from `first` to `last`. */
  predicate Chained(log: seq<Movement>, p: PartId, first: int, last: int) {
    if log == [] then first == last
    else
      var m := log[|log| - 1];
      if m.partId == p then m.after == last && Chained(log[..|log| - 1], p, first, m.before)
      else Chained(log[..|log| - 1], p, first, last)
  }

  lemma {:induction false} ChainedConcat(
    a: seq<Movement>, b: seq<Movement>, p: PartId, first: int, middle: int, last: int)
    requires Chained(a, p, first, middle) && Chained(b, p, middle, last)
    ensures Chained(a + b, p, first, last)
  {
    if b == [] {
      assert a + b == a;
    } else {
      var m := b[|b| - 1];
      assert (a + b)[..|a + b| - 1] == a + b[..|b| - 1] && (a + b)[|a + b| - 1] == m;
      ChainedConcat(a, b[..|b| - 1], p, first, middle, if m.partId == p then m.before else last);
    }
  }

  lemma {:induction false} ChainedAbsent(log: seq<Movement>, p: PartId, stock: int)
    requires forall i :: 0 <= i < |log| ==> log[i].partId != p
    ensures Chained(log, p, stock, stock)
  {
    if log != [] { ChainedAbsent(log[..|log| - 1], p, stock); }
  }

  lemma {:induction false} ChainedOnce(log: seq<Movement>, k: nat)
    requires k < |log| && forall i, j :: 0 <= i < j < |log| ==> log[i].partId != log[j].partId
    ensures Chained(log, log[k].partId, log[k].before, log[k].after)
  {
    var shorter := log[..|log| - 1];
    if k == |log| - 1 {
      ChainedAbsent(shorter, log[k].partId, log[k].before);
    } else {
      ChainedOnce(shorter, k);
    }
  }

  /** One movement per line, from the stock before to the stock after, links the two stocks of every part. */
  lemma {:induction false} LinesAreChained(
    items: seq<Item>, moves: seq<Movement>, parts: map<PartId, Part>, after: map<PartId, Part>, p: PartId)
    requires Distinct(items) && |moves| == |items| && p in parts && p in after
    requires forall i :: 0 <= i < |items| ==>
      var q := items[i].partId; q in parts && q in after && moves[i] == Movement(q, parts[q].stock, after[q].stock)
    requires (forall i :: 0 <= i < |items| ==> items[i].partId != p) ==> after[p] == parts[p]
    ensures Chained(moves, p, parts[p].stock, after[p].stock)
  {
    if k :| 0 <= k < |items| && items[k].partId == p {
      ChainedOnce(moves, k);
    } else {
      ChainedAbsent(moves, p, parts[p].stock);
    }
  }

  lemma DeductionMoves(db: Db, call: StockCall)
    requires ValidCall(call) && Deducts(db, call, call.orderId)
    ensures call.ReserveCall? && CanDeduct(db.parts, call.items) && |Movements(db, call)| == |call.items|
    ensures forall i :: 0 <= i < |call.items| ==>
      var p, stock := call.items[i].partId, db.parts[call.items[i].partId].stock;
      Movements(db, call)[i] == Movement(p, stock, stock - call.items[i].quantity)
  {
    hide IsUuid, Fingerprint, QuantityOf, Deduct, Restore, Distinct;
  }

  lemma DeductionIsChained(db: Db, call: StockCall, p: PartId)
    requires ValidCall(call) && p in db.parts && Deducts(db, call, call.orderId)
    ensures p in Serve(db, call).0.parts
    ensures Chained(Movements(db, call), p, db.parts[p].stock, Serve(db, call).0.parts[p].stock)
  {
    hide Fingerprint, Chained, Movements, Reserve, Distinct, ValidItem;
    DeductionMoves(db, call);
    ServeIsReserve(db, call);
    ReserveAllOrNothing(db, call.orderId, call.items, call.now);
    LinesAreChained(call.items, Movements(db, call), db.parts, Serve(db, call).0.parts, p);
  }

  lemma ServeIsReserve(db: Db, call: StockCall)
    requires call.ReserveCall?
    ensures Serve(db, call) == Reserve(db, call.orderId, call.items, call.now)
    ensures Reserve(db, call.orderId, call.items, call.now).0.parts.Keys == db.parts.Keys
  {
    hide Fingerprint, QuantityOf, NewOperation, ReserveResult, Missing, Shortages;
  }

  lemma RestorationMoves(db: Db, initial: map<PartId, int>, call: StockCall)
    requires DbInv(db, initial) && Restores(db, call, call.orderId)
    ensures call.ReleaseCall? && call.orderId in db.ledger && db.ledger[call.orderId].status == Reserved
    ensures var items := Items(db.ledger[call.orderId]);
      && Distinct(items) && |Movements(db, call)| == |items|
      && forall i :: 0 <= i < |items| ==>
           && items[i].partId in db.parts
           && var stock := db.parts[items[i].partId].stock;
              Movements(db, call)[i] == Movement(items[i].partId, stock, stock + items[i].quantity)
  {
    hide DbInv, Release, Reserve, Distinct;
    RestoringCall(db, call);
    ReleaseIsRecorded(db, initial, call.orderId, call.now);
    RowIsDistinct(db, initial, call.orderId);
    var row, items := db.ledger[call.orderId], Items(db.ledger[call.orderId]);
    forall i | 0 <= i < |items|
      ensures items[i].partId == row.lines[i].partId && items[i].quantity == row.lines[i].quantity
    {
    }
  }

  lemma RestoringCall(db: Db, call: StockCall)
    requires Restores(db, call, call.orderId)
    ensures call.ReleaseCall? && call.orderId in db.ledger && db.ledger[call.orderId].status == Reserved
    ensures Serve(db, call) == Release(db, call.orderId, call.now)
    ensures !Deducts(db, call, call.orderId)
  {
    hide Fingerprint, QuantityOf, Missing, Shortages, Deduct, Restore, ReserveResult, ReleaseResult;
  }

  lemma RowIsDistinct(db: Db, initial: map<PartId, int>, o: OrderId)
    requires DbInv(db, initial) && o in db.ledger
    ensures Distinct(Items(db.ledger[o]))
  {
    hide Fingerprint, IsUuid, TotalHeld, Distinct, LineOk;
    assert OperationOk(db.ledger[o], db.parts.Keys);
  }

  lemma RestorationIsChained(db: Db, initial: map<PartId, int>, call: StockCall, p: PartId)
    requires DbInv(db, initial) && p in db.parts && Restores(db, call, call.orderId)
    ensures p in Serve(db, call).0.parts
    ensures Chained(Movements(db, call), p, db.parts[p].stock, Serve(db, call).0.parts[p].stock)
  {
    hide Chained, Movements, Release, Reserve, Distinct, DbInv, Items;
    RestoringCall(db, call);
    RestorationMoves(db, initial, call);
    ReleaseRestoresExactly(db, initial, call.orderId, call.now);
    ReleaseKeepsParts(db, call.orderId, call.now);
    LinesAreChained(Items(db.ledger[call.orderId]), Movements(db, call), db.parts, Serve(db, call).0.parts, p);
  }

  lemma ReleaseKeepsParts(db: Db, o: OrderId, now: Time)
    ensures Release(db, o, now).0.parts.Keys == db.parts.Keys
  {
    hide Fingerprint, QuantityOf, Missing, ReleaseResult;
  }

  /**
   The ledger's movements of a part, in commit order, form a chain: it starts at the stock
   before the run, each movement starts where the previous one ended, and it ends at the current stock.
   */
  lemma {:induction false} AuditChain(db: Db, initial: map<PartId, int>, calls: seq<StockCall>, p: PartId)
    requires DbInv(db, initial) && ValidCalls(calls) && p in db.parts
    ensures p in Exec(db, calls).parts
    ensures Chained(AuditLog(db, calls), p, db.parts[p].stock, Exec(db, calls).parts[p].stock)
  {
    hide IsUuid, Serve, Movements, Chained, DbInv, Deducts, Restores;
    ExecKeepsInvariant(db, initial, calls);
    if calls == [] {
      ChainedAbsent([], p, db.parts[p].stock);
    } else {
      var before, call := calls[..|calls| - 1], calls[|calls| - 1];
      var middle := Exec(db, before);
      AuditChain(db, initial, before, p);
      ExecKeepsInvariant(db, initial, before);
      CallIsChained(middle, initial, call, p);
      ChainedConcat(AuditLog(db, before), Movements(middle, call), p,
        db.parts[p].stock, middle.parts[p].stock, Serve(middle, call).0.parts[p].stock);
    }
  }

  lemma CallIsChained(db: Db, initial: map<PartId, int>, call: StockCall, p: PartId)
    requires DbInv(db, initial) && ValidCall(call) && p in db.parts
    ensures p in Serve(db, call).0.parts
    ensures Chained(Movements(db, call), p, db.parts[p].stock, Serve(db, call).0.parts[p].stock)
  {
    hide IsUuid, Serve, DbInv, Deducts, Restores;
    if Deducts(db, call, call.orderId) {
      DeductionIsChained(db, call, p);
    } else if Restores(db, call, call.orderId) {
      RestorationIsChained(db, initial, call, p);
    } else {
      OnlyEffectsMoveStock(db, call);
    }
  }

  /** The movements recorded in a row: those of its reservation, and of its release once released. */
  function RowMoves(op: Operation): multiset<Movement> {
    multiset(ReservedMoves(op)) + if op.status == Released then multiset(ReleasedMoves(op)) else multiset{}
  }

  function Recorded(ledger: map<OrderId, Operation>, m: Movement): OrderId -> int {
    o => if o in ledger then RowMoves(ledger[o])[m] else 0
  }

  /** How often the ledger records movement m. */
  ghost function RecordedIn(ledger: map<OrderId, Operation>, m: Movement): int {
    Sum(ledger.Keys, Recorded(ledger, m))
  }

  lemma RowUpdate(ledger: map<OrderId, Operation>, o: OrderId, op: Operation, m: Movement)
    ensures RecordedIn(ledger[o := op], m) ==
      RecordedIn(ledger, m) + RowMoves(op)[m] - (if o in ledger then RowMoves(ledger[o])[m] else 0)
  {
    hide RowMoves;
    var after := ledger[o := op];
    assert after.Keys == ledger.Keys + {o};
    SumUpdate(ledger.Keys, Recorded(ledger, m), after.Keys, Recorded(after, m), o);
  }

  /** A deduction adds its row; a restoration adds release columns to a row whose reservation columns stay. */
  lemma EffectRows(db: Db, call: StockCall)
    ensures var o := call.orderId; var after := Serve(db, call).0.ledger;
      && (Deducts(db, call, o) ==> after == db.ledger[o := after[o]] && after[o].status == Reserved)
      && (!Deducts(db, call, o) && Restores(db, call, o) ==>
            && o in db.ledger && db.ledger[o].status == Reserved && after == db.ledger[o := after[o]]
            && after[o].status == Released && ReservedMoves(after[o]) == ReservedMoves(db.ledger[o]))
  {
    hide IsUuid, Fingerprint, QuantityOf, Missing, Shortages, Deduct, Restore;
  }

  lemma MovesAreRecorded(db: Db, call: StockCall, m: Movement)
    ensures RecordedIn(Serve(db, call).0.ledger, m) == RecordedIn(db.ledger, m) + multiset(Movements(db, call))[m]
  {
    hide Serve, RecordedIn, ReservedMoves, ReleasedMoves, Deducts, Restores;
    var o := call.orderId;
    EffectRows(db, call);
    if Deducts(db, call, o) {
      DeductsIs(db, call, o);
      RowUpdate(db.ledger, o, Serve(db, call).0.ledger[o], m);
    } else if Restores(db, call, o) {
      RowUpdate(db.ledger, o, Serve(db, call).0.ledger[o], m);
    } else {
      OnlyEffectsMoveStock(db, call);
    }
  }

  lemma DeductsIs(db: Db, call: StockCall, o: OrderId)
    requires Deducts(db, call, o)
    ensures o !in db.ledger && o in Serve(db, call).0.ledger
  {
    hide Serve;
  }

  /**
   The ledger as it stands is a complete audit: whatever calls were served, it records beyond what
   it did before exactly the movements those calls made, each as often as it was made.
   */
  lemma {:induction false} LedgerIsTheAudit(db: Db, calls: seq<StockCall>, m: Movement)
    ensures RecordedIn(Exec(db, calls).ledger, m) == RecordedIn(db.ledger, m) + multiset(AuditLog(db, calls))[m]
  {
    hide Serve, RecordedIn, Movements;
    if calls != [] {
      var before, call := calls[..|calls| - 1], calls[|calls| - 1];
      LedgerIsTheAudit(db, before, m);
      MovesAreRecorded(Exec(db, before), call, m);
      assert multiset(AuditLog(db, calls)) ==
        multiset(AuditLog(db, before)) + multiset(Movements(Exec(db, before), call));
    }
  }

  // ---------- exact admission ----------

  /** How many calls of a run are granted. */
  function Admitted(db: Db, calls: seq<StockCall>): nat {
    if calls == [] then 0
    else
      var before := calls[..|calls| - 1];
      Admitted(db, before) + if Serve(Exec(db, before), calls[|calls| - 1]).1.Granted? then 1 else 0
  }

  /** New orders, all different, each for q units of p. */
  ghost predicate SameDemand(db: Db, calls: seq<StockCall>, p: PartId, q: nat) {
    && (forall i :: 0 <= i < |calls| ==>
      calls[i].ReserveCall? && calls[i].items == [Item(p, q)] && calls[i].orderId !in db.ledger)
    && (forall i, j :: 0 <= i < j < |calls| ==> calls[i].orderId != calls[j].orderId)
  }

  function Min(a: int, b: int): int { if a < b then a else b }

  lemma OneItem(db: Db, p: PartId, q: nat, o: OrderId, now: Time)
    requires p in db.parts && o !in db.ledger && q >= 1
    ensures var (after, answer) := Reserve(db, o, [Item(p, q)], now);
      && (answer.Granted? <==> db.parts[p].stock >= q)
      && p in after.parts && after.parts[p].stock == db.parts[p].stock - (if answer.Granted? then q else 0)
  {
    hide Fingerprint;
    var items := [Item(p, q)];
    ReserveAllOrNothing(db, o, items, now);
    assert items[0].partId == p && items[0].quantity == q;
    assert CanDeduct(db.parts, items) <==> db.parts[p].stock >= q;
  }

  lemma TimesAtLeast(a: int, q: int)
    requires q >= 1
    ensures a >= 1 ==> a * q >= q
    ensures a <= 0 ==> a * q <= 0
  {
    if a >= 1 { assert (a - 1) * q >= 0; }
  }

  lemma OneTimeMore(n: nat, q: nat)
    ensures (n + 1) * q == n * q + q
  {
  }

  lemma OneMoreFits(stock: nat, q: nat, taken: nat)
    requires q >= 1
    ensures stock - taken * q >= q <==> taken < stock / q
  {
    var k := stock / q;
    assert stock == k * q + stock % q;
    assert stock - taken * q == (k - taken) * q + stock % q;
    TimesAtLeast(k - taken, q);
  }

  /**
   n new orders for q units each on a stock of s, in whatever order they are served: exactly min(n,
   s / q) are granted.
   */
  lemma {:induction false} AdmissionIsExact(db: Db, calls: seq<StockCall>, p: PartId, q: nat)
    requires p in db.parts && q >= 1 && db.parts[p].stock >= 0 && SameDemand(db, calls, p, q)
    ensures Admitted(db, calls) == Min(|calls|, db.parts[p].stock / q)
    ensures p in Exec(db, calls).parts && Exec(db, calls).parts[p].stock == db.parts[p].stock - Admitted(db, calls) * q
    ensures forall o :: o in Exec(db, calls).ledger ==>
      o in db.ledger || exists i :: 0 <= i < |calls| && calls[i].orderId == o
  {
    hide Reserve, LedgerExtends, Serve;
    var stock := db.parts[p].stock;
    if calls == [] {
      TimesAtLeast(0, q);
    } else {
      var before, call := calls[..|calls| - 1], calls[|calls| - 1];
      AdmissionIsExact(db, before, p, q);
      var middle := Exec(db, before);
      OneItem(middle, p, q, call.orderId, call.now);
      assert Serve(middle, call) == Reserve(middle, call.orderId, [Item(p, q)],
        call.now) by { ServeIsReserve(middle, call); }
      OneMoreFits(stock, q, Admitted(db, before));
      ServeExtends(middle, call);
      OneTimeMore(Admitted(db, before), q);
    }
  }
}
