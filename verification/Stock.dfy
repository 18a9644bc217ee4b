/**
 Inventory's stock engine as functions on its database: the parts table and the
 ledger with one operation per order. One call of `Serve` is one transaction of
 the stock service; `Exec` is a run of them.
 */
module Stock {
  import opened Identifiers
  import opened Canonical
  import opened Errors
  import opened Sums

  const MAX_INT32 := 0x7FFF_FFFF

  datatype Part = Part(sku: string, name: string, stock: int, updatedAt: Time)

  datatype Status = Reserved | Released

  datatype Line = Line(
    lineNumber: int,
    partId: PartId,
    sku: string,
    name: string,
    quantity: nat,
    reservedBefore: int,
    reservedAfter: int,
    releasedBefore: Option<int>,
    releasedAfter: Option<int>)

  datatype Operation = Operation(
    requestHash: string,
    status: Status,
    reservedAt: Time,
    releasedAt: Option<Time>,
    lines: seq<Line>)

  datatype Db = Db(parts: map<PartId, Part>, ledger: map<OrderId, Operation>)

  datatype Mutation = Mutation(partId: PartId, sku: string, name: string, quantity: nat, stockBefore: int,
    stockAfter: int)

  datatype StockResult = StockResult(orderId: OrderId, items: seq<Mutation>, processedAt: Time, replayed: bool)

  /** What a call answers: a result, a domain error, or an unexpected exception. */
  datatype Answer = Granted(result: StockResult) | Refused(error: DomainError) | Threw

  // ---------- the two operations ----------

  function Items(op: Operation): (r: seq<Item>)
    ensures |r| == |op.lines|
  {
    seq(|op.lines|, i requires 0 <= i < |op.lines| => Item(op.lines[i].partId, op.lines[i].quantity))
  }

  function QuantityOf(items: seq<Item>, p: PartId): nat {
    if items == [] then 0
    else (if items[0].partId == p then items[0].quantity else 0) + QuantityOf(items[1..], p)
  }

  function Missing(parts: map<PartId, Part>, items: seq<Item>): (r: seq<PartId>)
    ensures r == [] <==> forall i :: 0 <= i < |items| ==> items[i].partId in parts
  {
    if items == [] then []
    else (if items[0].partId in parts then [] else [items[0].partId]) + Missing(parts, items[1..])
  }

  function Shortages(parts: map<PartId, Part>, items: seq<Item>): (r: seq<Shortage>)
    requires forall i :: 0 <= i < |items| ==> items[i].partId in parts
    ensures r == [] <==> forall i :: 0 <= i < |items| ==> items[i].quantity <= parts[items[i].partId].stock
  {
    if items == [] then []
    else
      var available := parts[items[0].partId].stock;
      (if available < items[0].quantity then [Shortage(items[0].partId, items[0].quantity, available)] else [])
      + Shortages(parts, items[1..])
  }

  function NewLine(part: Part, item: Item, lineNumber: int): Line {
    Line(lineNumber, item.partId, part.sku, part.name, item.quantity, part.stock, part.stock - item.quantity, None,
      None)
  }

  function NewOperation(parts: map<PartId, Part>, items: seq<Item>, now: Time): Operation
    requires forall i :: 0 <= i < |items| ==> items[i].partId in parts
  {
    Operation(Fingerprint(items), Reserved, now, None,
      seq(|items|, i requires 0 <= i < |items| => NewLine(parts[items[i].partId], items[i], i + 1)))
  }

  function ReleasedLine(part: Part, line: Line): Line {
    line.(releasedBefore := Some(part.stock), releasedAfter := Some(part.stock + line.quantity))
  }

  function ReleasedOperation(parts: map<PartId, Part>, op: Operation, now: Time): Operation
    requires forall i :: 0 <= i < |op.lines| ==> op.lines[i].partId in parts
  {
    op.(status := Released, releasedAt := Some(now),
        lines := seq(|op.lines|, i requires 0 <= i < |op.lines| =>
          ReleasedLine(parts[op.lines[i].partId], op.lines[i])))
  }

  /** Every listed part loses (or gains) its total listed quantity; no other part changes. */
  function Deduct(parts: map<PartId, Part>, items: seq<Item>, now: Time): map<PartId, Part> {
    map p | p in parts :: if QuantityOf(items, p) == 0 then parts[p]
                          else parts[p].(stock := parts[p].stock - QuantityOf(items, p), updatedAt := now)
  }

  function Restore(parts: map<PartId, Part>, items: seq<Item>, now: Time): map<PartId, Part> {
    map p | p in parts :: if QuantityOf(items, p) == 0 then parts[p]
                          else parts[p].(stock := parts[p].stock + QuantityOf(items, p), updatedAt := now)
  }

  /** `toReserveResult`. */
  function ReserveResult(orderId: OrderId, op: Operation, replayed: bool): StockResult {
    StockResult(orderId,
      seq(|op.lines|, i requires 0 <= i < |op.lines| =>
        var line := op.lines[i];
        Mutation(line.partId, line.sku, line.name, line.quantity, line.reservedBefore, line.reservedAfter)),
      op.reservedAt, replayed)
  }

  predicate HasReleaseData(op: Operation) {
    op.releasedAt.Some? && forall i :: 0 <= i < |op.lines| ==>
      op.lines[i].releasedBefore.Some? && op.lines[i].releasedAfter.Some?
  }

  /** `toReleaseResult`, which throws when release data is missing. */
  function ReleaseResult(orderId: OrderId, op: Operation, replayed: bool): Answer {
    if !HasReleaseData(op) then Threw
    else
      Granted(StockResult(orderId,
        seq(|op.lines|, i requires 0 <= i < |op.lines| =>
          var line := op.lines[i];
          Mutation(line.partId, line.sku, line.name, line.quantity, line.releasedBefore.value,
            line.releasedAfter.value)),
        op.releasedAt.value, replayed))
  }

  function Reserve(db: Db, orderId: OrderId, items: seq<Item>, now: Time): (Db, Answer) {
    if orderId in db.ledger then
      var op := db.ledger[orderId];
      if op.requestHash != Fingerprint(items) then (db, Refused(OrderIdConflict(orderId)))
      else if op.status == Released then (db, Refused(ReservationAlreadyReleased(orderId)))
      else (db, Granted(ReserveResult(orderId, op, true)))
    else if Missing(db.parts, items) != [] then (db, Refused(PartsNotFound(Missing(db.parts, items))))
    else if Shortages(db.parts, items) != [] then (db, Refused(InsufficientStock(Shortages(db.parts, items))))
    else
      var op := NewOperation(db.parts, items, now);
      (Db(Deduct(db.parts, items, now), db.ledger[orderId := op]), Granted(ReserveResult(orderId, op, false)))
  }

  function Release(db: Db, orderId: OrderId, now: Time): (Db, Answer) {
    if orderId !in db.ledger then (db, Refused(ReservationNotFound(orderId)))
    else
      var op := db.ledger[orderId];
      if op.status == Released then (db, ReleaseResult(orderId, op, true))
      else if Missing(db.parts, Items(op)) != [] then (db, Threw)
      else
        assert forall i :: 0 <= i < |op.lines| ==> Items(op)[i].partId == op.lines[i].partId;
        var released := ReleasedOperation(db.parts, op, now);
        (Db(Restore(db.parts, Items(op), now), db.ledger[orderId := released]), ReleaseResult(orderId, released, false))
  }

  datatype StockCall =
    | ReserveCall(orderId: OrderId, items: seq<Item>, now: Time)
    | ReleaseCall(orderId: OrderId, now: Time)

  predicate ValidCall(call: StockCall) {
    call.ReserveCall? ==> ValidItems(call.items)
  }

  function Serve(db: Db, call: StockCall): (Db, Answer) {
    match call
    case ReserveCall(o, items, now) => Reserve(db, o, items, now)
    case ReleaseCall(o, now) => Release(db, o, now)
  }

  /** Calls served one at a time, in order. */
  function Exec(db: Db, calls: seq<StockCall>): Db {
    if calls == [] then db else Serve(Exec(db, calls[..|calls| - 1]), calls[|calls| - 1]).0
  }

  // ---------- the invariant ----------

  function Held(op: Operation, p: PartId): nat {
    if op.status == Reserved then QuantityOf(Items(op), p) else 0
  }

  function HeldIn(ledger: map<OrderId, Operation>, p: PartId): OrderId -> int {
    o => if o in ledger then Held(ledger[o], p) else 0
  }

  /** Units of p held by RESERVED operations. */
  ghost function TotalHeld(ledger: map<OrderId, Operation>, p: PartId): int {
    Sum(ledger.Keys, HeldIn(ledger, p))
  }

  /** The CHECK constraints of a ledger line, and the release columns filled exactly when released. */
  predicate LineOk(line: Line, status: Status) {
    && 1 <= line.lineNumber <= 50
    && 1 <= line.quantity <= 999
    && line.reservedAfter >= 0 && line.reservedAfter == line.reservedBefore - line.quantity
    && match status
       case Reserved => line.releasedBefore == None && line.releasedAfter == None
       case Released =>
         && line.releasedBefore.Some? && line.releasedAfter.Some?
         && line.releasedBefore.value >= 0 && line.releasedAfter.value == line.releasedBefore.value + line.quantity
  }

  predicate OperationOk(op: Operation, catalogue: set<PartId>) {
    && ValidItems(Items(op))
    && op.requestHash == Fingerprint(Items(op))
    && (op.releasedAt.Some? <==> op.status == Released)
    && forall i :: 0 <= i < |op.lines| ==>
         op.lines[i].lineNumber == i + 1 && op.lines[i].partId in catalogue && LineOk(op.lines[i], op.status)
  }

  /** `initial` gives the stock before any order. */
  ghost predicate DbInv(db: Db, initial: map<PartId, int>) {
    && db.parts.Keys == initial.Keys
    && (forall p :: p in db.parts ==>
      db.parts[p].stock >= 0 && db.parts[p].stock + TotalHeld(db.ledger, p) == initial[p])
    && (forall o :: o in db.ledger ==> OperationOk(db.ledger[o], db.parts.Keys))
  }

  lemma {:induction false} QuantityAbsent(items: seq<Item>, p: PartId)
    requires forall i :: 0 <= i < |items| ==> items[i].partId != p
    ensures QuantityOf(items, p) == 0
  {
    if items != [] { QuantityAbsent(items[1..], p); }
  }

  lemma {:induction false} QuantityPresent(items: seq<Item>, i: nat)
    requires Distinct(items) && i < |items|
    ensures QuantityOf(items, items[i].partId) == items[i].quantity
  {
    if i == 0 { QuantityAbsent(items[1..], items[0].partId); } else { QuantityPresent(items[1..], i - 1); }
  }

  /** The quantity of p in a list of distinct lines is that of its line, or zero. */
  lemma QuantityOfDistinct(items: seq<Item>, p: PartId)
    requires Distinct(items)
    ensures QuantityOf(items, p) > 0 ==>
      exists i :: 0 <= i < |items| && items[i].partId == p && items[i].quantity == QuantityOf(items, p)
  {
    if i :| 0 <= i < |items| && items[i].partId == p {
      QuantityPresent(items, i);
    } else {
      QuantityAbsent(items, p);
    }
  }

  /** What the transaction reads of the locked rows is all it needs of the table. */
  lemma {:induction false} SnapshotSuffices(parts: map<PartId, Part>, partsById: map<PartId, Part>, items: seq<Item>)
    requires forall p :: p in partsById ==> p in parts && partsById[p] == parts[p]
    requires forall i :: 0 <= i < |items| && items[i].partId in parts ==> items[i].partId in partsById
    ensures Missing(partsById, items) == Missing(parts, items)
    ensures Missing(parts, items) == [] ==> Shortages(partsById, items) == Shortages(parts, items)
  {
    if items != [] { SnapshotSuffices(parts, partsById, items[1..]); }
  }

  lemma HeldUpdate(ledger: map<OrderId, Operation>, o: OrderId, op: Operation, p: PartId)
    ensures TotalHeld(ledger[o := op], p) ==
      TotalHeld(ledger, p) + Held(op, p) - (if o in ledger then Held(ledger[o], p) else 0)
  {
    var after := ledger[o := op];
    assert after.Keys == ledger.Keys + {o};
    SumUpdate(ledger.Keys, HeldIn(ledger, p), after.Keys, HeldIn(after, p), o);
  }

  lemma NewOperationOk(parts: map<PartId, Part>, items: seq<Item>, now: Time)
    requires ValidItems(items)
    requires forall i :: 0 <= i < |items| ==>
      items[i].partId in parts && items[i].quantity <= parts[items[i].partId].stock
    ensures Items(NewOperation(parts, items, now)) == items
    ensures OperationOk(NewOperation(parts, items, now), parts.Keys)
  {
    hide Fingerprint, IsUuid, Distinct;
    var op := NewOperation(parts, items, now);
    assert Items(op) == items;
    forall i | 0 <= i < |op.lines| ensures op.lines[i].partId in parts.Keys && LineOk(op.lines[i], Reserved) {
      assert ValidItem(items[i]);
    }
  }

  lemma ReleasedOperationOk(parts: map<PartId, Part>, op: Operation, now: Time)
    requires OperationOk(op, parts.Keys) && op.status == Reserved
    requires forall p :: p in parts ==> parts[p].stock >= 0
    ensures Items(ReleasedOperation(parts, op, now)) == Items(op)
    ensures OperationOk(ReleasedOperation(parts, op, now), parts.Keys)
  {
    var released := ReleasedOperation(parts, op, now);
    assert Items(released) == Items(op);
    forall i | 0 <= i < |op.lines| ensures LineOk(released.lines[i],
      Released) && released.lines[i].partId in parts.Keys {
      assert LineOk(op.lines[i], Reserved);
    }
  }

  /** Some items can be deducted: every part exists and has the requested quantity. */
  predicate CanDeduct(parts: map<PartId, Part>, items: seq<Item>) {
    forall i :: 0 <= i < |items| ==> items[i].partId in parts && items[i].quantity <= parts[items[i].partId].stock
  }

  lemma StockAfterReserve(db: Db, orderId: OrderId, items: seq<Item>, now: Time, p: PartId)
    requires Distinct(items) && CanDeduct(db.parts, items) && orderId !in db.ledger && p in db.parts
    requires db.parts[p].stock >= 0
    ensures var after := Deduct(db.parts, items, now)[p].stock;
      && after == db.parts[p].stock - QuantityOf(items, p) >= 0
      && after + TotalHeld(db.ledger[orderId := NewOperation(db.parts, items, now)], p) ==
        db.parts[p].stock + TotalHeld(db.ledger, p)
  {
    var op := NewOperation(db.parts, items, now);
    assert Items(op) == items;
    HeldUpdate(db.ledger, orderId, op, p);
    QuantityOfDistinct(items, p);
  }

  lemma StockAfterRelease(db: Db, orderId: OrderId, now: Time, p: PartId)
    requires orderId in db.ledger && db.ledger[orderId].status == Reserved && p in db.parts
    requires forall i :: 0 <= i < |db.ledger[orderId].lines| ==> db.ledger[orderId].lines[i].partId in db.parts
    ensures var op := db.ledger[orderId];
      var after := Restore(db.parts, Items(op), now)[p].stock;
      && after == db.parts[p].stock + QuantityOf(Items(op), p)
      && after + TotalHeld(db.ledger[orderId := ReleasedOperation(db.parts, op, now)], p) ==
        db.parts[p].stock + TotalHeld(db.ledger, p)
  {
    HeldUpdate(db.ledger, orderId, ReleasedOperation(db.parts, db.ledger[orderId], now), p);
  }

  lemma ReserveKeepsInvariant(db: Db, initial: map<PartId, int>, orderId: OrderId, items: seq<Item>, now: Time)
    requires DbInv(db, initial) && ValidItems(items)
    ensures DbInv(Reserve(db, orderId, items, now).0, initial)
  {
    hide IsUuid, Fingerprint, QuantityOf, LineOk, TotalHeld, OperationOk, NewOperation, ReleasedOperation;
    hide ReserveResult, ReleaseResult;
    var after := Reserve(db, orderId, items, now).0;
    if orderId !in db.ledger && orderId in after.ledger {
      NewOperationOk(db.parts, items, now);
      assert after.parts.Keys == db.parts.Keys;
      forall p | p in db.parts
        ensures after.parts[p].stock >= 0 && after.parts[p].stock + TotalHeld(after.ledger, p) == initial[p]
      {
        StockAfterReserve(db, orderId, items, now, p);
      }
    }
  }

  lemma ReleaseKeepsInvariant(db: Db, initial: map<PartId, int>, orderId: OrderId, now: Time)
    requires DbInv(db, initial)
    ensures DbInv(Release(db, orderId, now).0, initial)
  {
    hide IsUuid, Fingerprint, QuantityOf, LineOk, TotalHeld, OperationOk, NewOperation, ReleasedOperation;
    hide ReserveResult, ReleaseResult;
    if orderId in db.ledger && db.ledger[orderId].status == Reserved {
      var after := Release(db, orderId, now).0;
      var op := db.ledger[orderId];
      assert forall i :: 0 <= i < |op.lines| ==> Items(op)[i].partId == op.lines[i].partId;
      ReleasedOperationOk(db.parts, op, now);
      assert after.parts.Keys == db.parts.Keys;
      forall p | p in db.parts
        ensures after.parts[p].stock >= 0 && after.parts[p].stock + TotalHeld(after.ledger, p) == initial[p]
      {
        StockAfterRelease(db, orderId, now, p);
      }
    }
  }

  lemma ServeKeepsInvariant(db: Db, initial: map<PartId, int>, call: StockCall)
    requires DbInv(db, initial) && ValidCall(call)
    ensures DbInv(Serve(db, call).0, initial)
  {
    match call
    case ReserveCall(o, items, now) => ReserveKeepsInvariant(db, initial, o, items, now);
    case ReleaseCall(o, now) => ReleaseKeepsInvariant(db, initial, o, now);
  }

  predicate ValidCalls(calls: seq<StockCall>) {
    forall i :: 0 <= i < |calls| ==> ValidCall(calls[i])
  }

  lemma {:induction false} ExecKeepsInvariant(db: Db, initial: map<PartId, int>, calls: seq<StockCall>)
    requires DbInv(db, initial) && ValidCalls(calls)
    ensures DbInv(Exec(db, calls), initial)
  {
    if calls != [] {
      var before := calls[..|calls| - 1];
      ExecKeepsInvariant(db, initial, before);
      ServeKeepsInvariant(Exec(db, before), initial, calls[|calls| - 1]);
    }
  }

  /**
   Conservation over any run: stock plus what RESERVED operations hold is the initial stock,
   so stock stays between zero and its initial value and a release never leaves the column's range.
   */
  lemma StockConserved(db: Db, initial: map<PartId, int>, calls: seq<StockCall>, p: PartId)
    requires DbInv(db, initial) && ValidCalls(calls) && p in initial && initial[p] <= MAX_INT32
    ensures var after := Exec(db, calls);
      && p in after.parts
      && after.parts[p].stock + TotalHeld(after.ledger, p) == initial[p]
      && 0 <= after.parts[p].stock <= initial[p] <= MAX_INT32
  {
    ExecKeepsInvariant(db, initial, calls);
    var after := Exec(db, calls);
    SumAtLeast(after.ledger.Keys, HeldIn(after.ledger, p), "");
  }
}
