/**
 The stock service under concurrency. Each transaction is split into its database
 statements: advisory lock on the order, ledger read, one row lock and read per part,
 validation, one absolute write per line, commit. Any number of them interleave.
 Uncommitted writes are private; reads see the latest committed rows (READ COMMITTED).
 */
module Locking {
  import opened Identifiers
  import opened Canonical
  import opened Errors
  import opened Stock
  import opened StockRuns
  import StockServices

  /** A pending `UPDATE parts SET stock_available, updated_at`. */
  datatype Write = Write(stock: int, updatedAt: Time)

  datatype Pc =
    | Start
    | OrderLocked
    | LockingParts(todo: seq<PartId>)
    | Writing(done: nat, operation: Operation)
    | Answering(answer: Answer)
    | Finished(result: Answer)
    | Aborted

  /** A transaction: its call, where it is, and what it has read and written so far. */
  datatype Tx = Tx(call: StockCall, pc: Pc, row: Option<Operation>, got: map<PartId, Part>, writes: map<PartId, Write>)

  datatype Entry = Entry(tx: nat, call: StockCall, answer: Answer)

  /** `log` lists the transactions that ended with an answer, in the order they ended. */
  datatype State = State(
    db: Db,
    txs: seq<Tx>,
    orderLocks: map<int, nat>,
    partLocks: map<PartId, nat>,
    log: seq<Entry>)

  /** The key of an order's advisory lock; different orders may collide. */
  type OrderHash = OrderId -> int

  datatype Step = Advance(tx: nat) | Abort(tx: nat)

  // ---------- the statements of one transaction ----------

  function Lookup(ledger: map<OrderId, Operation>, o: OrderId): Option<Operation> {
    if o in ledger then Some(ledger[o]) else None
  }

  /** What the ledger row alone decides. */
  function EarlyAnswer(call: StockCall, row: Option<Operation>): Option<Answer> {
    match call
    case ReserveCall(o, items, _) =>
      if row == None then None
      else if row.value.requestHash != Fingerprint(items) then Some(Refused(OrderIdConflict(o)))
      else if row.value.status == Released then Some(Refused(ReservationAlreadyReleased(o)))
      else Some(Granted(ReserveResult(o, row.value, true)))
    case ReleaseCall(o, _) =>
      if row == None then Some(Refused(ReservationNotFound(o)))
      else if row.value.status == Released then Some(ReleaseResult(o, row.value, true))
      else None
  }

  /** The lines the transaction is about. */
  function LinesOf(call: StockCall, row: Option<Operation>): seq<Item> {
    match call
    case ReserveCall(_, items, _) => items
    case ReleaseCall(_, _) => if row == None then [] else Items(row.value)
  }

  /** The existing rows among the items, in id order: `WHERE id = ANY(..) ORDER BY id`. */
  function ExistingIds(parts: map<PartId, Part>, sorted: seq<Item>): seq<PartId> {
    if sorted == [] then []
    else (if sorted[0].partId in parts then [sorted[0].partId] else []) + ExistingIds(parts, sorted[1..])
  }

  /** What the locked rows decide against the call. */
  function Refusal(call: StockCall, items: seq<Item>, got: map<PartId, Part>): Option<Answer> {
    match call
    case ReserveCall(_, _, _) =>
      if Missing(got, items) != [] then Some(Refused(PartsNotFound(Missing(got, items))))
      else if Shortages(got, items) != [] then Some(Refused(InsufficientStock(Shortages(got, items))))
      else None
    case ReleaseCall(_, _) => if Missing(got, items) != [] then Some(Threw) else None
  }

  function NewRow(call: StockCall, row: Option<Operation>, got: map<PartId, Part>): Operation
    requires call.ReleaseCall? ==> row.Some?
    requires Missing(got, LinesOf(call, row)) == []
  {
    match call
    case ReserveCall(_, items, now) => NewOperation(got, items, now)
    case ReleaseCall(_, now) =>
      assert forall i :: 0 <= i < |row.value.lines| ==> Items(row.value)[i].partId == row.value.lines[i].partId;
      ReleasedOperation(got, row.value, now)
  }

  function NewStock(call: StockCall, stock: int, quantity: nat): int {
    if call.ReserveCall? then stock - quantity else stock + quantity
  }

  /** The private writes after the first n lines, each computed from the stock that was read. */
  function WritesAfter(call: StockCall, items: seq<Item>, got: map<PartId, Part>, n: nat): map<PartId, Write>
    requires n <= |items| && forall i :: 0 <= i < |items| ==> items[i].partId in got
  {
    if n == 0 then map[]
    else
      var item := items[n - 1];
      WritesAfter(call, items, got, n - 1)[item.partId :=
        Write(NewStock(call, got[item.partId].stock, item.quantity), call.now)]
  }

  function Apply(parts: map<PartId, Part>, writes: map<PartId, Write>): map<PartId, Part> {
    map p | p in parts :: if p in writes then parts[p].(stock := writes[p].stock, updatedAt := writes[p].updatedAt)
      else parts[p]
  }

  function FinalAnswer(call: StockCall, operation: Operation): Answer {
    if call.ReserveCall? then Granted(ReserveResult(call.orderId, operation, false))
    else ReleaseResult(call.orderId, operation, false)
  }

  predicate Active(t: Tx) {
    !t.pc.Start? && !t.pc.Finished? && !t.pc.Aborted?
  }

  predicate Unfinished(t: Tx) {
    !t.pc.Finished? && !t.pc.Aborted?
  }

  /** Ending a transaction releases every lock it holds. */
  function Unlock(s: State, i: nat, pc: Pc): State
    requires i < |s.txs|
  {
    s.(txs := s.txs[i := s.txs[i].(pc := pc)],
       orderLocks := map k | k in s.orderLocks && s.orderLocks[k] != i :: s.orderLocks[k],
       partLocks := map p | p in s.partLocks && s.partLocks[p] != i :: s.partLocks[p])
  }

  function End(s: State, i: nat, db: Db, answer: Answer): State
    requires i < |s.txs|
  {
    Unlock(s, i, Finished(answer)).(db := db, log := s.log + [Entry(i, s.txs[i].call, answer)])
  }

  predicate Blocked(s: State, h: OrderHash, i: nat)
    requires i < |s.txs|
  {
    match s.txs[i].pc
    case Start => h(s.txs[i].call.orderId) in s.orderLocks
    case LockingParts(todo) => todo != [] && todo[0] in s.partLocks
    case _ => false
  }

  /** The next statement of transaction i; a blocked statement waits, a finished transaction does nothing. */
  function Advanced(s: State, h: OrderHash, i: nat): State
    requires i < |s.txs|
  {
    var t := s.txs[i];
    var o := t.call.orderId;
    if Blocked(s, h, i) then s
    else
      match t.pc
      case Start =>
        s.(orderLocks := s.orderLocks[h(o) := i], txs := s.txs[i := t.(pc := OrderLocked)])
      case OrderLocked =>
        var row := Lookup(s.db.ledger, o);
        var pc := match EarlyAnswer(t.call, row)
                  case Some(answer) => Answering(answer)
                  case None => LockingParts(ExistingIds(s.db.parts, SortItems(LinesOf(t.call, row))));
        s.(txs := s.txs[i := t.(row := row, pc := pc)])
      case LockingParts(todo) =>
        if todo != [] then
          if todo[0] !in s.db.parts then s
          else
            s.(partLocks := s.partLocks[todo[0] := i],
               txs := s.txs[i := t.(got := t.got[todo[0] := s.db.parts[todo[0]]], pc := LockingParts(todo[1..]))])
        else
          var items := LinesOf(t.call, t.row);
          var refusal := Refusal(t.call, items, t.got);
          if refusal.Some? then s.(txs := s.txs[i := t.(pc := Answering(refusal.value))])
          else if t.call.ReleaseCall? && t.row == None then s
          else s.(txs := s.txs[i := t.(pc := Writing(0, NewRow(t.call, t.row, t.got)))])
      case Writing(n, operation) =>
        var items := LinesOf(t.call, t.row);
        if n < |items| then
          var p := items[n].partId;
          if p !in t.got then s
          else
            var write := Write(NewStock(t.call, t.got[p].stock, items[n].quantity), t.call.now);
            s.(txs := s.txs[i := t.(writes := t.writes[p := write], pc := Writing(n + 1, operation))])
        else if t.call.ReserveCall? && o in s.db.ledger then Unlock(s, i, Aborted)  // primary key violation
        else End(s, i, Db(Apply(s.db.parts, t.writes), s.db.ledger[o := operation]), FinalAnswer(t.call, operation))
      case Answering(answer) => End(s, i, s.db, answer)
      case Finished(_) => s
      case Aborted => s
  }

  /** A transaction may also fail at any point before its end: nothing of it remains. */
  function Next(s: State, h: OrderHash, step: Step): State {
    if step.tx >= |s.txs| then s
    else
      match step
      case Advance(i) => Advanced(s, h, i)
      case Abort(i) => if Unfinished(s.txs[i]) then Unlock(s, i, Aborted) else s
  }

  function After(s: State, h: OrderHash, steps: seq<Step>): State {
    if steps == [] then s else Next(After(s, h, steps[..|steps| - 1]), h, steps[|steps| - 1])
  }

  predicate Initial(s: State) {
    && s.orderLocks == map[] && s.partLocks == map[] && s.log == []
    && forall i :: 0 <= i < |s.txs| ==>
      ValidCall(s.txs[i].call) && s.txs[i] == Tx(s.txs[i].call, Start, None, map[], map[])
  }

  // ---------- the invariant ----------

  predicate AscendingIds(ids: seq<PartId>) {
    forall i, j :: 0 <= i < j < |ids| ==> Before(ids[i], ids[j])
  }

  /** Every existing part of the lines has been read. */
  predicate Covers(db: Db, items: seq<Item>, got: map<PartId, Part>) {
    forall i :: 0 <= i < |items| && items[i].partId in db.parts ==> items[i].partId in got
  }

  predicate TxOk(s: State, h: OrderHash, i: nat)
    requires i < |s.txs|
  {
    var t := s.txs[i];
    var o := t.call.orderId;
    var items := LinesOf(t.call, t.row);
    && ValidCall(t.call)
    && (Active(t) ==> h(o) in s.orderLocks && s.orderLocks[h(o)] == i)
    && (Active(t) ==> forall p :: p in t.got ==>
          p in s.partLocks && s.partLocks[p] == i && p in s.db.parts && t.got[p] == s.db.parts[p])
    && (t.pc.Start? || t.pc.OrderLocked? ==> t.got == map[] && t.writes == map[])
    && (t.pc.LockingParts? || t.pc.Writing? || t.pc.Answering? ==> t.row == Lookup(s.db.ledger, o))
    && match t.pc
       case LockingParts(todo) =>
         && EarlyAnswer(t.call, t.row) == None && t.writes == map[]
         && AscendingIds(todo)
         && (forall p, k :: p in t.got && 0 <= k < |todo| ==> Before(p, todo[k]))
         && (forall k :: 0 <= k < |todo| ==> todo[k] in s.db.parts)
         && |todo| <= MAX_ITEMS_PER_ORDER
         && (forall k :: 0 <= k < |items| && items[k].partId in s.db.parts ==>
           items[k].partId in t.got || items[k].partId in todo)
       case Writing(n, operation) =>
         && EarlyAnswer(t.call, t.row) == None
         && Covers(s.db, items, t.got)
         && Refusal(t.call, items, t.got) == None
         && Missing(t.got, items) == []
         && operation == NewRow(t.call, t.row, t.got)
         && n <= |items| && t.writes == WritesAfter(t.call, items, t.got, n)
       case Answering(answer) =>
         || EarlyAnswer(t.call, t.row) == Some(answer)
         || (EarlyAnswer(t.call, t.row) == None && Covers(s.db, items, t.got)
           && Refusal(t.call, items, t.got) == Some(answer))
       case _ => true
  }

  ghost predicate LocksOk(s: State, h: OrderHash) {
    && (forall k :: k in s.orderLocks ==>
          s.orderLocks[k] < |s.txs| && Active(s.txs[s.orderLocks[k]]) && h(s.txs[s.orderLocks[k]].call.orderId) == k)
    && (forall p :: p in s.partLocks ==>
          s.partLocks[p] < |s.txs| && Active(s.txs[s.partLocks[p]]) && p in s.txs[s.partLocks[p]].got)
  }

  function CallsOf(log: seq<Entry>): (r: seq<StockCall>)
    ensures |r| == |log|
  {
    seq(|log|, k requires 0 <= k < |log| => log[k].call)
  }

  /** The logged answers are those of serving the logged calls one at a time, in log order. */
  predicate SerialAnswers(db: Db, log: seq<Entry>) {
    log == [] ||
    (var before, last := log[..|log| - 1], log[|log| - 1];
     SerialAnswers(db, before) && Serve(Exec(db, CallsOf(before)), last.call).1 == last.answer)
  }

  /** The log holds exactly the finished transactions, each once, with its own call and answer. */
  ghost predicate LogOk(s: State) {
    && (forall k :: 0 <= k < |s.log| ==>
          s.log[k].tx < |s.txs| && s.txs[s.log[k].tx].call == s.log[k].call
            && s.txs[s.log[k].tx].pc == Finished(s.log[k].answer))
    && (forall k, l :: 0 <= k < l < |s.log| ==> s.log[k].tx != s.log[l].tx)
    && (forall i :: 0 <= i < |s.txs| && s.txs[i].pc.Finished? ==> exists k :: 0 <= k < |s.log| && s.log[k].tx == i)
  }

  ghost predicate Inv(s: State, h: OrderHash, start: Db, initial: map<PartId, int>) {
    && DbInv(s.db, initial)
    && (forall i :: 0 <= i < |s.txs| ==> TxOk(s, h, i))
    && LocksOk(s, h)
    && LogOk(s)
    && SerialAnswers(start, s.log)
    && s.db == Exec(start, CallsOf(s.log))
  }

  // ---------- one transaction against the serial service ----------

  lemma {:induction false} ExistingIdsOk(parts: map<PartId, Part>, sorted: seq<Item>)
    requires Ascending(sorted)
    ensures var ids := ExistingIds(parts, sorted);
      && AscendingIds(ids) && |ids| <= |sorted|
      && (forall k :: 0 <= k < |ids| ==> ids[k] in parts && exists i :: 0 <= i < |sorted| && sorted[i].partId == ids[k])
      && (forall i :: 0 <= i < |sorted| && sorted[i].partId in parts ==> sorted[i].partId in ids)
  {
    if sorted != [] {
      ExistingIdsOk(parts, sorted[1..]);
      var rest := ExistingIds(parts, sorted[1..]);
      forall k | 0 <= k < |rest|
        ensures Before(sorted[0].partId, rest[k])
        ensures exists i :: 0 <= i < |sorted| && sorted[i].partId == rest[k]
      {
        var i :| 0 <= i < |sorted[1..]| && sorted[1..][i].partId == rest[k];
        assert sorted[i + 1].partId == rest[k];
      }
      assert forall i :: 1 <= i < |sorted| ==> sorted[i] == sorted[1..][i - 1];
    }
  }

  /** The rows a transaction locks: ascending, and all that exist. */
  lemma LockListOk(parts: map<PartId, Part>, items: seq<Item>)
    requires ValidItems(items)
    ensures var ids := ExistingIds(parts, SortItems(items));
      && AscendingIds(ids) && |ids| <= MAX_ITEMS_PER_ORDER
      && (forall k :: 0 <= k < |ids| ==> ids[k] in parts)
      && (forall i :: 0 <= i < |items| && items[i].partId in parts ==> items[i].partId in ids)
  {
    hide ValidItem, ExistingIds, AscendingIds;
    var sorted := SortItems(items);
    SortAscending(items);
    ExistingIdsOk(parts, sorted);
    forall i | 0 <= i < |items| && items[i].partId in parts ensures items[i].partId in ExistingIds(parts, sorted) {
      assert items[i] in multiset(items);
      assert items[i] in multiset(sorted);
      var k :| 0 <= k < |sorted| && sorted[k] == items[i];
    }
  }

  lemma {:induction false} WritesAreEffect(
    call: StockCall, parts: map<PartId, Part>, items: seq<Item>, got: map<PartId, Part>, n: nat)
    requires ValidItems(items) && n <= |items|
    requires forall i :: 0 <= i < |items| ==>
      items[i].partId in parts && items[i].partId in got && got[items[i].partId] == parts[items[i].partId]
    ensures Apply(parts, WritesAfter(call, items, got, n)) ==
      if call.ReserveCall? then Deduct(parts, items[..n], call.now) else Restore(parts, items[..n], call.now)
    ensures forall p :: p in WritesAfter(call, items, got, n) ==> p in got
  {
    hide ValidItems, Deduct, Restore;
    if n == 0 {
      StockServices.NothingToDo(parts, call.now);
      assert Apply(parts, map[]) == parts;
    } else {
      WritesAreEffect(call, parts, items, got, n - 1);
      StockServices.DeductStep(parts, items, n - 1, call.now);
      StockServices.RestoreStep(parts, items, n - 1, call.now);
      var p := items[n - 1].partId;
      var before := WritesAfter(call, items, got, n - 1);
      var write := Write(NewStock(call, got[p].stock, items[n - 1].quantity), call.now);
      assert Apply(parts, before[p := write]) ==
        Apply(parts, before)[p := Apply(parts, before)[p].(stock := write.stock, updatedAt := write.updatedAt)];
    }
  }

  /** What a transaction has read determines what serving its call at this moment does. */
  lemma ReadsDecide(db: Db, initial: map<PartId, int>, call: StockCall, row: Option<Operation>, got: map<PartId, Part>)
    requires DbInv(db, initial) && ValidCall(call) && row == Lookup(db.ledger, call.orderId)
    requires forall p :: p in got ==> p in db.parts && got[p] == db.parts[p]
    ensures EarlyAnswer(call, row).Some? ==> Serve(db, call) == (db, EarlyAnswer(call, row).value)
    ensures EarlyAnswer(call, row) == None ==> ValidItems(LinesOf(call, row)) && (call.ReserveCall? <==> row == None)
    ensures EarlyAnswer(call, row) == None && Covers(db, LinesOf(call, row), got) ==>
      var items := LinesOf(call, row);
      var refusal := Refusal(call, items, got);
      && (refusal.Some? ==> Serve(db, call) == (db, refusal.value))
      && (refusal == None ==>
            && Missing(got, items) == []
            && Serve(db, call) ==
                 (Db(Apply(db.parts, WritesAfter(call, items, got, |items|)),
                   db.ledger[call.orderId := NewRow(call, row, got)]),
                  FinalAnswer(call, NewRow(call, row, got))))
  {
    hide ValidItems, Fingerprint, Deduct, Restore, QuantityOf, TotalHeld, ReserveResult, ReleaseResult;
    hide NewOperation, ReleasedOperation;
    hide Apply, LineOk, WritesAfter;
    var items := LinesOf(call, row);
    if EarlyAnswer(call, row) == None && Covers(db, items, got) {
      SnapshotSuffices(db.parts, got, items);
      if Refusal(call, items, got) == None {
        WritesAreEffect(call, db.parts, items, got, |items|);
        assert items[..|items|] == items;
        match call {
          case ReserveCall(_, _, now) => StockServices.SameNewOperation(db.parts, got, items, now);
          case ReleaseCall(_, now) =>
            assert forall i :: 0 <= i < |items| ==> items[i].partId == row.value.lines[i].partId;
            SameReleased(db.parts, got, row.value, now);
        }
      }
    }
  }

  lemma SameReleased(parts: map<PartId, Part>, snapshot: map<PartId, Part>, op: Operation, now: Time)
    requires forall i :: 0 <= i < |op.lines| ==>
      var p := op.lines[i].partId; p in parts && p in snapshot && snapshot[p] == parts[p]
    ensures ReleasedOperation(snapshot, op, now) == ReleasedOperation(parts, op, now)
  {
    assert ReleasedOperation(snapshot, op, now).lines == ReleasedOperation(parts, op, now).lines;
  }

  // ---------- every step keeps the invariant ----------

  /** A transaction that keeps its locks, while its rows keep their values, is undisturbed. */
  lemma Undisturbed(s: State, after: State, h: OrderHash, j: nat)
    requires j < |s.txs| && j < |after.txs| && after.txs[j] == s.txs[j] && TxOk(s, h, j)
    requires after.db.parts.Keys == s.db.parts.Keys
    requires Lookup(after.db.ledger, s.txs[j].call.orderId) == Lookup(s.db.ledger, s.txs[j].call.orderId)
      || !Active(s.txs[j])
    requires forall p :: p in s.txs[j].got && p in s.db.parts && Active(s.txs[j]) ==> after.db.parts[p] == s.db.parts[p]
    requires forall k :: k in s.orderLocks && s.orderLocks[k] == j ==> k in after.orderLocks && after.orderLocks[k] == j
    requires forall p :: p in s.partLocks && s.partLocks[p] == j ==> p in after.partLocks && after.partLocks[p] == j
    ensures TxOk(after, h, j)
  {
    hide ValidItems, Fingerprint;
    assert forall p :: p in s.db.parts <==> p in after.db.parts;
    var t := s.txs[j];
    if Active(t) {
      var k := h(t.call.orderId);
      assert k in s.orderLocks && s.orderLocks[k] == j;
    }
  }

  /** A statement before the end touches only its own transaction and takes at most one free lock. */
  lemma StatementKeepsInvariant(
    s: State, after: State, h: OrderHash, start: Db, initial: map<PartId, int>, i: nat)
    requires Inv(s, h, start, initial) && i < |s.txs|
    requires after.db == s.db && after.log == s.log
    requires |after.txs| == |s.txs| && forall j :: 0 <= j < |s.txs| && j != i ==> after.txs[j] == s.txs[j]
    requires Unfinished(s.txs[i]) && Active(after.txs[i])
    requires forall k :: k in s.orderLocks ==> k in after.orderLocks && after.orderLocks[k] == s.orderLocks[k]
    requires forall p :: p in s.partLocks ==> p in after.partLocks && after.partLocks[p] == s.partLocks[p]
    requires TxOk(after, h, i) && LocksOk(after, h)
    ensures Inv(after, h, start, initial)
  {
    hide TxOk, DbInv, Exec, SerialAnswers, LocksOk;
    forall j | 0 <= j < |after.txs| ensures TxOk(after, h, j) {
      if j != i { Undisturbed(s, after, h, j); }
    }
    assert forall k :: 0 <= k < |after.log| ==> after.log[k].tx != i;
  }

  lemma LockOrderKeeps(s: State, h: OrderHash, start: Db, initial: map<PartId, int>, i: nat)
    requires Inv(s, h, start, initial) && i < |s.txs| && s.txs[i].pc.Start? && !Blocked(s, h, i)
    ensures Inv(Advanced(s, h, i), h, start, initial)
  {
    hide DbInv, Exec, SerialAnswers, LogOk, ValidItems;
    var after := Advanced(s, h, i);
    var k := h(s.txs[i].call.orderId);
    assert TxOk(s, h, i);
    assert k in after.orderLocks && after.orderLocks[k] == i;
    StatementKeepsInvariant(s, after, h, start, initial, i);
  }

  lemma ReadLedgerKeeps(s: State, h: OrderHash, start: Db, initial: map<PartId, int>, i: nat)
    requires Inv(s, h, start, initial) && i < |s.txs| && s.txs[i].pc.OrderLocked?
    ensures Inv(Advanced(s, h, i), h, start, initial)
  {
    hide Exec, SerialAnswers, LogOk, ValidItems, ValidItem, TotalHeld, ExistingIds, SortItems, EarlyAnswer;
    hide LinesOf, OperationOk;
    var after := Advanced(s, h, i);
    var t := s.txs[i];
    var row := Lookup(s.db.ledger, t.call.orderId);
    assert TxOk(s, h, i);
    ReadsDecide(s.db, initial, t.call, row, map[]);
    if EarlyAnswer(t.call, row) == None {
      LockListOk(s.db.parts, LinesOf(t.call, row));
    }
    assert TxOk(after, h, i);
    StatementKeepsInvariant(s, after, h, start, initial, i);
  }

  lemma LockPartKeeps(s: State, h: OrderHash, start: Db, initial: map<PartId, int>, i: nat)
    requires Inv(s, h, start, initial) && i < |s.txs| && s.txs[i].pc.LockingParts? && s.txs[i].pc.todo != []
      && !Blocked(s, h, i)
    ensures Inv(Advanced(s, h, i), h, start, initial)
    ensures Advanced(s, h, i).txs[i].pc == LockingParts(s.txs[i].pc.todo[1..])
  {
    hide DbInv, Exec, SerialAnswers, LogOk, TxOk, ValidItems, EarlyAnswer, LinesOf;
    assert TxOk(s, h, i);
    LockPartOk(s, h, i);
    StatementKeepsInvariant(s, Advanced(s, h, i), h, start, initial, i);
  }

  lemma LockPartOk(s: State, h: OrderHash, i: nat)
    requires i < |s.txs| && s.txs[i].pc.LockingParts? && s.txs[i].pc.todo != [] && !Blocked(s, h, i)
    requires TxOk(s, h, i)
    ensures var after := Advanced(s, h, i); var p := s.txs[i].pc.todo[0];
      && TxOk(after, h, i) && Active(after.txs[i]) && Unfinished(s.txs[i])
      && after == s.(txs := s.txs[i := after.txs[i]], partLocks := s.partLocks[p := i])
      && after.txs[i].pc == LockingParts(s.txs[i].pc.todo[1..])
  {
    hide DbInv, Exec, SerialAnswers, LogOk, ValidItems, EarlyAnswer, LinesOf;
    var after := Advanced(s, h, i);
    var todo := s.txs[i].pc.todo;
    assert todo[0] in s.db.parts;
    assert forall k :: 0 <= k < |todo[1..]| ==> todo[1..][k] == todo[k + 1];
    var items := LinesOf(s.txs[i].call, s.txs[i].row);
    forall k | 0 <= k < |items| && items[k].partId in s.db.parts
      ensures items[k].partId in after.txs[i].got || items[k].partId in todo[1..]
    {
      if items[k].partId in todo && items[k].partId != todo[0] {
        var l :| 0 <= l < |todo| && todo[l] == items[k].partId;
        assert todo[1..][l - 1] == items[k].partId;
      }
    }
  }

  lemma DecideKeeps(s: State, h: OrderHash, start: Db, initial: map<PartId, int>, i: nat)
    requires Inv(s, h, start, initial) && i < |s.txs| && s.txs[i].pc == LockingParts([])
    ensures Inv(Advanced(s, h, i), h, start, initial)
    ensures Advanced(s, h, i).txs[i].pc.Answering?
      || (Advanced(s, h, i).txs[i].pc.Writing? && Advanced(s, h, i).txs[i].pc.done == 0)
  {
    hide Exec, Serve, DbInv, SerialAnswers, LogOk, ValidItems, EarlyAnswer, Refusal, NewRow, Missing, Apply;
    hide FinalAnswer, LinesOf;
    var after := Advanced(s, h, i);
    var t := s.txs[i];
    assert TxOk(s, h, i);
    ReadsDecide(s.db, initial, t.call, t.row, t.got);
    assert Covers(s.db, LinesOf(t.call, t.row), t.got);
    assert TxOk(after, h, i);
    StatementKeepsInvariant(s, after, h, start, initial, i);
  }

  lemma WriteRowKeeps(s: State, h: OrderHash, start: Db, initial: map<PartId, int>, i: nat)
    requires Inv(s, h, start, initial) && i < |s.txs| && s.txs[i].pc.Writing?
    requires s.txs[i].pc.done < |LinesOf(s.txs[i].call, s.txs[i].row)|
    ensures Inv(Advanced(s, h, i), h, start, initial)
    ensures Advanced(s, h, i).txs[i].pc == Writing(s.txs[i].pc.done + 1, s.txs[i].pc.operation)
  {
    hide DbInv, Exec, SerialAnswers, LogOk, TxOk, ValidItems, EarlyAnswer, LinesOf, NewStock;
    assert TxOk(s, h, i);
    WriteRowOk(s, h, i);
    StatementKeepsInvariant(s, Advanced(s, h, i), h, start, initial, i);
  }

  lemma WriteRowOk(s: State, h: OrderHash, i: nat)
    requires i < |s.txs| && s.txs[i].pc.Writing? && s.txs[i].pc.done < |LinesOf(s.txs[i].call, s.txs[i].row)|
    requires TxOk(s, h, i)
    ensures var after := Advanced(s, h, i);
      && TxOk(after, h, i) && Active(after.txs[i]) && Unfinished(s.txs[i])
      && after == s.(txs := s.txs[i := after.txs[i]])
      && after.txs[i].pc == Writing(s.txs[i].pc.done + 1, s.txs[i].pc.operation)
  {
    hide DbInv, Exec, SerialAnswers, LogOk, ValidItems, EarlyAnswer, Refusal, NewRow;
  }

  /** Ending transaction i leaves the locks of all others in place. */
  lemma UnlockKeepsOthers(s: State, h: OrderHash, i: nat, pc: Pc)
    requires i < |s.txs| && LocksOk(s, h) && (pc.Finished? || pc.Aborted?)
    ensures LocksOk(Unlock(s, i, pc), h)
    ensures forall k :: k in s.orderLocks && s.orderLocks[k] != i ==>
      k in Unlock(s, i, pc).orderLocks && Unlock(s, i, pc).orderLocks[k] == s.orderLocks[k]
    ensures forall p :: p in s.partLocks && s.partLocks[p] != i ==>
      p in Unlock(s, i, pc).partLocks && Unlock(s, i, pc).partLocks[p] == s.partLocks[p]
  {
  }

  lemma AbortKeeps(s: State, h: OrderHash, start: Db, initial: map<PartId, int>, i: nat)
    requires Inv(s, h, start, initial) && i < |s.txs| && Unfinished(s.txs[i])
    ensures Inv(Unlock(s, i, Aborted), h, start, initial)
  {
    hide TxOk, DbInv, Exec, SerialAnswers, LocksOk;
    var after := Unlock(s, i, Aborted);
    UnlockKeepsOthers(s, h, i, Aborted);
    forall j | 0 <= j < |after.txs| ensures TxOk(after, h, j) {
      if j != i { Undisturbed(s, after, h, j); } else { EndedIsOk(s, after, h, i); }
    }
    assert forall k :: 0 <= k < |after.log| ==> after.log[k].tx != i;
  }

  lemma EndedIsOk(s: State, after: State, h: OrderHash, i: nat)
    requires i < |s.txs| && i < |after.txs| && TxOk(s, h, i)
    requires after.txs[i].call == s.txs[i].call && !Unfinished(after.txs[i])
    ensures TxOk(after, h, i)
  {
  }

  /** Two running transactions are about different orders and have read different parts. */
  lemma HeldApart(s: State, h: OrderHash, i: nat, j: nat)
    requires i < |s.txs| && j < |s.txs| && i != j && TxOk(s, h, i) && TxOk(s, h, j)
    requires Active(s.txs[i]) && Active(s.txs[j])
    ensures s.txs[i].call.orderId != s.txs[j].call.orderId
    ensures forall p :: p in s.txs[j].got ==> p !in s.txs[i].got
  {
    var k, l := h(s.txs[i].call.orderId), h(s.txs[j].call.orderId);
    assert s.orderLocks[k] == i && s.orderLocks[l] == j;
  }

  lemma SerialSnoc(start: Db, log: seq<Entry>, e: Entry)
    requires SerialAnswers(start, log) && Serve(Exec(start, CallsOf(log)), e.call).1 == e.answer
    ensures SerialAnswers(start, log + [e])
    ensures Exec(start, CallsOf(log + [e])) == Serve(Exec(start, CallsOf(log)), e.call).0
  {
    hide Serve;
    assert (log + [e])[..|log|] == log;
    assert CallsOf(log + [e]) == CallsOf(log) + [e.call];
    assert (CallsOf(log) + [e.call])[..|log|] == CallsOf(log);
  }

  lemma LogGrows(s: State, i: nat, db: Db, answer: Answer)
    requires LogOk(s) && i < |s.txs| && Active(s.txs[i])
    ensures LogOk(End(s, i, db, answer))
  {
    var after := End(s, i, db, answer);
    assert after.log[|s.log|].tx == i;
    forall j | 0 <= j < |after.txs| && after.txs[j].pc.Finished?
      ensures exists k :: 0 <= k < |after.log| && after.log[k].tx == j
    {
      if j != i {
        var k :| 0 <= k < |s.log| && s.log[k].tx == j;
        assert after.log[k].tx == j;
      }
    }
  }

  /** Ending with an answer is serving the call: provided the transaction's result is what `Serve` gives now. */
  lemma EndKeeps(s: State, h: OrderHash, start: Db, initial: map<PartId, int>, i: nat, db: Db, answer: Answer)
    requires Inv(s, h, start, initial) && i < |s.txs| && Active(s.txs[i])
    requires Serve(s.db, s.txs[i].call) == (db, answer)
    requires db.parts.Keys == s.db.parts.Keys
    requires forall o :: o != s.txs[i].call.orderId ==> Lookup(db.ledger, o) == Lookup(s.db.ledger, o)
    requires forall p :: p in s.db.parts && p !in s.txs[i].got ==> db.parts[p] == s.db.parts[p]
    ensures Inv(End(s, i, db, answer), h, start, initial)
  {
    hide TxOk, DbInv, Exec, Serve, SerialAnswers, LocksOk, LogOk;
    var after := End(s, i, db, answer);
    var t := s.txs[i];
    assert TxOk(s, h, i) && ValidCall(t.call) by { CallIsValid(s, h, i); }
    UnlockKeepsOthers(s, h, i, Finished(answer));
    assert LocksOk(after, h) by { SameLocks(Unlock(s, i, Finished(answer)), after, h); }
    forall j | 0 <= j < |after.txs| ensures TxOk(after, h, j) {
      if j == i {
        EndedIsOk(s, after, h, i);
      } else {
        if Active(s.txs[j]) { HeldApart(s, h, i, j); }
        Undisturbed(s, after, h, j);
      }
    }
    ServeKeepsInvariant(s.db, initial, t.call);
    LogGrows(s, i, db, answer);
    SerialSnoc(start, s.log, Entry(i, t.call, answer));
  }

  lemma CallIsValid(s: State, h: OrderHash, i: nat)
    requires i < |s.txs| && TxOk(s, h, i)
    ensures ValidCall(s.txs[i].call)
  {
  }

  lemma SameLocks(s: State, after: State, h: OrderHash)
    requires LocksOk(s, h) && after.txs == s.txs && after.orderLocks == s.orderLocks && after.partLocks == s.partLocks
    ensures LocksOk(after, h)
  {
  }

  lemma AnswerKeeps(s: State, h: OrderHash, start: Db, initial: map<PartId, int>, i: nat)
    requires Inv(s, h, start, initial) && i < |s.txs| && s.txs[i].pc.Answering?
    ensures Inv(Advanced(s, h, i), h, start, initial)
  {
    hide DbInv, Exec, Serve, SerialAnswers, LocksOk, LogOk, EarlyAnswer, Refusal, LinesOf, Inv;
    assert TxOk(s, h, i) && DbInv(s.db, initial) by { InvParts(s, h, start, initial, i); }
    var t := s.txs[i];
    ReadsDecide(s.db, initial, t.call, t.row, t.got);
    EndKeeps(s, h, start, initial, i, s.db, t.pc.answer);
  }

  lemma InvParts(s: State, h: OrderHash, start: Db, initial: map<PartId, int>, i: nat)
    requires Inv(s, h, start, initial) && i < |s.txs|
    ensures TxOk(s, h, i) && DbInv(s.db, initial)
  {
  }

  /** A commit never meets an existing ledger row, and applies exactly what `Serve` would. */
  lemma CommitKeeps(s: State, h: OrderHash, start: Db, initial: map<PartId, int>, i: nat)
    requires Inv(s, h, start, initial) && i < |s.txs| && s.txs[i].pc.Writing?
    requires s.txs[i].pc.done == |LinesOf(s.txs[i].call, s.txs[i].row)|
    ensures Inv(Advanced(s, h, i), h, start, initial)
    ensures Advanced(s, h, i).txs[i].pc.Finished?
  {
    hide DbInv, Exec, Serve, SerialAnswers, LocksOk, LogOk, EarlyAnswer, Refusal, Inv, NewRow, WritesAfter;
    assert TxOk(s, h, i) && DbInv(s.db, initial) by { InvParts(s, h, start, initial, i); }
    var t := s.txs[i];
    var items := LinesOf(t.call, t.row);
    ReadsDecide(s.db, initial, t.call, t.row, t.got);
    WritesAreRead(t.call, items, t.got, |items|);
    assert t.call.ReserveCall? ==> t.call.orderId !in s.db.ledger;
    EndKeeps(s, h, start, initial, i,
      Db(Apply(s.db.parts, t.writes), s.db.ledger[t.call.orderId := t.pc.operation]),
        FinalAnswer(t.call, t.pc.operation));
  }

  lemma {:induction false} WritesAreRead(call: StockCall, items: seq<Item>, got: map<PartId, Part>, n: nat)
    requires n <= |items| && forall i :: 0 <= i < |items| ==> items[i].partId in got
    ensures forall p :: p in WritesAfter(call, items, got, n) ==> p in got
  {
    if n > 0 { WritesAreRead(call, items, got, n - 1); }
  }

  lemma AdvanceKeeps(s: State, h: OrderHash, start: Db, initial: map<PartId, int>, i: nat)
    requires Inv(s, h, start, initial) && i < |s.txs|
    ensures Inv(Advanced(s, h, i), h, start, initial)
  {
    hide Inv, Advanced;
    assert TxOk(s, h, i) by { InvParts(s, h, start, initial, i); }
    if Blocked(s, h, i) || !Unfinished(s.txs[i]) {
      assert Advanced(s, h, i) == s by { NothingHappens(s, h, i); }
    } else {
      match s.txs[i].pc
      case Start => LockOrderKeeps(s, h, start, initial, i);
      case OrderLocked => ReadLedgerKeeps(s, h, start, initial, i);
      case LockingParts(todo) =>
        if todo != [] { LockPartKeeps(s, h, start, initial, i); } else { DecideKeeps(s, h, start, initial, i); }
      case Writing(n, _) =>
        if n < |LinesOf(s.txs[i].call, s.txs[i].row)| { WriteRowKeeps(s, h, start, initial, i); }
        else { CommitKeeps(s, h, start, initial, i); }
      case Answering(_) => AnswerKeeps(s, h, start, initial, i);
    }
  }

  lemma NothingHappens(s: State, h: OrderHash, i: nat)
    requires i < |s.txs| && (Blocked(s, h, i) || !Unfinished(s.txs[i]))
    ensures Advanced(s, h, i) == s
  {
  }

  lemma NextKeeps(s: State, h: OrderHash, start: Db, initial: map<PartId, int>, step: Step)
    requires Inv(s, h, start, initial)
    ensures Inv(Next(s, h, step), h, start, initial)
  {
    hide Inv, Advanced, Unlock;
    if step.tx < |s.txs| {
      match step
      case Advance(i) => AdvanceKeeps(s, h, start, initial, i);
      case Abort(i) => if Unfinished(s.txs[i]) { AbortKeeps(s, h, start, initial, i); }
    }
  }

  lemma {:induction false} RunKeeps(s: State, h: OrderHash, initial: map<PartId, int>, steps: seq<Step>)
    requires Initial(s) && DbInv(s.db, initial)
    ensures Inv(After(s, h, steps), h, s.db, initial)
  {
    hide Next, TxOk, DbInv, ValidCall;
    if steps == [] {
      forall i | 0 <= i < |s.txs| ensures TxOk(s, h, i) { InitialTxOk(s, h, i); }
    } else {
      RunKeeps(s, h, initial, steps[..|steps| - 1]);
      NextKeeps(After(s, h, steps[..|steps| - 1]), h, s.db, initial, steps[|steps| - 1]);
    }
  }

  lemma InitialTxOk(s: State, h: OrderHash, i: nat)
    requires Initial(s) && i < |s.txs|
    ensures TxOk(s, h, i)
  {
  }

  // ---------- serializability ----------

  lemma {:induction false} LoggedAnswer(db: Db, log: seq<Entry>, k: nat)
    requires SerialAnswers(db, log) && k < |log|
    ensures Serve(Exec(db, CallsOf(log[..k])), log[k].call).1 == log[k].answer
  {
    hide Serve, Exec;
    if k < |log| - 1 {
      LoggedAnswer(db, log[..|log| - 1], k);
      assert log[..|log| - 1][..k] == log[..k];
    }
  }

  lemma {:induction false} CallsNeverChange(s: State, h: OrderHash, steps: seq<Step>)
    ensures |After(s, h, steps).txs| == |s.txs|
    ensures forall i :: 0 <= i < |s.txs| ==> After(s, h, steps).txs[i].call == s.txs[i].call
  {
    hide Next;
    if steps != [] {
      CallsNeverChange(s, h, steps[..|steps| - 1]);
      CallsStay(After(s, h, steps[..|steps| - 1]), h, steps[|steps| - 1]);
    }
  }

  lemma CallsStay(s: State, h: OrderHash, step: Step)
    ensures |Next(s, h, step).txs| == |s.txs|
    ensures forall i :: 0 <= i < |s.txs| ==> Next(s, h, step).txs[i].call == s.txs[i].call
  {
    hide Blocked, EarlyAnswer, LinesOf, Refusal, NewRow, ExistingIds, SortItems, Apply, FinalAnswer, NewStock, Lookup;
  }

  /**
   Any interleaving of the statements of any calls is equivalent to serving the calls that
   finished one at a time, in the order they ended: same stock, same ledger, and every
   caller gets the answer it would have got then. Aborted calls leave no trace.
   */
  lemma Serializable(s: State, h: OrderHash, initial: map<PartId, int>, steps: seq<Step>)
    requires Initial(s) && DbInv(s.db, initial)
    ensures var t := After(s, h, steps);
      && t.db == Exec(s.db, CallsOf(t.log))
      && DbInv(t.db, initial)
      && |t.txs| == |s.txs|
      && (forall k, l :: 0 <= k < l < |t.log| ==> t.log[k].tx != t.log[l].tx)
      && (forall k :: 0 <= k < |t.log| ==>
            && t.log[k].tx < |s.txs| && t.log[k].call == s.txs[t.log[k].tx].call
            && t.txs[t.log[k].tx].pc == Finished(Serve(Exec(s.db, CallsOf(t.log[..k])), t.log[k].call).1))
      && (forall i :: 0 <= i < |t.txs| && t.txs[i].pc.Finished? ==> exists k :: 0 <= k < |t.log| && t.log[k].tx == i)
  {
    hide TxOk, DbInv, Serve, Exec, After, LocksOk, SerialAnswers;
    RunKeeps(s, h, initial, steps);
    CallsNeverChange(s, h, steps);
    var t := After(s, h, steps);
    forall k | 0 <= k < |t.log|
      ensures t.txs[t.log[k].tx].pc == Finished(Serve(Exec(s.db, CallsOf(t.log[..k])), t.log[k].call).1)
    {
      LoggedAnswer(s.db, t.log, k);
    }
  }

  function GrantedIn(log: seq<Entry>): nat {
    if log == [] then 0
    else GrantedIn(log[..|log| - 1]) + if log[|log| - 1].answer.Granted? then 1 else 0
  }

  lemma {:induction false} GrantedAreAdmitted(db: Db, log: seq<Entry>)
    requires SerialAnswers(db, log)
    ensures GrantedIn(log) == Admitted(db, CallsOf(log))
  {
    hide Serve, Exec;
    if log != [] {
      GrantedAreAdmitted(db, log[..|log| - 1]);
      assert CallsOf(log)[..|log| - 1] == CallsOf(log[..|log| - 1]);
    }
  }

  /**
   Concurrent reserves of q units by different orders on a stock of s: of n that end, exactly min(n,
   s / q) succeed.
   */
  lemma ConcurrentAdmission(s: State, h: OrderHash, initial: map<PartId, int>, steps: seq<Step>, p: PartId, q: nat)
    requires Initial(s) && DbInv(s.db, initial) && p in s.db.parts && q >= 1
    requires forall i :: 0 <= i < |s.txs| ==>
      s.txs[i].call.ReserveCall? && s.txs[i].call.items == [Item(p, q)] && s.txs[i].call.orderId !in s.db.ledger
    requires forall i, j :: 0 <= i < j < |s.txs| ==> s.txs[i].call.orderId != s.txs[j].call.orderId
    ensures var t := After(s, h, steps);
      && GrantedIn(t.log) == Min(|t.log|, s.db.parts[p].stock / q)
      && p in t.db.parts && t.db.parts[p].stock == s.db.parts[p].stock - GrantedIn(t.log) * q
  {
    hide TxOk, Serve, Exec, After, LocksOk, SerialAnswers, TotalHeld, OperationOk, Initial;
    RunKeeps(s, h, initial, steps);
    CallsNeverChange(s, h, steps);
    var t := After(s, h, steps);
    GrantedAreAdmitted(s.db, t.log);
    AdmissionIsExact(s.db, CallsOf(t.log), p, q);
  }

  // ---------- deadlock freedom ----------

  /** The transaction holding what a blocked transaction waits for. */
  function Holder(s: State, h: OrderHash, i: nat): nat
    requires i < |s.txs| && Blocked(s, h, i)
  {
    if s.txs[i].pc.Start? then s.orderLocks[h(s.txs[i].call.orderId)] else s.partLocks[s.txs[i].pc.todo[0]]
  }

  /** `a` asks for a resource below the one `b` asks for: order locks come before parts, parts in id order. */
  predicate AsksBelow(a: Tx, b: Tx) {
    && b.pc.LockingParts? && b.pc.todo != []
    && (a.pc.Start? || (a.pc.LockingParts? && a.pc.todo != [] && Before(a.pc.todo[0], b.pc.todo[0])))
  }

  /** Whoever a transaction waits for is still running; if that one waits too, it waits for something higher. */
  lemma WaitingAscends(s: State, h: OrderHash, start: Db, initial: map<PartId, int>, i: nat)
    requires Inv(s, h, start, initial) && i < |s.txs| && Blocked(s, h, i)
    ensures var j := Holder(s, h, i);
      && j < |s.txs| && Active(s.txs[j])
      && (Blocked(s, h, j) ==> AsksBelow(s.txs[i], s.txs[j]))
  {
    hide DbInv, Exec, SerialAnswers, LogOk, EarlyAnswer, Refusal, NewRow, LinesOf;
    var j := Holder(s, h, i);
    if s.txs[i].pc.Start? {
      var k := h(s.txs[i].call.orderId);
      assert k in s.orderLocks;
    } else {
      assert s.txs[i].pc.todo[0] in s.partLocks;
    }
    assert TxOk(s, h, j);
  }

  lemma AsksBelowTransitive(a: Tx, b: Tx, c: Tx)
    requires AsksBelow(a, b) && AsksBelow(b, c)
    ensures AsksBelow(a, c)
  {
    if a.pc.LockingParts? { BeforeTransitive(a.pc.todo[0], b.pc.todo[0], c.pc.todo[0]); }
  }

  /** A chain of transactions, each waiting for the next. */
  predicate WaitChain(s: State, h: OrderHash, chain: seq<nat>) {
    && (forall k :: 0 <= k < |chain| ==> chain[k] < |s.txs|)
    && (forall k :: 0 <= k < |chain| - 1 ==> Blocked(s, h, chain[k]) && Holder(s, h, chain[k]) == chain[k + 1])
  }

  lemma {:induction false} ChainAscends(s: State, h: OrderHash, start: Db, initial: map<PartId, int>, chain: seq<nat>)
    requires Inv(s, h, start, initial) && |chain| >= 2 && WaitChain(s, h, chain) && Blocked(s, h, chain[|chain| - 1])
    ensures AsksBelow(s.txs[chain[0]], s.txs[chain[|chain| - 1]])
  {
    hide Inv, Blocked, Holder, AsksBelow;
    var n := |chain| - 1;
    WaitingAscends(s, h, start, initial, chain[n - 1]);
    if n >= 2 {
      ChainAscends(s, h, start, initial, chain[..n]);
      AsksBelowTransitive(s.txs[chain[0]], s.txs[chain[n - 1]], s.txs[chain[n]]);
    }
  }

  /** No reachable state has transactions waiting for each other in a circle. */
  lemma NoDeadlock(s: State, h: OrderHash, initial: map<PartId, int>, steps: seq<Step>, chain: seq<nat>)
    requires Initial(s) && DbInv(s.db, initial)
    requires |chain| >= 2 && WaitChain(After(s, h, steps), h, chain)
    ensures chain[0] != chain[|chain| - 1]
  {
    hide Inv, After, DbInv;
    RunKeeps(s, h, initial, steps);
    if chain[0] == chain[|chain| - 1] {
      var t := After(s, h, steps);
      assert Blocked(t, h, chain[0]);
      ChainAscends(t, h, s.db, initial, chain);
      if t.txs[chain[0]].pc.LockingParts? { BeforeTotal(t.txs[chain[0]].pc.todo[0], ""); }
    }
  }

  /** The locked parts above what a transaction asks for. */
  ghost function Above(s: State, i: nat): set<PartId>
    requires i < |s.txs|
  {
    set p | p in s.partLocks &&
      (s.txs[i].pc.LockingParts? && s.txs[i].pc.todo != [] ==> Before(s.txs[i].pc.todo[0], p))
  }

  /** Following the wait-for relation from any unfinished transaction ends at one that can run. */
  lemma {:induction false} SomeoneCanRun(
    s: State, h: OrderHash, start: Db, initial: map<PartId, int>, i: nat) returns (j: nat)
    requires Inv(s, h, start, initial) && i < |s.txs| && Unfinished(s.txs[i])
    ensures j < |s.txs| && Unfinished(s.txs[j]) && !Blocked(s, h, j)
    decreases s.txs[i].pc.Start?, Above(s, i)
  {
    hide Inv;
    if !Blocked(s, h, i) { return i; }
    WaitingAscends(s, h, start, initial, i);
    j := Holder(s, h, i);
    if Blocked(s, h, j) {
      var q := s.txs[j].pc.todo[0];
      BeforeTotal(q, q);
      if s.txs[i].pc.LockingParts? {
        assert q in Above(s, i) && q !in Above(s, j);
        forall p | p in Above(s, j) ensures p in Above(s, i) {
          BeforeTransitive(s.txs[i].pc.todo[0], q, p);
        }
      }
      j := SomeoneCanRun(s, h, start, initial, j);
    }
  }

  // ---------- completion ----------

  /** A bound on the statements transaction t still has to run. */
  function Work(t: Tx): nat {
    match t.pc
    case Start => 2 * MAX_ITEMS_PER_ORDER + 4
    case OrderLocked => 2 * MAX_ITEMS_PER_ORDER + 3
    case LockingParts(todo) => MAX_ITEMS_PER_ORDER + 2 + |todo|
    case Writing(n, _) => var lines := |LinesOf(t.call, t.row)|; if n < lines then 1 + lines - n else 1
    case Answering(_) => 1
    case Finished(_) => 0
    case Aborted => 0
  }

  function TotalWork(txs: seq<Tx>): nat {
    if txs == [] then 0 else Work(txs[0]) + TotalWork(txs[1..])
  }

  lemma {:induction false} TotalWorkUpdate(txs: seq<Tx>, i: nat, t: Tx)
    requires i < |txs|
    ensures TotalWork(txs[i := t]) == TotalWork(txs) - Work(txs[i]) + Work(t)
  {
    if i > 0 {
      assert txs[i := t][1..] == txs[1..][i - 1 := t];
      TotalWorkUpdate(txs[1..], i - 1, t);
    } else {
      assert txs[0 := t][1..] == txs[1..];
    }
  }

  /** An unblocked unfinished transaction always makes progress. */
  lemma AdvanceWorks(s: State, h: OrderHash, start: Db, initial: map<PartId, int>, i: nat)
    requires Inv(s, h, start, initial) && i < |s.txs| && Unfinished(s.txs[i]) && !Blocked(s, h, i)
    ensures TotalWork(Advanced(s, h, i).txs) < TotalWork(s.txs)
  {
    hide DbInv, Exec, Serve, SerialAnswers, LocksOk, LogOk, EarlyAnswer, Refusal, Inv, NewRow, TotalWork, LinesOf;
    var t := s.txs[i];
    var after := Advanced(s, h, i);
    InvParts(s, h, start, initial, i);
    match t.pc {
      case OrderLocked =>
        ReadLedgerKeeps(s, h, start, initial, i);
        InvParts(after, h, start, initial, i);
      case LockingParts(todo) =>
        if todo != [] {
          LockPartKeeps(s, h, start, initial, i);
        } else {
          DecideKeeps(s, h, start, initial, i);
          InvParts(after, h, start, initial, i);
          LinesAreFew(s.db, initial, t.call, t.row);
        }
      case Writing(n, _) =>
        if n < |LinesOf(t.call, t.row)| { WriteRowKeeps(s, h, start, initial, i); }
        else { CommitKeeps(s, h, start, initial, i); }
      case _ =>
    }
    assert after.txs == s.txs[i := after.txs[i]];
    TotalWorkUpdate(s.txs, i, after.txs[i]);
  }

  lemma LinesAreFew(db: Db, initial: map<PartId, int>, call: StockCall, row: Option<Operation>)
    requires DbInv(db, initial) && ValidCall(call) && row == Lookup(db.ledger, call.orderId)
    ensures |LinesOf(call, row)| <= MAX_ITEMS_PER_ORDER
  {
    if call.ReleaseCall? && row.Some? {
      assert OperationOk(row.value, db.parts.Keys);
    }
  }

  /** While any transaction is unfinished, one of them can run, and running it brings all of them nearer their end. */
  lemma CompletionIsReachable(s: State, h: OrderHash, initial: map<PartId, int>, steps: seq<Step>)
    requires Initial(s) && DbInv(s.db, initial)
    requires exists i :: 0 <= i < |After(s, h, steps).txs| && Unfinished(After(s, h, steps).txs[i])
    ensures var t := After(s, h, steps);
      exists j :: 0 <= j < |t.txs| && Unfinished(t.txs[j]) && !Blocked(t, h, j)
        && TotalWork(Next(t, h, Advance(j)).txs) < TotalWork(t.txs)
  {
    hide Inv, After, DbInv, Advanced, Blocked, TotalWork;
    RunKeeps(s, h, initial, steps);
    CallsNeverChange(s, h, steps);
    var t := After(s, h, steps);
    var i :| 0 <= i < |t.txs| && Unfinished(t.txs[i]);
    var j := SomeoneCanRun(t, h, s.db, initial, i);
    AdvanceWorks(t, h, s.db, initial, j);
  }

  /** Scheduling whoever can run finishes every transaction within `TotalWork` statements, without aborting any. */
  lemma {:induction false} EveryoneFinishes(
    s: State, h: OrderHash, start: Db, initial: map<PartId, int>) returns (steps: seq<Step>)
    requires Inv(s, h, start, initial)
    ensures |steps| <= TotalWork(s.txs)
    ensures forall k :: 0 <= k < |steps| ==> steps[k].Advance?
    ensures forall i :: 0 <= i < |After(s, h, steps).txs| ==> !Unfinished(After(s, h, steps).txs[i])
    decreases TotalWork(s.txs)
  {
    hide Inv, Advanced, Blocked, TotalWork;
    if i :| 0 <= i < |s.txs| && Unfinished(s.txs[i]) {
      var j := SomeoneCanRun(s, h, start, initial, i);
      AdvanceWorks(s, h, start, initial, j);
      NextKeeps(s, h, start, initial, Advance(j));
      var rest := EveryoneFinishes(Next(s, h, Advance(j)), h, start, initial);
      steps := [Advance(j)] + rest;
      AfterCons(s, h, Advance(j), rest);
    } else {
      steps := [];
    }
  }

  /** A step of a transaction that is not finished and not waiting, or its abort. */
  predicate Productive(s: State, h: OrderHash, step: Step) {
    step.tx < |s.txs| && Unfinished(s.txs[step.tx]) && (step.Advance? ==> !Blocked(s, h, step.tx))
  }

  /** Any choice at all of who runs next, or aborts, as long as it can. */
  predicate Schedule(s: State, h: OrderHash, steps: seq<Step>) {
    forall k :: 0 <= k < |steps| ==> Productive(After(s, h, steps[..k]), h, steps[k])
  }

  lemma AbortWorks(s: State, h: OrderHash, i: nat)
    requires i < |s.txs| && Unfinished(s.txs[i])
    ensures TotalWork(Next(s, h, Abort(i)).txs) < TotalWork(s.txs)
  {
    hide TotalWork, LinesOf, Advanced;
    TotalWorkUpdate(s.txs, i, s.txs[i].(pc := Aborted));
  }

  lemma ProductiveWorks(s: State, h: OrderHash, start: Db, initial: map<PartId, int>, step: Step)
    requires Inv(s, h, start, initial) && Productive(s, h, step)
    ensures Inv(Next(s, h, step), h, start, initial) && TotalWork(Next(s, h, step).txs) < TotalWork(s.txs)
  {
    hide Inv, Advanced, Unlock, Blocked, TotalWork;
    NextKeeps(s, h, start, initial, step);
    match step
    case Advance(i) => AdvanceWorks(s, h, start, initial, i);
    case Abort(i) => AbortWorks(s, h, i);
  }

  lemma {:induction false} NoWorkNobodyUnfinished(txs: seq<Tx>)
    requires TotalWork(txs) == 0
    ensures forall i :: 0 <= i < |txs| ==> !Unfinished(txs[i])
  {
    if txs != [] { NoWorkNobodyUnfinished(txs[1..]); }
  }

  lemma {:induction false} ScheduleWorks(s: State, h: OrderHash, start: Db, initial: map<PartId, int>, steps: seq<Step>)
    requires Inv(s, h, start, initial) && Schedule(s, h, steps)
    ensures Inv(After(s, h, steps), h, start, initial)
    ensures TotalWork(After(s, h, steps).txs) + |steps| <= TotalWork(s.txs)
  {
    hide Inv, Next, Productive, TotalWork;
    if steps != [] {
      var before := steps[..|steps| - 1];
      forall k | 0 <= k < |before| ensures Productive(After(s, h, before[..k]), h, before[k]) {
        assert before[..k] == steps[..k];
      }
      ScheduleWorks(s, h, start, initial, before);
      ProductiveWorks(After(s, h, before), h, start, initial, steps[|before|]);
    }
  }

  /**
   Whoever the lock manager lets run, and whatever it aborts: from any reachable state no schedule
   is longer than the work left, and one that long, or that cannot go on, leaves nobody unfinished.
   */
  lemma EveryScheduleFinishes(s: State, h: OrderHash, start: Db, initial: map<PartId, int>, steps: seq<Step>)
    requires Inv(s, h, start, initial) && Schedule(s, h, steps)
    ensures TotalWork(After(s, h, steps).txs) + |steps| <= TotalWork(s.txs)
    ensures |steps| == TotalWork(s.txs) || (forall step :: !Productive(After(s, h, steps), h, step)) ==>
      forall i :: 0 <= i < |After(s, h, steps).txs| ==> !Unfinished(After(s, h, steps).txs[i])
  {
    hide Inv, After, Blocked, TotalWork;
    ScheduleWorks(s, h, start, initial, steps);
    var t := After(s, h, steps);
    if |steps| == TotalWork(s.txs) {
      NoWorkNobodyUnfinished(t.txs);
    } else if i :| 0 <= i < |t.txs| && Unfinished(t.txs[i]) {
      var j := SomeoneCanRun(t, h, start, initial, i);
      assert Productive(t, h, Advance(j));
    }
  }

  lemma {:induction false} AfterCons(s: State, h: OrderHash, step: Step, rest: seq<Step>)
    ensures After(s, h, [step] + rest) == After(Next(s, h, step), h, rest)
  {
    hide Next;
    if rest == [] {
      assert [step] + rest == [step];
      assert After(s, h, [step][..0]) == s;
    } else {
      assert ([step] + rest)[..|rest|] == [step] + rest[..|rest| - 1];
      AfterCons(s, h, step, rest[..|rest| - 1]);
    }
  }
}
