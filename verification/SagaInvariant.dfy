/**
 The three-store invariant: how idempotency keys, orders and Inventory's ledger agree in
 every reachable state, whatever is retried, lost, delivered late or crashed.
 */
module SagaInvariant {
  import opened Identifiers
  import opened Canonical
  import opened Errors
  import opened Stock
  import opened StockRuns
  import opened Saga

  // ---------- the invariant ----------

  /** The order's items are what Inventory's ledger row says was reserved. */
  predicate SnapshotOf(order: OrderView, op: Operation) {
    && |order.items| == |op.lines|
    && forall i :: 0 <= i < |op.lines| ==>
         order.items[i] == OrderItem(op.lines[i].partId, op.lines[i].sku, op.lines[i].name, op.lines[i].quantity)
  }

  /** Keys and order ids correspond one to one, and a key's hash is that of the request behind it. */
  ghost predicate KeysOk(s: State) {
    && (forall k :: k in s.keys ==>
          var o := s.keys[k].orderId;
          o in s.claims && s.claims[o].key == k && s.keys[k].requestHash == HashOf(s.claims[o].request))
    && (forall o :: o in s.claims ==>
          s.claims[o].key in s.keys && s.keys[s.claims[o].key].orderId == o && ValidRequest(s.claims[o].request)
          && IsLowerUuid(o))
    && s.orders.Keys <= s.claims.Keys && s.originals.Keys <= s.claims.Keys && s.db.ledger.Keys <= s.claims.Keys
  }

  /** The state of the key behind an order id. */
  function StateOf(s: State, o: OrderId): KeyState
    requires o in s.claims && s.claims[o].key in s.keys
  {
    s.keys[s.claims[o].key].state
  }

  /** A confirmed order against its first form, its ledger row and its stored response. */
  predicate ConfirmedOk(
    order: OrderView, original: OrderView, o: OrderId, customerId: string, op: Operation, body: Option<Json>) {
    && original.id == o && original.customerId == customerId && SnapshotOf(original, op)
    && original.status == CONFIRMED && original.cancelledAt == None
    && body == Some(CreateResponseBody(original))
    && order == original.(status := order.status, updatedAt := order.updatedAt, cancelledAt := order.cancelledAt)
    && (order.status == CONFIRMED ==> order == original)
    && (order.status == CANCELLED ==> order.cancelledAt.Some? && op.status == Released)
  }

  predicate OrderOk(s: State, o: OrderId)
    requires o in s.claims && s.claims[o].key in s.keys
  {
    var Claim(key, request) := s.claims[o];
    var entry := s.keys[key];
    && (entry.state == Confirmed <==> o in s.orders)
    && (o in s.orders <==> o in s.originals)
    && (entry.state == Confirmed || entry.state == Compensating ==> o in s.db.ledger)
    && (IsReleased(s.db.ledger, o) ==> entry.state != InProgress)
    && (o in s.db.ledger ==> Items(s.db.ledger[o]) == request.items && request.customerId in s.customers)
    && (o in s.orders && o in s.originals && o in s.db.ledger ==>
          ConfirmedOk(s.orders[o], s.originals[o], o, request.customerId, s.db.ledger[o], entry.body))
  }

  predicate RpcOk(s: State, c: nat)
    requires c < |s.rpcs|
  {
    var Rpc(msg, answer) := s.rpcs[c];
    var o := msg.orderId;
    && o in s.claims && s.claims[o].key in s.keys
    && match msg
       case ReserveMsg(_, items) =>
         && items == s.claims[o].request.items && s.claims[o].request.customerId in s.customers
         && (answer.Some? && answer.value.Granted? ==>
               o in s.db.ledger && answer.value.result ==
                 ReserveResult(o, s.db.ledger[o], answer.value.result.replayed))
       case ReleaseMsg(_) =>
         && o in s.db.ledger && StateOf(s, o) != InProgress
         && (StateOf(s, o) == Failed ==> IsReleased(s.db.ledger, o))
         && (answer.Some? ==> answer.value.Granted? && IsReleased(s.db.ledger, o))
  }

  predicate PersistOk(
    s: State, entry: KeyEntry, order: Option<OrderView>, outcome: Outcome, e: KeyEntry, request: Request) {
    var o := e.orderId;
    && entry.orderId == o && entry.requestHash == e.requestHash
    && match order
       case Some(v) =>
         && e.state == InProgress && entry.state == Confirmed && o in s.db.ledger
         && v.id == o && v.customerId == request.customerId && SnapshotOf(v, s.db.ledger[o])
         && v.status == CONFIRMED && v.cancelledAt == None
         && entry.body == Some(CreateResponseBody(v)) && outcome == Success(v, false)
       case None =>
         && entry.state == Failed && outcome == Error(StoredFailure(entry.status, entry.body))
         && (e.state == InProgress ||
             (e.state == Compensating && IsReleased(s.db.ledger, o) && entry == e.(state := Failed)))
  }

  predicate CreateOk(s: State, h: nat, key: string, request: Request, pc: Pc) {
    && ValidRequest(request)
    && match pc
       case Claiming => true
       case Done(_) => true
       case WantKey => key in s.keys
       case AwaitReserve(c) =>
         && key in s.keys && s.keys[key].requestHash == HashOf(request)
         && c < |s.rpcs| && s.rpcs[c].msg == ReserveMsg(s.keys[key].orderId, request.items)
         && (Holds(s, h) ==> s.keys[key].state == InProgress)
       case Persisting(entry, order, outcome) =>
         && key in s.keys && s.keys[key].requestHash == HashOf(request)
         && Holds(s, h) && PersistOk(s, entry, order, outcome, s.keys[key], request)
       case AwaitRelease(c, error) =>
         && key in s.keys && s.keys[key].requestHash == HashOf(request)
         && c < |s.rpcs| && s.rpcs[c].msg == ReleaseMsg(s.keys[key].orderId)
         && (Holds(s, h) ==>
              && s.keys[key].state == Compensating
              && error == StoredFailure(s.keys[key].status, s.keys[key].body))
       case NeedsCompensation =>
         key in s.keys && s.keys[key].requestHash == HashOf(request) && s.keys[key].orderId in s.db.ledger
       case WantUndo =>
         && key in s.keys && s.keys[key].requestHash == HashOf(request) && s.keys[key].orderId in s.db.ledger
         && (s.keys[key].state == Compensating || s.keys[key].state == Failed)
       case _ => false
  }

  predicate CancelOk(s: State, o: OrderId, pc: Pc) {
    match pc
    case ReadingOrder => true
    case Done(_) => true
    case AwaitCancel(c) => c < |s.rpcs| && s.rpcs[c].msg == ReleaseMsg(o) && o in s.orders
    case CancelGranted => o in s.orders && IsReleased(s.db.ledger, o)
    case _ => false
  }

  predicate HandlerOk(s: State, h: nat)
    requires h < |s.handlers|
  {
    match s.handlers[h].job
    case Create(key, request) => CreateOk(s, h, key, request, s.handlers[h].pc)
    case Cancel(o) => CancelOk(s, o, s.handlers[h].pc)
  }

  ghost predicate LocksOk(s: State) {
    forall k :: k in s.locks ==>
      && s.locks[k] < |s.handlers| && s.handlers[s.locks[k]].job.Create? && s.handlers[s.locks[k]].job.key == k
      && (var pc := s.handlers[s.locks[k]].pc; pc.AwaitReserve? || pc.Persisting? || pc.AwaitRelease?)
  }

  ghost predicate Inv(s: State, initial: map<PartId, int>) {
    && KeysOk(s)
    && (forall o :: o in s.claims ==> OrderOk(s, o))
    && (forall c :: 0 <= c < |s.rpcs| ==> RpcOk(s, c))
    && (forall h :: 0 <= h < |s.handlers| ==> HandlerOk(s, h))
    && LocksOk(s)
    && DbInv(s.db, initial)
  }

  // ---------- what a change leaves alone ----------

  lemma SnapshotStays(order: OrderView, op: Operation, later: Operation)
    requires SnapshotOf(order, op) && SameReservation(op, later)
    ensures SnapshotOf(order, later)
  {
    var a, b := ReserveResult("", op, true).items, ReserveResult("", later, true).items;
    assert a == b && |a| == |op.lines| && |b| == |later.lines|;
    forall i | 0 <= i < |later.lines|
      ensures order.items[i] == OrderItem(later.lines[i].partId, later.lines[i].sku, later.lines[i].name,
        later.lines[i].quantity)
    {
      assert a[i] == b[i];
    }
  }

  /**
   Entries keep their order and request; a key that left IN_PROGRESS never returns, and compensation
   only ends in FAILED, once released.
   */
  ghost predicate KeysMove(s: State, t: State) {
    forall k :: k in s.keys ==>
      && k in t.keys && t.keys[k].orderId == s.keys[k].orderId && t.keys[k].requestHash == s.keys[k].requestHash
      && (s.keys[k].state != InProgress ==> t.keys[k].state != InProgress)
      && (s.keys[k].state == Compensating || s.keys[k].state == Failed ==>
        t.keys[k].state == Compensating || t.keys[k].state == Failed)
      && (t.keys[k].state == Failed ==>
            s.keys[k].state == Failed || s.keys[k].state == InProgress || IsReleased(t.db.ledger, s.keys[k].orderId))
  }

  ghost predicate Grows(s: State, t: State) {
    && KeysMove(s, t)
    && |s.rpcs| <= |t.rpcs| && (forall c :: 0 <= c < |s.rpcs| ==> t.rpcs[c].msg == s.rpcs[c].msg)
    && LedgerExtends(s.db.ledger, t.db.ledger)
    && s.orders.Keys <= t.orders.Keys && s.customers <= t.customers
    && (forall o :: o in s.claims ==> o in t.claims && t.claims[o] == s.claims[o])
  }

  lemma HandlerStays(s: State, t: State, j: nat)
    requires Grows(s, t) && j < |s.handlers| && j < |t.handlers| && t.handlers[j] == s.handlers[j] && HandlerOk(s, j)
    requires Holds(s, j) <==> Holds(t, j)
    requires Holds(s, j) && s.handlers[j].job.key in s.keys ==>
      t.keys[s.handlers[j].job.key] == s.keys[s.handlers[j].job.key]
    ensures HandlerOk(t, j)
  {
    hide ValidRequest, HashOf, CreateResponseBody, SnapshotOf, SameReservation;
    var Handler(job, pc) := s.handlers[j];
    if job.Create? && pc.Persisting? && pc.order.Some? {
      var o := s.keys[job.key].orderId;
      SnapshotStays(pc.order.value, s.db.ledger[o], t.db.ledger[o]);
    }
    if job.Create? && job.key in s.keys {
      ReleasedStays(s.db.ledger, t.db.ledger, s.keys[job.key].orderId);
    }
    if job.Cancel? { ReleasedStays(s.db.ledger, t.db.ledger, job.orderId); }
  }

  lemma ReleasedStays(ledger: map<OrderId, Operation>, later: map<OrderId, Operation>, o: OrderId)
    requires LedgerExtends(ledger, later)
    ensures IsReleased(ledger, o) ==> IsReleased(later, o)
  {
  }

  lemma RpcStays(s: State, t: State, c: nat)
    requires Grows(s, t) && KeysOk(s) && c < |s.rpcs| && c < |t.rpcs| && t.rpcs[c] == s.rpcs[c] && RpcOk(s, c)
    ensures RpcOk(t, c)
  {
    hide SameReservation, ValidRequest, HashOf;
    assert s.keys[s.claims[s.rpcs[c].msg.orderId].key].orderId == s.rpcs[c].msg.orderId;
    var o := s.rpcs[c].msg.orderId;
    ReleasedStays(s.db.ledger, t.db.ledger, o);
    if o in s.db.ledger {
      SameReserveResult(o, s.db.ledger[o], t.db.ledger[o]);
    }
  }

  lemma SameReserveResult(o: OrderId, op: Operation, later: Operation)
    requires SameReservation(op, later)
    ensures forall replayed :: ReserveResult(o, later, replayed) == ReserveResult(o, op, replayed)
  {
    var a, b := ReserveResult("", op, true), ReserveResult("", later, true);
    forall replayed ensures ReserveResult(o, later, replayed) == ReserveResult(o, op, replayed) {
      assert ReserveResult(o, op, replayed).items == a.items == b.items == ReserveResult(o, later, replayed).items;
    }
  }

  lemma OrderStays(s: State, t: State, o: OrderId)
    requires o in s.claims && s.claims[o].key in s.keys && OrderOk(s, o)
    requires o in t.claims && t.claims[o] == s.claims[o] && s.claims[o].key in t.keys
    requires t.keys[s.claims[o].key] == s.keys[s.claims[o].key]
    requires (o in s.orders <==> o in t.orders) && (o in s.orders ==> t.orders[o] == s.orders[o])
    requires (o in s.originals <==> o in t.originals) && (o in s.originals ==> t.originals[o] == s.originals[o])
    requires (o in s.db.ledger <==> o in t.db.ledger) && (o in s.db.ledger ==> t.db.ledger[o] == s.db.ledger[o])
    requires s.customers <= t.customers
    ensures OrderOk(t, o)
  {
    hide ConfirmedOk;
  }

  lemma LedgerReflexive(ledger: map<OrderId, Operation>)
    ensures LedgerExtends(ledger, ledger)
  {
  }

  /** The stored data is the same; one handler moved, perhaps taking or dropping its lock or sending one RPC. */
  ghost predicate Quiet(s: State, t: State, i: nat) {
    && t.keys == s.keys && t.orders == s.orders && t.originals == s.originals && t.db == s.db && t.claims == s.claims
    && s.customers <= t.customers
    && (|t.handlers| == |s.handlers| || (i == |s.handlers| && |t.handlers| == i + 1))
    && (forall j :: 0 <= j < |s.handlers| && j != i ==> t.handlers[j] == s.handlers[j])
    && |s.rpcs| <= |t.rpcs| && (forall c :: 0 <= c < |s.rpcs| ==> t.rpcs[c] == s.rpcs[c])
    && (forall k :: k in s.locks && s.locks[k] != i ==> k in t.locks && t.locks[k] == s.locks[k])
    && (forall k :: k in t.locks && t.locks[k] != i ==> k in s.locks && t.locks[k] == s.locks[k])
  }

  lemma QuietKeeps(s: State, t: State, initial: map<PartId, int>, i: nat)
    requires Inv(s, initial) && Quiet(s, t, i)
    requires i < |t.handlers| ==> HandlerOk(t, i)
    requires forall c :: |s.rpcs| <= c < |t.rpcs| ==> RpcOk(t, c)
    requires forall k :: k in t.locks && t.locks[k] == i ==>
      i < |t.handlers| && t.handlers[i].job.Create? && t.handlers[i].job.key == k
      && (var pc := t.handlers[i].pc; pc.AwaitReserve? || pc.Persisting? || pc.AwaitRelease?)
    ensures Inv(t, initial)
  {
    hide HandlerOk, RpcOk, OrderOk, DbInv, SameReservation, ValidRequest, HashOf;
    LedgerReflexive(s.db.ledger);
    assert Grows(s, t);
    forall j | 0 <= j < |t.handlers| ensures HandlerOk(t, j) {
      if j != i { HandlerStays(s, t, j); }
    }
    forall c | 0 <= c < |t.rpcs| ensures RpcOk(t, c) {
      if c < |s.rpcs| { RpcStays(s, t, c); }
    }
    forall o | o in t.claims ensures OrderOk(t, o) { OrderStays(s, t, o); }
  }

  // ---------- every event keeps the invariant ----------

  lemma FinishKeeps(s: State, initial: map<PartId, int>, h: nat, outcome: Outcome)
    requires Inv(s, initial) && h < |s.handlers|
    ensures Inv(Finish(s, h, outcome), initial)
  {
    hide RpcOk, OrderOk, DbInv, ValidRequest, HashOf, KeysOk;
    assert HandlerOk(s, h);
    QuietKeeps(s, Finish(s, h, outcome), initial, h);
  }

  lemma StartKeeps(s: State, initial: map<PartId, int>, job: Job, pc: Pc)
    requires Inv(s, initial)
    requires (job.Create? && ValidRequest(job.request) && pc == Claiming) || (job.Cancel? && pc == ReadingOrder)
    ensures Inv(s.(handlers := s.handlers + [Handler(job, pc)]), initial)
  {
    hide RpcOk, OrderOk, DbInv, ValidRequest, HashOf, KeysOk;
    QuietKeeps(s, s.(handlers := s.handlers + [Handler(job, pc)]), initial, |s.handlers|);
  }

  lemma AddCustomerKeeps(s: State, initial: map<PartId, int>, c: string)
    requires Inv(s, initial)
    ensures Inv(s.(customers := s.customers + {c}), initial)
  {
    hide RpcOk, OrderOk, DbInv, ValidRequest, HashOf, KeysOk, HandlerOk;
    LocksBelow(s);
    QuietKeeps(s, s.(customers := s.customers + {c}), initial, |s.handlers|);
  }

  lemma LocksBelow(s: State)
    requires LocksOk(s)
    ensures forall k :: k in s.locks ==> s.locks[k] < |s.handlers|
  {
  }

  lemma WantKeyOk(s: State, t: State, h: nat)
    requires h < |s.handlers| && h < |t.handlers| && HandlerOk(s, h) && s.handlers[h].job.Create?
    requires t.handlers[h] == s.handlers[h].(pc := WantKey) && s.handlers[h].job.key in t.keys
    requires s.handlers[h].pc == Claiming
    ensures HandlerOk(t, h) && ValidRequest(s.handlers[h].job.request)
  {
    hide ValidRequest;
  }

  lemma NewKeysOk(s: State, h: nat, o: OrderId)
    requires KeysOk(s) && h < |s.handlers| && s.handlers[h].job.Create? && s.handlers[h].job.key !in s.keys
      && o !in s.claims
    requires ValidRequest(s.handlers[h].job.request) && IsLowerUuid(o)
    ensures KeysOk(NextClaim(s, h, o))
  {
    hide ValidRequest, HashOf, IsLowerUuid;
  }

  lemma NewClaimGrows(s: State, h: nat, o: OrderId)
    requires h < |s.handlers| && s.handlers[h].job.Create? && s.handlers[h].job.key !in s.keys && o !in s.claims
    ensures Grows(s, NextClaim(s, h, o))
  {
    hide HashOf, SameReservation, IsLowerUuid;
    LedgerReflexive(s.db.ledger);
  }

  lemma UnclaimedIsNew(s: State, initial: map<PartId, int>, o: OrderId)
    requires Inv(s, initial) && o !in s.claims
    ensures o !in s.orders && o !in s.originals && o !in s.db.ledger
    ensures KeysOk(s)
  {
    hide RpcOk, OrderOk, HandlerOk, DbInv, LocksOk;
  }

  lemma ClaimLocksOk(s: State, h: nat, o: OrderId)
    requires LocksOk(s) && h < |s.handlers| && s.handlers[h].job.Create? && s.handlers[h].pc == Claiming
    ensures LocksOk(NextClaim(s, h, o))
  {
    hide HashOf, IsLowerUuid;
  }

  lemma NewClaimKeeps(s: State, initial: map<PartId, int>, h: nat, o: OrderId)
    requires Inv(s, initial) && Enabled(s, h, ClaimKey(o)) && s.handlers[h].job.key !in s.keys && o !in s.claims
    requires IsLowerUuid(o)
    ensures Inv(NextClaim(s, h, o), initial)
  {
    hide RpcOk, OrderOk, HandlerOk, DbInv, ValidRequest, HashOf, Grows, IsLowerUuid, LocksOk;
    UnclaimedIsNew(s, initial, o);
    assert LocksOk(NextClaim(s, h, o)) by { ClaimLocksOk(s, h, o); }
    var t := NextClaim(s, h, o);
    WantKeyOk(s, t, h);
    NewKeysOk(s, h, o);
    NewClaimGrows(s, h, o);
    forall j | 0 <= j < |t.handlers| ensures HandlerOk(t, j) {
      if j != h { HandlerStays(s, t, j); }
    }
    forall c | 0 <= c < |t.rpcs| ensures RpcOk(t, c) { RpcStays(s, t, c); }
    forall p | p in t.claims ensures OrderOk(t, p) {
      if p != o { OrderStays(s, t, p); } else { FreshOrderOk(t, o); }
    }
  }

  lemma ClaimKeeps(s: State, initial: map<PartId, int>, h: nat, o: OrderId)
    requires Inv(s, initial) && Enabled(s, h, ClaimKey(o))
    ensures Inv(NextClaim(s, h, o), initial)
  {
    hide RpcOk, OrderOk, HandlerOk, DbInv, ValidRequest, HashOf, KeysOk, IsLowerUuid;
    var t := NextClaim(s, h, o);
    if s.handlers[h].job.key in s.keys {
      WantKeyOk(s, t, h);
      QuietKeeps(s, t, initial, h);
    } else if o !in s.claims && IsLowerUuid(o) {
      NewClaimKeeps(s, initial, h, o);
    }
  }

  lemma FreshOrderOk(t: State, o: OrderId)
    requires o in t.claims && t.claims[o].key in t.keys && t.keys[t.claims[o].key].state == InProgress
    requires o !in t.orders && o !in t.originals && o !in t.db.ledger
    ensures OrderOk(t, o)
  {
  }

  /** Equal hashes mean the handler's request is the one behind the key. */
  lemma SameRequest(s: State, key: string, request: Request)
    requires KeysOk(s) && key in s.keys && ValidRequest(request) && s.keys[key].requestHash == HashOf(request)
    ensures s.claims[s.keys[key].orderId].request == request
  {
    var claimed := s.claims[s.keys[key].orderId].request;
    HashIsInjective(claimed.customerId, claimed.items, request.customerId, request.items);
  }

  lemma InvLocks(s: State, initial: map<PartId, int>)
    requires Inv(s, initial)
    ensures LocksOk(s)
  {
  }

  /** A handler takes the free lock on its key and sends an RPC. */
  lemma SendKeeps(s: State, initial: map<PartId, int>, h: nat, msg: Message, pc: Pc)
    requires Inv(s, initial) && h < |s.handlers| && s.handlers[h].job.Create? && s.handlers[h].job.key !in s.locks
    requires pc.AwaitReserve? || pc.AwaitRelease?
    requires var t := LockedBy(Send(s, h, msg, pc), h, s.handlers[h].job.key); HandlerOk(t, h) && RpcOk(t, |s.rpcs|)
    ensures Inv(LockedBy(Send(s, h, msg, pc), h, s.handlers[h].job.key), initial)
  {
    hide RpcOk, OrderOk, HandlerOk, DbInv, KeysOk;
    QuietKeeps(s, LockedBy(Send(s, h, msg, pc), h, s.handlers[h].job.key), initial, h);
  }

  /** What a handler about to act on a key with its own request knows. */
  lemma KeyFacts(s: State, initial: map<PartId, int>, h: nat)
    requires Inv(s, initial) && h < |s.handlers| && s.handlers[h].job.Create? && s.handlers[h].job.key in s.keys
    requires s.keys[s.handlers[h].job.key].requestHash == HashOf(s.handlers[h].job.request)
    ensures var Create(key, request) := s.handlers[h].job;
      var o := s.keys[key].orderId;
      && ValidRequest(request) && o in s.claims && s.claims[o] == Claim(key, request) && OrderOk(s, o)
      && HandlerOk(s, h)
  {
    hide RpcOk, OrderOk, DbInv, ValidRequest, HashOf, SameReservation;
    assert HandlerOk(s, h);
    SameRequest(s, s.handlers[h].job.key, s.handlers[h].job.request);
  }

  lemma SendReleaseKeeps(s: State, initial: map<PartId, int>, h: nat, error: ApiError)
    requires Inv(s, initial) && h < |s.handlers| && s.handlers[h].job.Create? && s.handlers[h].job.key in s.keys
    requires s.handlers[h].job.key !in s.locks && s.keys[s.handlers[h].job.key].state == Compensating
    requires s.keys[s.handlers[h].job.key].requestHash == HashOf(s.handlers[h].job.request)
    requires error == StoredFailure(s.keys[s.handlers[h].job.key].status, s.keys[s.handlers[h].job.key].body)
    ensures var key := s.handlers[h].job.key;
      Inv(LockedBy(Send(s, h, ReleaseMsg(s.keys[key].orderId), AwaitRelease(|s.rpcs|, error)), h, key), initial)
  {
    hide Inv, DbInv, ValidRequest, HashOf, ConfirmedOk;
    KeyFacts(s, initial, h);
    SendKeeps(s, initial, h, ReleaseMsg(s.keys[s.handlers[h].job.key].orderId), AwaitRelease(|s.rpcs|, error));
  }

  lemma SendReserveKeeps(s: State, initial: map<PartId, int>, h: nat)
    requires Inv(s, initial) && Enabled(s, h, BeginTx) && s.handlers[h].job.key in s.keys
    requires s.handlers[h].job.key !in s.locks && s.keys[s.handlers[h].job.key].state == InProgress
    requires s.keys[s.handlers[h].job.key].requestHash == HashOf(s.handlers[h].job.request)
    requires s.handlers[h].job.request.customerId in s.customers
    ensures Inv(NextBegin(s, h), initial)
  {
    hide Inv, DbInv, ValidRequest, HashOf, ConfirmedOk;
    KeyFacts(s, initial, h);
    var Create(key, request) := s.handlers[h].job;
    SendKeeps(s, initial, h, ReserveMsg(s.keys[key].orderId, request.items), AwaitReserve(|s.rpcs|));
  }

  lemma NoCustomerKeeps(s: State, initial: map<PartId, int>, h: nat)
    requires Inv(s, initial) && Enabled(s, h, BeginTx) && s.handlers[h].job.key in s.keys
    requires s.handlers[h].job.key !in s.locks && s.keys[s.handlers[h].job.key].state == InProgress
    requires s.keys[s.handlers[h].job.key].requestHash == HashOf(s.handlers[h].job.request)
    requires s.handlers[h].job.request.customerId !in s.customers
    ensures Inv(NextBegin(s, h), initial)
  {
    hide Inv, DbInv, ValidRequest, HashOf, ConfirmedOk;
    KeyFacts(s, initial, h);
    InvLocks(s, initial);
    FailedWithIsFailed(s.keys[s.handlers[h].job.key], CUSTOMER_NOT_FOUND);
    QuietKeeps(s, NextBegin(s, h), initial, h);
  }

  lemma BeginKeeps(s: State, initial: map<PartId, int>, h: nat)
    requires Inv(s, initial) && Enabled(s, h, BeginTx)
    ensures Inv(NextBegin(s, h), initial)
  {
    hide Inv, HashOf, Finish, Replay, FailedWith, StoredFailure;
    var t := NextBegin(s, h);
    var Create(key, request) := s.handlers[h].job;
    if key !in s.locks && key in s.keys {
      var entry := s.keys[key];
      if entry.requestHash != HashOf(request) {
        FinishKeeps(s, initial, h, Error(KEY_CONFLICT));
      } else {
        match entry.state
        case Confirmed => FinishKeeps(s, initial, h, Replay(s, entry));
        case Failed => FinishKeeps(s, initial, h, Replay(s, entry));
        case Compensating => SendReleaseKeeps(s, initial, h, StoredFailure(entry.status, entry.body));
        case InProgress =>
          if request.customerId in s.customers { SendReserveKeeps(s, initial, h); }
          else { NoCustomerKeeps(s, initial, h); }
      }
    }
  }

  // ---------- deliveries ----------

  lemma DeliveredCallIsValid(s: State, initial: map<PartId, int>, c: nat, now: Time)
    requires Inv(s, initial) && c < |s.rpcs|
    ensures ValidCall(CallOf(s.rpcs[c].msg, now)) && RpcOk(s, c) && OrderOk(s, s.rpcs[c].msg.orderId)
  {
    hide OrderOk, HandlerOk, DbInv, ValidItems, HashOf;
    assert RpcOk(s, c);
    assert ValidRequest(s.claims[s.rpcs[c].msg.orderId].request);
  }

  /** The row of the delivered order still agrees with its key and its order. */
  lemma DeliveredOrderOk(s: State, initial: map<PartId, int>, c: nat, now: Time)
    requires Inv(s, initial) && c < |s.rpcs| && s.rpcs[c].answer == None
    ensures var t := NextDeliver(s, c, now); var o := s.rpcs[c].msg.orderId;
      o in t.claims && t.claims[o].key in t.keys && OrderOk(t, o)
  {
    hide Inv, DbInv, ValidItems, HashOf, CreateResponseBody, SnapshotOf, Deduct, Restore, Missing, Shortages;
    hide Fingerprint, ReserveResult, ReleaseResult;
    DeliveredCallIsValid(s, initial, c, now);
    var t := NextDeliver(s, c, now);
    var msg := s.rpcs[c].msg;
    var o := msg.orderId;
    ServeExtends(s.db, CallOf(msg, now));
    if o in s.db.ledger {
      assert SameReservation(s.db.ledger[o], t.db.ledger[o]);
      if o in s.originals && SnapshotOf(s.originals[o], s.db.ledger[o]) {
        SnapshotStays(s.originals[o], s.db.ledger[o], t.db.ledger[o]);
      }
    } else if o in t.db.ledger {
      assert Items(t.db.ledger[o]) == msg.items;
    }
  }

  lemma DeliveredRpcOk(s: State, initial: map<PartId, int>, c: nat, now: Time)
    requires Inv(s, initial) && c < |s.rpcs| && s.rpcs[c].answer == None
    ensures RpcOk(NextDeliver(s, c, now), c)
  {
    hide Inv, ValidItems, HashOf, Deduct, Restore, Missing, Shortages, Fingerprint, TotalHeld, OrderOk, ConfirmedOk;
    DeliveredCallIsValid(s, initial, c, now);
    InvDb(s, initial);
    ServeNeverThrows(s.db, initial, CallOf(s.rpcs[c].msg, now));
  }

  lemma InvDb(s: State, initial: map<PartId, int>)
    requires Inv(s, initial)
    ensures DbInv(s.db, initial)
  {
  }

  lemma DeliverGrows(s: State, c: nat, now: Time)
    ensures Grows(s, NextDeliver(s, c, now))
  {
    hide SameReservation, Serve;
    if c < |s.rpcs| { ServeExtends(s.db, CallOf(s.rpcs[c].msg, now)); }
    LedgerReflexive(s.db.ledger);
  }

  lemma DeliverKeeps(s: State, initial: map<PartId, int>, c: nat, now: Time)
    requires Inv(s, initial)
    ensures Inv(NextDeliver(s, c, now), initial)
  {
    hide HandlerOk, RpcOk, OrderOk, DbInv, SameReservation, Serve, ValidRequest, HashOf, Grows;
    if c < |s.rpcs| && s.rpcs[c].answer == None {
      var t := NextDeliver(s, c, now);
      var call := CallOf(s.rpcs[c].msg, now);
      DeliverGrows(s, c, now);
      DeliveredCallIsValid(s, initial, c, now);
      ServeKeepsInvariant(s.db, initial, call);
      ServeExtends(s.db, call);
      DeliveredOrderOk(s, initial, c, now);
      forall j | 0 <= j < |t.handlers| ensures HandlerOk(t, j) { HandlerStays(s, t, j); }
      forall d | 0 <= d < |t.rpcs| ensures RpcOk(t, d) {
        if d == c { DeliveredRpcOk(s, initial, c, now); } else { RpcStays(s, t, d); }
      }
      forall o | o in t.claims ensures OrderOk(t, o) {
        if o != call.orderId { OrderStays(s, t, o); }
      }
    }
  }

  // ---------- answers ----------

  lemma SnapshotsOfReservation(o: OrderId, op: Operation, replayed: bool)
    requires ValidItems(Items(op))
    ensures var result := ReserveResult(o, op, replayed);
      && |Snapshots(result)| == |op.lines|
      && ReservedItems(result) == Items(op)
      && forall i :: 0 <= i < |op.lines| ==>
           Snapshots(result)[i] == OrderItem(op.lines[i].partId, op.lines[i].sku, op.lines[i].name,
             op.lines[i].quantity)
  {
    forall i | 0 <= i < |op.lines| ensures ToLower(op.lines[i].partId) == op.lines[i].partId {
      assert ValidItem(Items(op)[i]);
    }
  }

  lemma ReserveAnswerKeeps(s: State, initial: map<PartId, int>, h: nat, createdAt: Time, updatedAt: Time)
    requires Inv(s, initial) && Enabled(s, h, GetReserveAnswer(createdAt, updatedAt))
    ensures Inv(NextAct(s, h, GetReserveAnswer(createdAt, updatedAt)), initial)
  {
    hide Inv, DbInv, ValidRequest, HashOf, ConfirmedOk, CreateResponseBody, Snapshots, ReserveResult;
    hide ReservationMatches, ToApiError, Finish, FailedWith, OrderOk;
    var t := NextAct(s, h, GetReserveAnswer(createdAt, updatedAt));
    var c := s.handlers[h].pc.rpc;
    InvLocks(s, initial);
    AwaitFacts(s, initial, h);
    KeyFacts(s, initial, h);
    if !s.rpcs[c].answer.value.Granted? {
      var error := ToApiError(Some(GrpcStatusOf(s.rpcs[c].answer.value)), ReserveOp);
      if !Holds(s, h) { FinishKeeps(s, initial, h, Error(INTERNAL_FAILURE)); }
      else if error.status >= 500 { FinishKeeps(s, initial, h, Error(error)); }
      else {
        FailedWithIsFailed(s.keys[s.handlers[h].job.key], error);
        QuietKeeps(s, t, initial, h);
      }
    } else {
      ReservedFacts(s, initial, c);
      QuietKeeps(s, t, initial, h);
    }
  }

  lemma FailedWithIsFailed(entry: KeyEntry, error: ApiError)
    ensures FailedWith(entry, error).state == Failed
    ensures FailedWith(entry, error).orderId == entry.orderId
      && FailedWith(entry, error).requestHash == entry.requestHash
    ensures StoredFailure(FailedWith(entry, error).status, FailedWith(entry, error).body) == error
  {
  }

  lemma AwaitFacts(s: State, initial: map<PartId, int>, h: nat)
    requires Inv(s, initial) && h < |s.handlers| && s.handlers[h].job.Create? && s.handlers[h].pc.AwaitReserve?
    ensures HandlerOk(s, h) && RpcOk(s, s.handlers[h].pc.rpc)
  {
    hide OrderOk, DbInv, ValidRequest, HashOf, KeysOk;
    assert HandlerOk(s, h);
  }

  /** A granted reserve is known to the ledger, and its answer is the ledger's. */
  lemma ReservedFacts(s: State, initial: map<PartId, int>, c: nat)
    requires Inv(s, initial) && c < |s.rpcs| && s.rpcs[c].msg.ReserveMsg?
    requires s.rpcs[c].answer.Some? && s.rpcs[c].answer.value.Granted?
    ensures var o := s.rpcs[c].msg.orderId; var result := s.rpcs[c].answer.value.result;
      && o in s.db.ledger && ReservedItems(result) == Items(s.db.ledger[o]) == s.rpcs[c].msg.items
      && |Snapshots(result)| == |s.db.ledger[o].lines|
      && forall i :: 0 <= i < |s.db.ledger[o].lines| ==>
           var line := s.db.ledger[o].lines[i];
             Snapshots(result)[i] == OrderItem(line.partId, line.sku, line.name, line.quantity)
  {
    hide HandlerOk, ValidRequest, HashOf, ValidItems, ConfirmedOk, Snapshots, ReservedItems, ReserveResult;
    hide Items, LineOk, TotalHeld;
    var o := s.rpcs[c].msg.orderId;
    assert RpcOk(s, c) && OrderOk(s, o);
    assert OperationOk(s.db.ledger[o], s.db.parts.Keys);
    SnapshotsOfReservation(o, s.db.ledger[o], s.rpcs[c].answer.value.result.replayed);
  }

  lemma ReleaseAnswerKeeps(s: State, initial: map<PartId, int>, h: nat)
    requires Inv(s, initial) && Enabled(s, h, GetReleaseAnswer)
    ensures Inv(NextAct(s, h, GetReleaseAnswer), initial)
  {
    hide DbInv, ValidRequest, HashOf, OrderOk, KeysOk, Finish, ToApiError;
    var t := NextAct(s, h, GetReleaseAnswer);
    var Handler(job, pc) := s.handlers[h];
    var answer := s.rpcs[pc.rpc].answer.value;
    assert HandlerOk(s, h) && RpcOk(s, pc.rpc);
    if job.Create? && Holds(s, h) {
      QuietKeeps(s, t, initial, h);
    } else if job.Create? {
      FinishKeeps(s, initial, h, Error(INTERNAL_FAILURE));
    } else {
      QuietKeeps(s, t, initial, h);
    }
  }

  lemma FailureKeeps(s: State, initial: map<PartId, int>, h: nat, status: int)
    requires Inv(s, initial) && h < |s.handlers|
    ensures Inv(NextFailure(s, h, status), initial)
  {
    hide Inv, Finish, ToApiError;
    match s.handlers[h].pc
    case AwaitReserve(_) =>
      FinishKeeps(s, initial, h, Error(if Holds(s, h) then ToApiError(Some(status), ReserveOp) else INTERNAL_FAILURE));
    case AwaitRelease(_, _) => FinishKeeps(s, initial, h, Error(INTERNAL_FAILURE));
    case AwaitCancel(_) => FinishKeeps(s, initial, h, Error(ToApiError(Some(status), ReleaseOp)));
    case _ =>
  }

  // ---------- commits ----------

  lemma AbortKeeps(s: State, initial: map<PartId, int>, h: nat)
    requires Inv(s, initial) && Holds(s, h)
    ensures Inv(NextAbort(s, h), initial)
  {
    hide RpcOk, OrderOk, DbInv, ValidRequest, HashOf, KeysOk, SnapshotOf, CreateResponseBody;
    assert HandlerOk(s, h);
    QuietKeeps(s, NextAbort(s, h), initial, h);
  }

  /** One key's entry, and perhaps its order, are rewritten; handler h drops whatever lock it holds. */
  lemma WriteKeeps(s: State, t: State, initial: map<PartId, int>, h: nat, key: string)
    requires Inv(s, initial) && h < |s.handlers| && key in s.keys && key in t.keys
      && t.keys == s.keys[key := t.keys[key]]
    requires var o := s.keys[key].orderId;
      && (forall p :: p != o ==> (p in t.orders <==> p in s.orders) && (p in s.orders ==> t.orders[p] == s.orders[p]))
      && (forall p :: p != o ==>
        (p in t.originals <==> p in s.originals) && (p in s.originals ==> t.originals[p] == s.originals[p]))
      && t.keys[key].orderId == o && t.keys[key].requestHash == s.keys[key].requestHash
      && (o in s.claims && s.claims[o].key == key ==> o in t.claims && t.claims[o].key in t.keys && OrderOk(t, o))
    requires Grows(s, t) && t.claims == s.claims && t.db == s.db && t.rpcs == s.rpcs && t.customers == s.customers
    requires |t.handlers| == |s.handlers|
      && forall j :: 0 <= j < |s.handlers| && j != h ==> t.handlers[j] == s.handlers[j]
    requires HandlerOk(t, h)
    requires t.locks == Unlocked(s, h).locks
    requires (key in s.locks ==> s.locks[key] == h) || t.keys == s.keys
    ensures Inv(t, initial)
  {
    hide HandlerOk, RpcOk, OrderOk, DbInv, SameReservation, ValidRequest, HashOf, Grows, LocksOk;
    UnlockedLocksOk(s, t, h);
    forall j | 0 <= j < |t.handlers| ensures HandlerOk(t, j) {
      if j != h { HandlerStays(s, t, j); }
    }
    forall c | 0 <= c < |t.rpcs| ensures RpcOk(t, c) { RpcStays(s, t, c); }
    forall o | o in t.claims ensures OrderOk(t, o) {
      if o != s.keys[key].orderId { OrderStays(s, t, o); }
    }
  }

  lemma UnlockedLocksOk(s: State, t: State, h: nat)
    requires LocksOk(s) && t.locks == Unlocked(s, h).locks && |t.handlers| == |s.handlers|
    requires forall j :: 0 <= j < |s.handlers| && j != h ==> t.handlers[j] == s.handlers[j]
    ensures LocksOk(t)
  {
  }

  lemma CommitKeeps(s: State, initial: map<PartId, int>, h: nat, acked: bool)
    requires Inv(s, initial) && Enabled(s, h, Commit(acked))
    ensures Inv(NextCommit(s, h, acked), initial)
  {
    hide Inv, DbInv, ValidRequest, HashOf, CreateResponseBody, SnapshotOf, SameReservation;
    var key := s.handlers[h].job.key;
    var t := NextCommit(s, h, acked);
    assert HandlerOk(s, h) by { PersistingFacts(s, initial, h); }
    KeyFacts(s, initial, h);
    LedgerReflexive(s.db.ledger);
    CommittedOrderOk(s, h, acked);
    hide OrderOk, RpcOk;
    WriteKeeps(s, t, initial, h, key);
  }

  lemma CommittedOrderOk(s: State, h: nat, acked: bool)
    requires h < |s.handlers| && s.handlers[h].job.Create? && s.handlers[h].pc.Persisting? && HandlerOk(s, h)
    requires var Create(key, request) := s.handlers[h].job;
      && key in s.keys && s.keys[key].orderId in s.claims && s.claims[s.keys[key].orderId] == Claim(key, request)
      && OrderOk(s, s.keys[key].orderId)
    ensures var t := NextCommit(s, h, acked); var o := s.keys[s.handlers[h].job.key].orderId;
      o in t.claims && t.claims[o].key in t.keys && OrderOk(t, o)
  {
    hide ValidRequest, HashOf, CreateResponseBody, SnapshotOf, StoredFailure, AfterException;
  }

  lemma PersistingFacts(s: State, initial: map<PartId, int>, h: nat)
    requires Inv(s, initial) && h < |s.handlers|
    ensures HandlerOk(s, h)
  {
  }

  lemma NewMarkKeeps(s: State, initial: map<PartId, int>, h: nat)
    requires Enabled(s, h, MarkCompensating) && s.handlers[h].job.key !in s.locks
    requires s.handlers[h].job.key in s.keys && s.keys[s.handlers[h].job.key].state == InProgress
    requires Inv(s, initial)
    ensures Inv(NextMark(s, h), initial)
  {
    hide Inv, DbInv, ValidRequest, HashOf, ConfirmedOk, SameReservation;
    var key := s.handlers[h].job.key;
    var t := NextMark(s, h);
    assert HandlerOk(s, h) by { PersistingFacts(s, initial, h); }
    KeyFacts(s, initial, h);
    LedgerReflexive(s.db.ledger);
    assert OrderOk(t, s.keys[key].orderId);
    assert t.locks == Unlocked(s, h).locks by { InvLocks(s, initial); }
    WriteKeeps(s, t, initial, h, key);
  }

  lemma MarkKeeps(s: State, initial: map<PartId, int>, h: nat)
    requires Inv(s, initial) && Enabled(s, h, MarkCompensating)
    ensures Inv(NextMark(s, h), initial)
  {
    hide Inv, DbInv, ValidRequest, HashOf, OrderOk, Finish, Replay;
    var key := s.handlers[h].job.key;
    assert HandlerOk(s, h) by { PersistingFacts(s, initial, h); }
    InvLocks(s, initial);
    if key !in s.locks {
      match s.keys[key].state
      case Confirmed => FinishKeeps(s, initial, h, Replay(s, s.keys[key]));
      case Failed => FinishKeeps(s, initial, h, Replay(s, s.keys[key]));
      case Compensating => QuietKeeps(s, NextMark(s, h), initial, h);
      case InProgress => NewMarkKeeps(s, initial, h);
    }
  }

  lemma UndoKeeps(s: State, initial: map<PartId, int>, h: nat)
    requires Inv(s, initial) && Enabled(s, h, BeginUndo)
    ensures Inv(NextUndo(s, h), initial)
  {
    hide Inv, DbInv, ValidRequest, HashOf, OrderOk, Finish, Replay, StoredFailure;
    var key := s.handlers[h].job.key;
    assert HandlerOk(s, h) by { PersistingFacts(s, initial, h); }
    if key !in s.locks {
      match s.keys[key].state
      case Compensating => SendReleaseKeeps(s, initial, h, StoredFailure(s.keys[key].status, s.keys[key].body));
      case Failed => FinishKeeps(s, initial, h, Replay(s, s.keys[key]));
    }
  }

  // ---------- cancel ----------

  lemma ReadKeeps(s: State, initial: map<PartId, int>, h: nat)
    requires Inv(s, initial) && Enabled(s, h, ReadOrder)
    ensures Inv(NextRead(s, h), initial)
  {
    hide DbInv, ValidRequest, HashOf, ConfirmedOk, Finish, SameReservation;
    var o := s.handlers[h].job.orderId;
    if o !in s.orders { FinishKeeps(s, initial, h, Error(ORDER_NOT_FOUND)); }
    else if s.orders[o].status == CANCELLED { FinishKeeps(s, initial, h, Success(s.orders[o], false)); }
    else {
      assert OrderOk(s, o);
      QuietKeeps(s, NextRead(s, h), initial, h);
    }
  }

  lemma SaveKeeps(s: State, initial: map<PartId, int>, h: nat, at: Time, updatedAt: Time, acked: bool)
    requires Inv(s, initial) && Enabled(s, h, SaveCancel(at, updatedAt, acked))
    ensures Inv(NextSave(s, h, at, updatedAt, acked), initial)
  {
    hide Inv, DbInv, ValidRequest, HashOf, SnapshotOf, CreateResponseBody, SameReservation;
    var o := s.handlers[h].job.orderId;
    var t := NextSave(s, h, at, updatedAt, acked);
    SavingFacts(s, initial, h);
    LedgerReflexive(s.db.ledger);
    assert OrderOk(t, o);
    WriteKeeps(s, t, initial, h, s.claims[o].key);
  }

  lemma SavingFacts(s: State, initial: map<PartId, int>, h: nat)
    requires Inv(s, initial) && h < |s.handlers| && s.handlers[h].job.Cancel? && s.handlers[h].pc == CancelGranted
    ensures var o := s.handlers[h].job.orderId;
      && HandlerOk(s, h) && o in s.claims && s.claims[o].key in s.keys && s.keys[s.claims[o].key].orderId == o
      && OrderOk(s, o)
  {
    hide OrderOk, RpcOk, DbInv, ValidRequest, HashOf;
    assert HandlerOk(s, h);
  }

  // ---------- every event, every run ----------

  lemma ActKeeps(s: State, initial: map<PartId, int>, h: nat, a: Action)
    requires Inv(s, initial) && Enabled(s, h, a)
    ensures Inv(NextAct(s, h, a), initial)
  {
    hide Inv, Finish, NextClaim, NextBegin, NextFailure, NextCommit, NextAbort, NextMark, NextUndo, NextRead, NextSave;
    match a
    case ClaimKey(o) => ClaimKeeps(s, initial, h, o);
    case BeginTx => BeginKeeps(s, initial, h);
    case GetReserveAnswer(createdAt, updatedAt) => ReserveAnswerKeeps(s, initial, h, createdAt, updatedAt);
    case GetReleaseAnswer => ReleaseAnswerKeeps(s, initial, h);
    case RpcFails(status) => FailureKeeps(s, initial, h, status);
    case Commit(acked) => CommitKeeps(s, initial, h, acked);
    case AbortTx => AbortKeeps(s, initial, h);
    case MarkCompensating => MarkKeeps(s, initial, h);
    case BeginUndo => UndoKeeps(s, initial, h);
    case ReadOrder => ReadKeeps(s, initial, h);
    case SaveCancel(at, updatedAt, acked) => SaveKeeps(s, initial, h, at, updatedAt, acked);
    case Crash => FinishKeeps(s, initial, h, Error(INTERNAL_FAILURE));
  }

  lemma NextKeeps(s: State, initial: map<PartId, int>, e: Event)
    requires Inv(s, initial)
    ensures Inv(Next(s, e), initial)
  {
    hide Inv, Enabled, NextAct, NextDeliver, ValidOrderItems, NormalizeItems;
    match e
    case AddCustomer(c) => AddCustomerKeeps(s, initial, c);
    case StartCreate(key, c, items) =>
      if IsUuid(c) && ValidOrderItems(items) {
        LowerUuid(c);
        NormalizedIsValid(items);
        StartKeeps(s, initial, Create(key, Request(ToLower(c), NormalizeItems(items))), Claiming);
      }
    case StartCancel(o) => StartKeeps(s, initial, Cancel(ToLower(o)), ReadingOrder);
    case Deliver(c, now) => DeliverKeeps(s, initial, c, now);
    case Act(h, a) => if Enabled(s, h, a) { ActKeeps(s, initial, h, a); }
  }

  /** The stock before any order. */
  function StockOf(parts: map<PartId, Part>): map<PartId, int> {
    map p | p in parts :: parts[p].stock
  }

  lemma InitialOk(s: State)
    requires Initial(s)
    ensures Inv(s, StockOf(s.db.parts))
  {
  }

  /** The three-store invariant holds in every reachable state, late deliveries included. */
  lemma {:induction false} InvariantAlways(s: State, initial: map<PartId, int>, es: seq<Event>)
    requires Inv(s, initial)
    ensures Inv(After(s, es), initial)
  {
    hide Inv, Next;
    if es != [] {
      InvariantAlways(s, initial, es[..|es| - 1]);
      NextKeeps(After(s, es[..|es| - 1]), initial, es[|es| - 1]);
    }
  }
}
