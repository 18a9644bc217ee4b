/**
 Three reachable runs that lose stock. A reserve is served only after a retry of its key was
 rejected for lack of stock: its caller has timed out and the rejection is recorded; or its caller
 has lost its transaction but still waits, and recovers too late; or the rejection is recorded last.
 */
module LateReserves {
  import opened Identifiers
  import opened Canonical
  import opened Errors
  import opened Stock
  import opened StockRuns
  import opened Saga
  import opened SagaInvariant
  import opened SagaTheorems
  import opened SagaConservation
  import opened Convergence

  /** The events that bring a create to wait for its reserve. */
  function ToReserve(s: State, key: string, request: Request, freshId: OrderId): State {
    var h := |s.handlers|;
    Next(Next(Next(s, StartCreate(key, request.customerId, request.items)), Act(h, ClaimKey(freshId))), Act(h, BeginTx))
  }

  lemma NormalIsFixed(items: seq<Item>)
    requires ValidItems(items) && |items| == 1
    ensures ValidOrderItems(items) && NormalizeItems(items) == items && LowerItems(items) == items
  {
    assert ValidItem(items[0]);
    assert LowerItems(items) == items;
    assert items == [items[0]] && items[1..] == [];
  }

  lemma ToReserveWaits(s: State, key: string, request: Request, freshId: OrderId)
    requires ValidRequest(request) && |request.items| == 1 && request.customerId in s.customers && key !in s.locks
    requires IsLowerUuid(freshId)
    requires key in s.keys ==> s.keys[key].state == InProgress && s.keys[key].requestHash == HashOf(request)
    requires key !in s.keys ==> freshId !in s.claims
    ensures var t := ToReserve(s, key, request, freshId); var h, c := |s.handlers|, |s.rpcs|;
      && key in t.keys && t.keys[key].state == InProgress && t.keys[key].requestHash == HashOf(request)
      && t.keys[key].orderId == (if key in s.keys then s.keys[key].orderId else freshId)
      && (forall k :: k in s.keys ==> k in t.keys && t.keys[k] == s.keys[k])
      && (forall k :: k in t.keys ==> k in s.keys || k == key)
      && t.handlers == s.handlers + [Handler(Create(key, request), AwaitReserve(c))]
      && t.rpcs == s.rpcs + [Rpc(ReserveMsg(t.keys[key].orderId, request.items), None)]
      && t.locks == s.locks[key := h] && t.db == s.db && t.orders == s.orders && t.customers == s.customers
      && (forall o :: o in t.claims <==> o in s.claims || (key !in s.keys && o == freshId))
  {
    hide HashOf, ValidItems, IsUuid, ToLower, NextBegin;
    NormalIsFixed(request.items);
    var h := |s.handlers|;
    var s1 := Next(s, StartCreate(key, request.customerId, request.items));
    assert s1.handlers[h] == Handler(Create(key, request), Claiming);
    var s2 := NextClaim(s1, h, freshId);
    assert Next(s1, Act(h, ClaimKey(freshId))) == s2;
    assert s2.handlers[h] == Handler(Create(key, request), WantKey);
    BeginReserves(s2, h, key, request);
  }

  /** An undecided create of a known customer takes its key's lock and sends its reserve. */
  lemma BeginReserves(s: State, h: nat, key: string, request: Request)
    requires At(s, h, Create(key, request), WantKey) && request.customerId in s.customers && key !in s.locks
    requires key in s.keys && s.keys[key].state == InProgress && s.keys[key].requestHash == HashOf(request)
    ensures Next(s, Act(h, BeginTx)) == s.(
      locks := s.locks[key := h],
      rpcs := s.rpcs + [Rpc(ReserveMsg(s.keys[key].orderId, request.items), None)],
      handlers := s.handlers[h := Handler(Create(key, request), AwaitReserve(|s.rpcs|))])
  {
    hide HashOf, Replay, StoredFailure, FailedWith, Finish;
    assert Next(s, Act(h, BeginTx)) == NextBegin(s, h);
  }

  /** Delivery, answer and commit of the reserve that handler h is waiting for. */
  function Concluded(s: State, h: nat, c: nat): State {
    Next(Next(Next(s, Deliver(c, 0)), Act(h, GetReserveAnswer(0, 0))), Act(h, Commit(true)))
  }

  /** Handler h holds its key and waits for RPC c, a reserve of q units of p for a new order. */
  ghost predicate Waits(s: State, h: nat, c: nat, o: OrderId, p: PartId, q: nat) {
    && h < |s.handlers| && s.handlers[h].job.Create? && s.handlers[h].job.key in s.keys && Holds(s, h)
    && s.handlers[h].pc == AwaitReserve(c) && c < |s.rpcs| && s.rpcs[c] == Rpc(ReserveMsg(o, [Item(p, q)]), None)
    && s.keys[s.handlers[h].job.key].orderId == o && o !in s.db.ledger && p in s.db.parts && q >= 1
  }

  /** What concluding a reserve leaves alone. */
  ghost predicate ElseSame(s: State, t: State, h: nat, c: nat, key: string) {
    && |t.handlers| == |s.handlers| && |t.rpcs| == |s.rpcs|
    && (forall j :: 0 <= j < |s.handlers| && j != h ==> t.handlers[j] == s.handlers[j])
    && (forall d :: 0 <= d < |s.rpcs| && d != c ==> t.rpcs[d] == s.rpcs[d])
    && (forall k :: k != key && k in s.keys ==> k in t.keys && t.keys[k] == s.keys[k])
    && (forall k :: k in t.keys ==> k in s.keys)
    && (key in s.keys && key in t.keys ==> t.keys[key].orderId == s.keys[key].orderId)
    && (forall k :: k in t.locks <==> k in s.locks && s.locks[k] != h)
    && t.claims == s.claims && t.customers == s.customers
  }

  lemma GrantDelivered(s: State, c: nat, o: OrderId, p: PartId, q: nat)
    requires c < |s.rpcs| && s.rpcs[c] == Rpc(ReserveMsg(o, [Item(p, q)]), None) && o !in s.db.ledger && q >= 1
    requires p in s.db.parts && s.db.parts[p].stock >= q
    ensures var t := Next(s, Deliver(c, 0));
      && p in t.db.parts && t.db.parts[p].stock == s.db.parts[p].stock - q
      && (forall x :: x in s.db.ledger ==> x in t.db.ledger && t.db.ledger[x] == s.db.ledger[x])
      && (forall x :: x in t.db.ledger ==> x in s.db.ledger || x == o)
      && IsReserved(t.db.ledger, o) && Items(t.db.ledger[o]) == [Item(p, q)]
      && t.rpcs[c].answer.Some? && t.rpcs[c].answer.value.Granted?
      && t == s.(db := t.db, rpcs := s.rpcs[c := t.rpcs[c]])
  {
    hide Serve;
    OneItem(s.db, p, q, o, 0);
    ServeExtends(s.db, CallOf(s.rpcs[c].msg, 0));
    ServeReserve(s.db, o, [Item(p, q)], 0);
    FreshRow(s.db, o, [Item(p, q)]);
  }

  lemma GrantCommits(s: State, initial: map<PartId, int>, h: nat, c: nat)
    requires h < |s.handlers| && s.handlers[h].job.Create? && s.handlers[h].job.key in s.keys && Holds(s, h)
    requires s.handlers[h].pc == AwaitReserve(c) && Answered(s, c) && s.rpcs[c].answer.value.Granted?
    requires Inv(s, initial)
    ensures var t := Next(Next(s, Act(h, GetReserveAnswer(0, 0))), Act(h, Commit(true)));
      var key := s.handlers[h].job.key;
      var o := s.keys[key].orderId;
      && ElseSame(s, t, h, c, key) && key in t.keys && t.keys[key].state == Confirmed
      && o in t.orders && t.orders[o].status == CONFIRMED && t.db == s.db
      && (forall x :: x in t.orders ==> x in s.orders || x == o)
  {
    hide Inv, HashOf, CreateResponseBody, Snapshots, ReservedItems, ReservationMatches, ToApiError;
    GuardsNeverFire(s, initial, h, s.handlers[h].job.key);
    assert Enabled(s, h, GetReserveAnswer(0, 0));
    var s2 := NextReserveAnswer(s, h, s.rpcs[c].answer.value, 0, 0);
    assert Next(s, Act(h, GetReserveAnswer(0, 0))) == s2;
    assert s2.handlers[h].pc.Persisting? && s2.handlers[h].pc.order.Some?;
    assert Next(s2, Act(h, Commit(true))) == NextCommit(s2, h, true);
  }

  lemma ReserveConfirms(s: State, initial: map<PartId, int>, h: nat, c: nat, o: OrderId, p: PartId, q: nat)
    requires Waits(s, h, c, o, p, q) && s.db.parts[p].stock >= q
    requires Inv(s, initial)
    ensures var t := Concluded(s, h, c); var key := s.handlers[h].job.key;
      && ElseSame(s, t, h, c, key) && key in t.keys && t.keys[key].state == Confirmed
      && o in t.orders && t.orders[o].status == CONFIRMED
      && p in t.db.parts && t.db.parts[p].stock == s.db.parts[p].stock - q
      && (forall x :: x in t.db.ledger ==> x in s.db.ledger || x == o)
      && IsReserved(t.db.ledger, o) && Items(t.db.ledger[o]) == [Item(p, q)]
      && (forall x :: x in t.orders ==> x in s.orders || x == o)
  {
    hide Inv, Next, IsReserved, Items;
    GrantDelivered(s, c, o, p, q);
    NextKeeps(s, initial, Deliver(c, 0));
    GrantCommits(Next(s, Deliver(c, 0)), initial, h, c);
  }

  lemma FreshRow(db: Db, o: OrderId, items: seq<Item>)
    requires o !in db.ledger && Reserve(db, o, items, 0).1.Granted?
    ensures var ledger := Reserve(db, o, items, 0).0.ledger; IsReserved(ledger, o) && Items(ledger[o]) == items
  {
    hide Fingerprint;
    assert Items(Reserve(db, o, items, 0).0.ledger[o]) == items;
  }

  lemma RejectionDelivered(s: State, c: nat, o: OrderId, p: PartId, q: nat)
    requires c < |s.rpcs| && s.rpcs[c] == Rpc(ReserveMsg(o, [Item(p, q)]), None) && o !in s.db.ledger && q >= 1
    requires p in s.db.parts && s.db.parts[p].stock < q
    ensures var t := Next(s, Deliver(c, 0));
      && |t.rpcs| == |s.rpcs| && t.rpcs[c].answer.Some? && DefiniteRejection(t.rpcs[c].answer.value)
      && t == s.(rpcs := s.rpcs[c := t.rpcs[c]])
  {
    hide Serve, DefiniteRejection;
    OneItem(s.db, p, q, o, 0);
    ReserveAllOrNothing(s.db, o, [Item(p, q)], 0);
    ServeReserve(s.db, o, [Item(p, q)], 0);
    RefusalsOfReserve(s.db, o, [Item(p, q)], 0);
    FreshNeverConflicts(s.db, o, [Item(p, q)]);
    assert Next(s, Deliver(c, 0)) == NextDeliver(s, c, 0);
  }

  lemma RejectionTaken(s: State, h: nat, c: nat)
    requires h < |s.handlers| && s.handlers[h].job.Create? && s.handlers[h].job.key in s.keys && Holds(s, h)
    requires s.handlers[h].pc == AwaitReserve(c) && Answered(s, c) && DefiniteRejection(s.rpcs[c].answer.value)
    ensures var t := Next(s, Act(h, GetReserveAnswer(0, 0))); var entry := s.keys[s.handlers[h].job.key];
      && SameStored(s, t) && t.rpcs == s.rpcs && t.locks == s.locks && |t.handlers| == |s.handlers|
      && (forall j :: 0 <= j < |s.handlers| && j != h ==> t.handlers[j] == s.handlers[j])
      && t.handlers[h].job == s.handlers[h].job && t.handlers[h].pc.Persisting? && t.handlers[h].pc.order == None
      && t.handlers[h].pc.entry.state == Failed && t.handlers[h].pc.entry.orderId == entry.orderId
  {
    hide ToApiError, GrpcStatusOf, FailedWith;
    var answer := s.rpcs[c].answer.value;
    FailedWithIsFailed(s.keys[s.handlers[h].job.key], ToApiError(Some(GrpcStatusOf(answer)), ReserveOp));
    assert Next(s, Act(h, GetReserveAnswer(0, 0))) == NextReserveAnswer(s, h, answer, 0, 0);
  }

  lemma RejectionCommitted(s: State, h: nat, c: nat)
    requires h < |s.handlers| && s.handlers[h].job.Create? && s.handlers[h].job.key in s.keys && Holds(s, h)
    requires s.handlers[h].pc.Persisting? && s.handlers[h].pc.order == None && s.handlers[h].pc.entry.state == Failed
    requires s.handlers[h].pc.entry.orderId == s.keys[s.handlers[h].job.key].orderId
    ensures var t := Next(s, Act(h, Commit(true))); var key := s.handlers[h].job.key;
      && ElseSame(s, t, h, c, key) && t.rpcs == s.rpcs && key in t.keys && t.keys[key].state == Failed
      && t.orders == s.orders && t.db == s.db
  {
    assert Next(s, Act(h, Commit(true))) == NextCommit(s, h, true);
  }

  lemma FreshNeverConflicts(db: Db, o: OrderId, items: seq<Item>)
    requires o !in db.ledger
    ensures Reserve(db, o, items, 0).1 != Refused(OrderIdConflict(o))
      && Serve(db, ReserveCall(o, items, 0)) == Reserve(db, o, items, 0)
  {
  }

  /**
   How a create stops holding its key while its reserve is in flight: the RPC fails at Sales, or the
   transaction is lost.
   */
  function GivesUp(waiting: bool): Action {
    if waiting then AbortTx else RpcFails(DEADLINE_EXCEEDED)
  }

  lemma LetsGo(s: State, h: nat, c: nat, waiting: bool)
    requires h < |s.handlers| && s.handlers[h].pc == AwaitReserve(c) && Holds(s, h)
    ensures var t := Next(s, Act(h, GivesUp(waiting)));
      && SameStored(s, t) && t.rpcs == s.rpcs && |t.handlers| == |s.handlers|
      && (forall k :: k in t.locks <==> k in s.locks && s.locks[k] != h)
      && t.handlers[h].job == s.handlers[h].job && (waiting ==> t.handlers[h].pc == AwaitReserve(c))
      && (forall j :: 0 <= j < |s.handlers| && j != h ==> t.handlers[j] == s.handlers[j])
  {
    hide ToApiError;
  }

  function Cancelled(s: State, h: nat, c: nat): State {
    Next(Next(Next(s, Deliver(c, 0)), Act(h, GetReleaseAnswer)), Act(h, SaveCancel(0, 0, true)))
  }

  lemma ReleaseOne(db: Db, initial: map<PartId, int>, o: OrderId, p: PartId, q: nat)
    requires IsReserved(db.ledger, o) && Items(db.ledger[o]) == [Item(p, q)]
    requires DbInv(db, initial)
    ensures var (after, answer) := Release(db, o, 0);
      && p in db.parts && p in after.parts && after.parts[p].stock == db.parts[p].stock + q && answer.Granted?
  {
    hide DbInv, Release, Items;
    ReleaseRestoresExactly(db, initial, o, 0);
    ReleaseKeepsInvariant(db, initial, o, 0);
    SameParts(db, Release(db, o, 0).0, initial);
    assert Items(db.ledger[o])[0] == Item(p, q);
  }

  lemma SameParts(db: Db, after: Db, initial: map<PartId, int>)
    requires DbInv(db, initial) && DbInv(after, initial)
    ensures after.parts.Keys == db.parts.Keys
  {
  }

  lemma ReleaseDelivered(s: State, initial: map<PartId, int>, c: nat, o: OrderId, p: PartId, q: nat)
    requires c < |s.rpcs| && s.rpcs[c] == Rpc(ReleaseMsg(o), None)
    requires IsReserved(s.db.ledger, o) && Items(s.db.ledger[o]) == [Item(p, q)]
    requires DbInv(s.db, initial)
    ensures var t := Next(s, Deliver(c, 0));
      && p in s.db.parts && p in t.db.parts && t.db.parts[p].stock == s.db.parts[p].stock + q
      && (forall x :: x in t.db.ledger <==> x in s.db.ledger)
      && |t.rpcs| == |s.rpcs| && t.rpcs[c].answer.Some? && t.rpcs[c].answer.value.Granted?
      && t == s.(db := t.db, rpcs := s.rpcs[c := t.rpcs[c]])
  {
    hide Serve, DbInv, Release, Items;
    ReleaseOne(s.db, initial, o, p, q);
    ServeRelease(s.db, o, 0);
    ServeExtends(s.db, CallOf(s.rpcs[c].msg, 0));
  }

  /** Handler h dropped whatever lock it held; the other handlers are where they were. */
  ghost predicate SameLocksBut(s: State, t: State, h: nat) {
    && |t.handlers| == |s.handlers|
    && (forall j :: 0 <= j < |s.handlers| && j != h ==> t.handlers[j] == s.handlers[j])
    && (forall k :: k in t.locks <==> k in s.locks && s.locks[k] != h)
    && (forall k :: k in t.locks ==> t.locks[k] == s.locks[k])
  }

  /** The cancel takes its granted answer and saves the order. */
  lemma CancelEnds(s: State, h: nat, c: nat, o: OrderId)
    requires o in s.orders && At(s, h, Cancel(o), AwaitCancel(c)) && Answered(s, c) && s.rpcs[c].answer.value.Granted?
    ensures var t := Next(Next(s, Act(h, GetReleaseAnswer)), Act(h, SaveCancel(0, 0, true)));
      && t.db == s.db && t.rpcs == s.rpcs && t.keys == s.keys && t.claims == s.claims
      && t.orders == s.orders[o := CancelledOrder(s.orders[o], 0, 0)]
      && SameLocksBut(s, t, h)
  {
    hide ToApiError;
    var s1 := WithPc(s, h, CancelGranted);
    assert Next(s, Act(h, GetReleaseAnswer)) == s1;
    assert Next(s1, Act(h, SaveCancel(0, 0, true))) == NextSave(s1, h, 0, 0, true);
  }

  lemma RpcsDontLock(s: State, t: State, h: nat)
    ensures t.locks == s.locks && t.handlers == s.handlers ==>
      forall u :: SameLocksBut(t, u, h) ==> SameLocksBut(s, u, h)
  {
  }

  lemma CancelRestores(s: State, initial: map<PartId, int>, o: OrderId, h: nat, c: nat, p: PartId, q: nat)
    requires o in s.orders && At(s, h, Cancel(o), AwaitCancel(c)) && c < |s.rpcs|
      && s.rpcs[c] == Rpc(ReleaseMsg(o), None)
    requires IsReserved(s.db.ledger, o) && Items(s.db.ledger[o]) == [Item(p, q)]
    requires DbInv(s.db, initial)
    ensures var t := Cancelled(s, h, c);
      && p in s.db.parts && p in t.db.parts && t.db.parts[p].stock == s.db.parts[p].stock + q
      && (forall x :: x in t.db.ledger <==> x in s.db.ledger)
      && |t.rpcs| == |s.rpcs| && (forall d :: 0 <= d < |s.rpcs| && d != c ==> t.rpcs[d] == s.rpcs[d])
      && t.keys == s.keys && t.claims == s.claims && t.orders == s.orders[o := CancelledOrder(s.orders[o], 0, 0)]
      && SameLocksBut(s, t, h)
  {
    hide DbInv, Next, Items, IsReserved, CancelledOrder, SameLocksBut;
    RpcsDontLock(s, Next(s, Deliver(c, 0)), h);
    ReleaseDelivered(s, initial, c, o, p, q);
    CancelEnds(Next(s, Deliver(c, 0)), h, c, o);
  }

  // ---------- runs, event by event ----------

  /** No RPC fails at Sales, and a reserve is delivered only while its caller waits for it, holding its key or not. */
  predicate Awaited(s: State, e: Event) {
    && !IsRpcFailure(e)
    && (e.Deliver? && e.rpc < |s.rpcs| && s.rpcs[e.rpc].answer == None && s.rpcs[e.rpc].msg.ReserveMsg? ==>
          exists h :: 0 <= h < |s.handlers| && s.handlers[h].pc == AwaitReserve(e.rpc))
  }

  predicate AwaitedRun(s: State, es: seq<Event>) {
    forall i :: 0 <= i < |es| ==> Awaited(After(s, es[..i]), es[i])
  }

  lemma OneMore(s: State, es: seq<Event>, e: Event)
    ensures After(s, es + [e]) == Next(After(s, es), e)
    ensures AwaitedRun(s, es) && Awaited(After(s, es), e) ==> AwaitedRun(s, es + [e])
  {
    hide Next, Awaited;
    AfterSnoc(s, es, e);
    if AwaitedRun(s, es) && Awaited(After(s, es), e) {
      forall i | 0 <= i < |es + [e]| ensures Awaited(After(s, (es + [e])[..i]), (es + [e])[i]) {
        assert (es + [e])[..i] == if i == |es| then es else es[..i];
      }
    }
  }

  /** Three events, of which only the first may be a delivery. */
  lemma ThreeMore(s: State, es: seq<Event>, e0: Event, e1: Event, e2: Event)
    requires !e1.Deliver? && !e2.Deliver? && !IsRpcFailure(e1) && !IsRpcFailure(e2)
    ensures After(s, es + [e0, e1, e2]) == Next(Next(Next(After(s, es), e0), e1), e2)
    ensures AwaitedRun(s, es) && Awaited(After(s, es), e0) ==> AwaitedRun(s, es + [e0, e1, e2])
  {
    hide Next, AwaitedRun, After;
    OneMore(s, es, e0);
    OneMore(s, es + [e0], e1);
    OneMore(s, es + [e0] + [e1], e2);
    assert es + [e0, e1, e2] == es + [e0] + [e1] + [e2];
  }

  // ---------- the scenes ----------

  /** A shop with q units of p; `first` will sell them all as order o, `second` will lose them as order `leak`. */
  datatype Scene = Scene(customer: string, p: PartId, q: nat, first: string, second: string, o: OrderId, leak: OrderId)

  predicate Possible(x: Scene) {
    && IsLowerUuid(x.customer) && ValidItems([Item(x.p, x.q)]) && x.first != x.second
    && IsLowerUuid(x.o) && IsLowerUuid(x.leak) && x.o != x.leak
  }

  function RequestOf(x: Scene): Request {
    Request(x.customer, [Item(x.p, x.q)])
  }

  lemma PossibleRequest(x: Scene)
    requires Possible(x)
    ensures ValidRequest(RequestOf(x)) && x.q >= 1
  {
    hide IsUuid, ToLower;
    assert ValidItem([Item(x.p, x.q)][0]);
  }

  /** `first` sold everything, or its order has been cancelled since; nothing else is sold or reserved. */
  ghost predicate Shop(t: State, x: Scene, sold: bool) {
    && x.first in t.keys && t.keys[x.first].state == Confirmed && t.keys[x.first].orderId == x.o
    && (forall k :: k in t.keys ==> k == x.first || k == x.second)
    && x.o in t.orders && (forall y :: y in t.orders ==> y == x.o)
    && (forall y :: y in t.db.ledger ==> y == x.o) && x.p in t.db.parts
    && (if sold then
          && t.orders[x.o].status == CONFIRMED && t.db.parts[x.p].stock == 0
          && IsReserved(t.db.ledger, x.o) && Items(t.db.ledger[x.o]) == [Item(x.p, x.q)]
        else t.orders[x.o].status == CANCELLED && t.db.parts[x.p].stock == x.q)
  }

  /** `second` is in some state, and the reserve of its first create, RPC 1 of handler 1, in flight. */
  ghost predicate Second(t: State, x: Scene, state: KeyState, waiting: bool) {
    && x.second in t.keys && t.keys[x.second].state == state && t.keys[x.second].orderId == x.leak
    && 1 < |t.rpcs| && t.rpcs[1] == Rpc(ReserveMsg(x.leak, [Item(x.p, x.q)]), None)
    && 1 < |t.handlers| && t.handlers[1].job == Create(x.second, RequestOf(x))
    && (waiting ==> t.handlers[1].pc == AwaitReserve(1))
  }

  /** Handler 2, the retry of `second`, is about to record its rejection. */
  ghost predicate Recording(t: State, x: Scene) {
    && 2 < |t.handlers| && t.handlers[2].job == Create(x.second, RequestOf(x)) && Holds(t, 2)
    && t.handlers[2].pc.Persisting? && t.handlers[2].pc.order == None
    && t.handlers[2].pc.entry.state == Failed && t.handlers[2].pc.entry.orderId == x.leak
  }

  lemma FirstSells(x: Scene) returns (s: State, es: seq<Event>)
    requires Possible(x)
    ensures Initial(s) && x.p in s.db.parts && s.db.parts[x.p].stock == x.q
    ensures var t := After(s, es);
      && Shop(t, x, true) && x.customer in t.customers && x.second !in t.keys && (forall k :: k !in t.locks)
      && (forall y :: y in t.claims ==> y == x.o) && |t.handlers| == 1 && |t.rpcs| == 1
    ensures AwaitedRun(s, es)
  {
    hide Next, Inv, IsUuid, HashOf, ToReserve, Concluded, ToLower, IsReserved, Items;
    var request := RequestOf(x);
    s := State({x.customer}, map[], map[], Db(map[x.p := Part("", "", x.q, 0)], map[]), [], [], map[], map[], map[]);
    var initial := StockOf(s.db.parts);
    InitialOk(s);
    PossibleRequest(x);
    ToReserveWaits(s, x.first, request, x.o);
    es := ToReserveRun(s, [], x.first, request, x.o);
    InvariantAlways(s, initial, es);
    var s1 := ToReserve(s, x.first, request, x.o);
    assert s1.rpcs == [Rpc(ReserveMsg(x.o, [Item(x.p, x.q)]), None)];
    assert Waits(s1, 0, 0, x.o, x.p, x.q);
    ReserveConfirms(s1, initial, 0, 0, x.o, x.p, x.q);
    es := ConcludedRun(s, es, 0, 0);
  }

  lemma ToReserveRun(s: State, es0: seq<Event>, key: string, request: Request, freshId: OrderId)
    returns (es: seq<Event>)
    ensures After(s, es) == ToReserve(After(s, es0), key, request, freshId)
    ensures AwaitedRun(s, es0) ==> AwaitedRun(s, es)
  {
    hide Next, AwaitedRun, After;
    var h := |After(s, es0).handlers|;
    var start := StartCreate(key, request.customerId, request.items);
    ThreeMore(s, es0, start, Act(h, ClaimKey(freshId)), Act(h, BeginTx));
    es := es0 + [start, Act(h, ClaimKey(freshId)), Act(h, BeginTx)];
  }

  lemma ConcludedRun(s: State, es0: seq<Event>, h: nat, c: nat) returns (es: seq<Event>)
    requires h < |After(s, es0).handlers| && After(s, es0).handlers[h].pc == AwaitReserve(c)
    ensures After(s, es) == Concluded(After(s, es0), h, c)
    ensures AwaitedRun(s, es0) ==> AwaitedRun(s, es)
  {
    hide Next, AwaitedRun, After;
    ThreeMore(s, es0, Deliver(c, 0), Act(h, GetReserveAnswer(0, 0)), Act(h, Commit(true)));
    es := es0 + [Deliver(c, 0), Act(h, GetReserveAnswer(0, 0)), Act(h, Commit(true))];
  }

  /** The first create of `second` gives up its key, its reserve in flight. */
  lemma SecondGivesUp(s: State, es0: seq<Event>, x: Scene, waiting: bool) returns (es: seq<Event>)
    requires Possible(x)
    requires var t := After(s, es0);
      && Shop(t, x, true) && x.customer in t.customers && x.second !in t.keys && (forall k :: k !in t.locks)
      && (forall y :: y in t.claims ==> y == x.o) && |t.handlers| == 1 && |t.rpcs| == 1
    ensures var t := After(s, es);
      && Shop(t, x, true) && Second(t, x, InProgress, waiting) && t.keys[x.second].requestHash == HashOf(RequestOf(x))
      && x.customer in t.customers && (forall k :: k !in t.locks) && |t.handlers| == 2 && |t.rpcs| == 2
    ensures waiting && AwaitedRun(s, es0) ==> AwaitedRun(s, es)
  {
    hide Next, ValidRequest, HashOf, ToReserve, IsReserved, Items, AwaitedRun, After;
    PossibleRequest(x);
    var s2 := After(s, es0);
    ToReserveWaits(s2, x.second, RequestOf(x), x.leak);
    es := ToReserveRun(s, es0, x.second, RequestOf(x), x.leak);
    LetsGo(After(s, es), 1, 1, waiting);
    OneMore(s, es, Act(1, GivesUp(waiting)));
    es := es + [Act(1, GivesUp(waiting))];
  }

  /** Its retry, handler 2, waits for its reserve. */
  lemma RetryWaits(s: State, es0: seq<Event>, x: Scene, waiting: bool) returns (es: seq<Event>)
    requires Possible(x)
    requires var t := After(s, es0);
      && Shop(t, x, true) && Second(t, x, InProgress, waiting) && t.keys[x.second].requestHash == HashOf(RequestOf(x))
      && x.customer in t.customers && (forall k :: k !in t.locks) && |t.handlers| == 2 && |t.rpcs| == 2
    ensures var t := After(s, es);
      && Shop(t, x, true) && Second(t, x, InProgress, waiting) && |t.handlers| == 3 && |t.rpcs| == 3
      && t.handlers[2].job == Create(x.second, RequestOf(x)) && Waits(t, 2, 2, x.leak, x.p, x.q)
    ensures AwaitedRun(s, es0) ==> AwaitedRun(s, es)
  {
    hide Next, ValidRequest, HashOf, ToReserve, IsReserved, Items, AwaitedRun, After;
    PossibleRequest(x);
    ToReserveWaits(After(s, es0), x.second, RequestOf(x), x.o);
    es := ToReserveRun(s, es0, x.second, RequestOf(x), x.o);
  }

  /** The retry is rejected, and about to record that. */
  lemma RetryRejected(s: State, es0: seq<Event>, x: Scene, waiting: bool) returns (es: seq<Event>)
    requires Possible(x)
    requires var t := After(s, es0);
      && Shop(t, x, true) && Second(t, x, InProgress, waiting) && t.keys[x.second].requestHash == HashOf(RequestOf(x))
      && x.customer in t.customers && (forall k :: k !in t.locks) && |t.handlers| == 2 && |t.rpcs| == 2
    ensures var t := After(s, es);
      && Shop(t, x, true) && Second(t, x, InProgress, waiting) && Recording(t, x) && |t.handlers| == 3 && |t.rpcs| == 3
    ensures AwaitedRun(s, es0) ==> AwaitedRun(s, es)
  {
    hide Next, HashOf, IsReserved, Items, AwaitedRun, After, DefiniteRejection, Possible;
    es := RetryWaits(s, es0, x, waiting);
    RejectionDelivered(After(s, es), 2, x.leak, x.p, x.q);
    OneMore(s, es, Deliver(2, 0));
    es := es + [Deliver(2, 0)];
    RejectionTaken(After(s, es), 2, 2);
    OneMore(s, es, Act(2, GetReserveAnswer(0, 0)));
    es := es + [Act(2, GetReserveAnswer(0, 0))];
  }

  lemma RetryRecorded(s: State, es0: seq<Event>, x: Scene, waiting: bool) returns (es: seq<Event>)
    requires var t := After(s, es0);
      && Shop(t, x, true) && Second(t, x, InProgress, waiting) && Recording(t, x) && |t.handlers| == 3 && |t.rpcs| == 3
    ensures var t := After(s, es);
      && Shop(t, x, true) && Second(t, x, Failed, waiting) && |t.handlers| == 3 && |t.rpcs| == 3
    ensures AwaitedRun(s, es0) ==> AwaitedRun(s, es)
  {
    hide Next, HashOf, IsReserved, Items, AwaitedRun, After;
    RejectionCommitted(After(s, es0), 2, 2);
    OneMore(s, es0, Act(2, Commit(true)));
    es := es0 + [Act(2, Commit(true))];
  }

  /** `first` is cancelled by handler 3; all else stays. */
  lemma FirstCancelled(s: State, initial: map<PartId, int>, es0: seq<Event>, x: Scene, state: KeyState, waiting: bool)
    returns (es: seq<Event>)
    requires Possible(x)
    requires var t := After(s, es0);
      Shop(t, x, true) && Second(t, x, state, waiting) && |t.handlers| == 3 && |t.rpcs| == 3
    requires Inv(s, initial)
    ensures var t, u := After(s, es0), After(s, es);
      && Shop(u, x, false) && Second(u, x, state, waiting) && (Recording(t, x) ==> Recording(u, x))
    ensures AwaitedRun(s, es0) ==> AwaitedRun(s, es)
  {
    hide Next, Inv, HashOf, Cancelled, ToLower, IsReserved, Items, AwaitedRun, After, Shop, Second, Recording, Possible;
    InvariantAlways(s, initial, es0);
    var s6 := After(s, es0);
    CancelledScene(s6, initial, x, state, waiting);
    OneMore(s, es0, StartCancel(x.o));
    OneMore(s, es0 + [StartCancel(x.o)], Act(3, ReadOrder));
    es := es0 + [StartCancel(x.o)] + [Act(3, ReadOrder)];
    var s7 := After(s, es);
    ThreeMore(s, es, Deliver(3, 0), Act(3, GetReleaseAnswer), Act(3, SaveCancel(0, 0, true)));
    es := es + [Deliver(3, 0), Act(3, GetReleaseAnswer), Act(3, SaveCancel(0, 0, true))];
    assert After(s, es) == Cancelled(s7, 3, 3) by { CancelledIs(s7, 3, 3); }
  }

  /** What cancelling order o does and leaves alone. */
  ghost predicate OnlyCancels(s: State, t: State, o: OrderId, p: PartId, q: nat)
    requires o in s.orders
  {
    && t.keys == s.keys && t.orders == s.orders[o := CancelledOrder(s.orders[o], 0, 0)] && t.locks == s.locks
    && (forall y :: y in t.db.ledger <==> y in s.db.ledger)
    && p in s.db.parts && p in t.db.parts && t.db.parts[p].stock == s.db.parts[p].stock + q
    && |s.handlers| <= |t.handlers| && (forall j :: 0 <= j < |s.handlers| ==> t.handlers[j] == s.handlers[j])
    && |s.rpcs| <= |t.rpcs| && (forall d :: 0 <= d < |s.rpcs| ==> t.rpcs[d] == s.rpcs[d])
  }

  lemma CancelFrame(s: State, initial: map<PartId, int>, o: OrderId, p: PartId, q: nat)
    requires o in s.orders && s.orders[o].status == CONFIRMED && IsLowerUuid(o)
    requires IsReserved(s.db.ledger, o) && Items(s.db.ledger[o]) == [Item(p, q)]
    requires Inv(s, initial)
    ensures var h, c := |s.handlers|, |s.rpcs|; var t := Next(Next(s, StartCancel(o)), Act(h, ReadOrder));
      && OnlyCancels(s, Cancelled(t, h, c), o, p, q)
      && c < |t.rpcs| && t.rpcs[c].msg.ReleaseMsg?
  {
    hide Next, Inv, Cancelled, ToLower, IsReserved, Items, IsLowerUuid, CancelledOrder, OnlyCancels, SameLocksBut;
    LowerIsSame(o);
    CancelOnlyReads(s, o);
    var h, c := |s.handlers|, |s.rpcs|;
    var t := Next(Next(s, StartCancel(o)), Act(h, ReadOrder));
    InvDb(s, initial);
    CancelRestores(t, initial, o, h, c, p, q);
    NoLockAbove(s, initial);
    CancelsOnly(s, t, Cancelled(t, h, c), o, p, q);
  }

  lemma CancelsOnly(s: State, t: State, u: State, o: OrderId, p: PartId, q: nat)
    requires o in s.orders && |t.handlers| == |s.handlers| + 1 && |t.rpcs| == |s.rpcs| + 1
    requires t == s.(handlers := s.handlers + [t.handlers[|s.handlers|]], rpcs := s.rpcs + [t.rpcs[|s.rpcs|]])
    requires SameLocksBut(t, u, |s.handlers|) && (forall k :: k in s.locks ==> s.locks[k] < |s.handlers|)
    requires |u.rpcs| == |t.rpcs| && (forall d :: 0 <= d < |t.rpcs| && d != |s.rpcs| ==> u.rpcs[d] == t.rpcs[d])
    requires u.keys == t.keys && u.orders == t.orders[o := CancelledOrder(t.orders[o], 0, 0)]
    requires forall y :: y in u.db.ledger <==> y in t.db.ledger
    requires p in t.db.parts && p in u.db.parts && u.db.parts[p].stock == t.db.parts[p].stock + q
    ensures OnlyCancels(s, u, o, p, q)
  {
    hide CancelledOrder;
    assert forall j :: 0 <= j < |s.handlers| ==> t.handlers[j] == s.handlers[j];
    assert forall d :: 0 <= d < |s.rpcs| ==> t.rpcs[d] == s.rpcs[d];
  }

  lemma NoLockAbove(s: State, initial: map<PartId, int>)
    requires Inv(s, initial)
    ensures forall k :: k in s.locks ==> s.locks[k] < |s.handlers|
  {
    hide KeysOk, RpcOk, OrderOk, HandlerOk, DbInv;
  }

  lemma CancelledScene(s: State, initial: map<PartId, int>, x: Scene, state: KeyState, waiting: bool)
    requires Possible(x) && Shop(s, x, true) && Second(s, x, state, waiting) && |s.handlers| == 3 && |s.rpcs| == 3
    requires Inv(s, initial)
    ensures var t := Next(Next(s, StartCancel(x.o)), Act(3, ReadOrder)); var u := Cancelled(t, 3, 3);
      && Shop(u, x, false) && Second(u, x, state, waiting) && (Recording(s, x) ==> Recording(u, x))
      && 3 < |t.rpcs| && t.rpcs[3].msg.ReleaseMsg?
  {
    hide Next, Inv, Cancelled, IsReserved, Items, IsLowerUuid;
    CancelFrame(s, initial, x.o, x.p, x.q);
    CancelledShop(s, Cancelled(Next(Next(s, StartCancel(x.o)), Act(3, ReadOrder)), 3, 3), x, state, waiting);
  }

  lemma CancelledShop(s: State, t: State, x: Scene, state: KeyState, waiting: bool)
    requires Shop(s, x, true) && Second(s, x, state, waiting) && OnlyCancels(s, t, x.o, x.p, x.q)
    ensures Shop(t, x, false) && Second(t, x, state, waiting) && (Recording(s, x) ==> Recording(t, x))
  {
    hide IsReserved, Items;
  }

  lemma LowerIsSame(o: OrderId)
    requires IsLowerUuid(o)
    ensures ToLower(o) == o
  {
  }

  lemma CancelOnlyReads(s: State, o: OrderId)
    requires o in s.orders && ToLower(o) == o && s.orders[o].status == CONFIRMED
    ensures var t := Next(Next(s, StartCancel(o)), Act(|s.handlers|, ReadOrder));
      t == s.(handlers := s.handlers + [Handler(Cancel(o), AwaitCancel(|s.rpcs|))], rpcs :=
        s.rpcs + [Rpc(ReleaseMsg(o), None)])
  {
    hide ToLower;
  }

  lemma CancelledIs(s: State, h: nat, c: nat)
    ensures Cancelled(s, h, c) ==
      Next(Next(Next(s, Deliver(c, 0)), Act(h, GetReleaseAnswer)), Act(h, SaveCancel(0, 0, true)))
  {
    hide Next;
  }

  /** The reserve in flight is granted. */
  lemma SecondGranted(s: State, es0: seq<Event>, x: Scene, state: KeyState, waiting: bool) returns (es: seq<Event>)
    requires Possible(x)
    requires Shop(After(s, es0), x, false) && Second(After(s, es0), x, state, waiting)
    ensures var t, u := After(s, es0), After(s, es);
      && x.p in u.db.parts && u.db.parts[x.p].stock == 0 && IsReserved(u.db.ledger, x.leak)
      && 1 < |u.rpcs| && u.rpcs[1].answer.Some? && u.rpcs[1].answer.value.Granted?
      && u == t.(db := u.db, rpcs := t.rpcs[1 := u.rpcs[1]])
      && es == es0 + [Deliver(1, 0)]
    ensures waiting && AwaitedRun(s, es0) ==> AwaitedRun(s, es)
  {
    hide Next, IsReserved, Items, AwaitedRun, After;
    PossibleRequest(x);
    GrantDelivered(After(s, es0), 1, x.leak, x.p, x.q);
    OneMore(s, es0, Deliver(1, 0));
    es := es0 + [Deliver(1, 0)];
  }

  // ---------- the three runs ----------

  /** Everything is settled, nothing is sold, and the q units are gone. */
  ghost predicate AllLost(t: State, x: Scene) {
    && Settled(t) && Leaked(t, x.leak) && x.p in t.db.parts && t.db.parts[x.p].stock == 0
    && (forall y :: y in t.orders ==> t.orders[y].status == CANCELLED)
  }

  lemma LostIsLost(t: State, initial: map<PartId, int>, x: Scene)
    requires x.second in t.keys && t.keys[x.second].state == Failed && t.keys[x.second].orderId == x.leak
    requires x.first in t.keys && t.keys[x.first].state == Confirmed
    requires (forall k :: k in t.keys ==> k == x.first || k == x.second)
    requires IsReserved(t.db.ledger, x.leak) && x.p in t.db.parts && t.db.parts[x.p].stock == 0
    requires x.o in t.orders && t.orders[x.o].status == CANCELLED && (forall y :: y in t.orders ==> y == x.o)
    requires Inv(t, initial)
    ensures AllLost(t, x)
  {
    hide Inv;
    KeyOwnsClaim(t, initial, x.second);
  }

  lemma UpToCancel(x: Scene, waiting: bool) returns (s: State, es: seq<Event>)
    requires Possible(x)
    ensures Initial(s) && x.p in s.db.parts && s.db.parts[x.p].stock == x.q >= 1
    ensures Shop(After(s, es), x, false) && Second(After(s, es), x, Failed, waiting)
    ensures waiting ==> AwaitedRun(s, es)
  {
    hide Next, Inv, AwaitedRun, After, Possible, Shop, Second, Recording;
    PossibleRequest(x);
    s, es := FirstSells(x);
    InitialOk(s);
    es := SecondGivesUp(s, es, x, waiting);
    es := RetryRejected(s, es, x, waiting);
    es := RetryRecorded(s, es, x, waiting);
    es := FirstCancelled(s, StockOf(s.db.parts), es, x, Failed, waiting);
  }

  /**
   The reserve of create `second` times out and stays in flight; its retry is rejected and recorded
   as FAILED; `first`, which had sold everything, is cancelled. Then the reserve arrives.
   */
  lemma LateReserveLosesStock(x: Scene) returns (s: State, es: seq<Event>)
    requires Possible(x)
    ensures Initial(s) && x.p in s.db.parts && s.db.parts[x.p].stock == x.q >= 1
    ensures AllLost(After(s, es), x)
  {
    hide Next, Inv, AwaitedRun, After, Possible, IsReserved, AllLost;
    s, es := UpToCancel(x, false);
    es := SecondGranted(s, es, x, Failed, false);
    InitialOk(s);
    InvariantAlways(s, StockOf(s.db.parts), es);
    LostIsLost(After(s, es), StockOf(s.db.parts), x);
  }

  /**
   The same although no RPC fails and every reserve is served while its caller waits: the first
   create of `second` only loses its transaction. It is granted its reserve, recovers, finds its
   key FAILED, and answers the stored error without releasing what it was granted.
   */
  lemma AbandonedReserveLosesStock(x: Scene) returns (s: State, es: seq<Event>)
    requires Possible(x)
    ensures Initial(s) && x.p in s.db.parts && s.db.parts[x.p].stock == x.q >= 1
    ensures AllLost(After(s, es), x) && AwaitedRun(s, es)
    ensures var t := After(s, es);
      && 1 < |t.handlers| && t.handlers[1].job == Create(x.second, RequestOf(x)) && x.second in t.keys
      && t.handlers[1].pc == Done(Error(StoredFailure(t.keys[x.second].status, t.keys[x.second].body)))
  {
    hide Next, Inv, AwaitedRun, After, Possible, IsReserved, AllLost, StoredFailure;
    s, es := UpToCancel(x, true);
    es := SecondGranted(s, es, x, Failed, true);
    InitialOk(s);
    InvariantAlways(s, StockOf(s.db.parts), es);
    var t := After(s, es);
    LostIsLost(t, StockOf(s.db.parts), x);
    FailedIsUnlocked(t, StockOf(s.db.parts), x.second);
    RecoversTooLate(t, 1, 1);
    OneMore(s, es, Act(1, GetReserveAnswer(0, 0)));
    es := es + [Act(1, GetReserveAnswer(0, 0))];
    OneMore(s, es, Act(1, MarkCompensating));
    es := es + [Act(1, MarkCompensating)];
    SameLoss(t, After(s, es), x);
  }

  /** No transaction holds a FAILED key across an RPC. */
  lemma FailedIsUnlocked(s: State, initial: map<PartId, int>, k: string)
    requires k in s.keys && s.keys[k].state == Failed
    requires Inv(s, initial)
    ensures k !in s.locks
  {
    hide Inv, HashOf, ValidRequest, StoredFailure;
    if k in s.locks { LockedHandler(s, initial, k); }
  }

  lemma LockedHandler(s: State, initial: map<PartId, int>, k: string)
    requires k in s.locks
    requires Inv(s, initial)
    ensures LocksOk(s) && HandlerOk(s, s.locks[k])
  {
    hide KeysOk, RpcOk, OrderOk, HandlerOk, DbInv;
  }

  /** A handler granted its reserve after its key was FAILED by others ends with the stored error, and that is all. */
  lemma RecoversTooLate(s: State, h: nat, c: nat)
    requires h < |s.handlers| && s.handlers[h].job.Create? && s.handlers[h].pc == AwaitReserve(c)
    requires Answered(s, c) && s.rpcs[c].answer.value.Granted?
    requires s.handlers[h].job.key in s.keys && s.handlers[h].job.key !in s.locks
    requires s.keys[s.handlers[h].job.key].state == Failed
    ensures var t := Next(Next(s, Act(h, GetReserveAnswer(0, 0))), Act(h, MarkCompensating));
      var entry := s.keys[s.handlers[h].job.key];
      && SameStored(s, t) && h < |t.handlers| && t.handlers[h].job == s.handlers[h].job
      && t.handlers[h].pc == Done(Error(StoredFailure(entry.status, entry.body)))
  {
    hide StoredFailure, CreateResponseBody, Snapshots, ReservedItems, ReservationMatches, ToApiError;
    var t1 := NextReserveAnswer(s, h, s.rpcs[c].answer.value, 0, 0);
    assert Next(s, Act(h, GetReserveAnswer(0, 0))) == t1;
    assert t1.handlers[h].pc == NeedsCompensation && s.handlers[h].job.key !in t1.locks;
    assert Next(t1, Act(h, MarkCompensating)) == NextMark(t1, h);
  }

  lemma SameLoss(s: State, t: State, x: Scene)
    requires AllLost(s, x) && SameStored(s, t)
    ensures AllLost(t, x)
  {
  }

  /**
   The same with the last two events the other way round: the reserve is granted while the rejection
   of its retry is about to be recorded, and then it is recorded.
   */
  lemma LateRecordLosesStock(x: Scene) returns (s: State, es: seq<Event>)
    requires Possible(x)
    ensures Initial(s) && x.p in s.db.parts && s.db.parts[x.p].stock == x.q >= 1
    ensures AllLost(After(s, es), x) && es != []
    ensures var before := es[..|es| - 1];
      Loses(After(s, before), es[|es| - 1], x.leak) && RecordedTooLate(After(s, before), es[|es| - 1], x.leak)
  {
    hide Next, Inv, AwaitedRun, After, Possible, IsReserved, AllLost;
    s, es := UpToRecord(x);
    es := SecondGranted(s, es, x, InProgress, false);
    InitialOk(s);
    InvariantAlways(s, StockOf(s.db.parts), es);
    var t := After(s, es);
    KeyOwnsClaim(t, StockOf(s.db.parts), x.second);
    RejectionCommitted(t, 2, 2);
    OneMore(s, es, Act(2, Commit(true)));
    assert (es + [Act(2, Commit(true))])[..|es|] == es;
    es := es + [Act(2, Commit(true))];
    InvariantAlways(s, StockOf(s.db.parts), es);
    LostIsLost(After(s, es), StockOf(s.db.parts), x);
  }

  lemma UpToRecord(x: Scene) returns (s: State, es: seq<Event>)
    requires Possible(x)
    ensures Initial(s) && x.p in s.db.parts && s.db.parts[x.p].stock == x.q >= 1
    ensures Shop(After(s, es), x, false) && Second(After(s, es), x, InProgress, false) && Recording(After(s, es), x)
  {
    hide Next, Inv, AwaitedRun, After, Possible, Shop, Second, Recording;
    PossibleRequest(x);
    s, es := FirstSells(x);
    InitialOk(s);
    es := SecondGivesUp(s, es, x, false);
    es := RetryRejected(s, es, x, false);
    es := FirstCancelled(s, StockOf(s.db.parts), es, x, InProgress, false);
  }

  predicate IsRpcFailure(e: Event) {
    e.Act? && e.action.RpcFails?
  }
}
