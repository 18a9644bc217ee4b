/**
 What clients of the order API are promised over whole runs: the life of a key, exact
 replays, no inconsistency between the services, and at most one effect per order.
 */
module SagaTheorems {
  import opened Identifiers
  import opened Canonical
  import opened Errors
  import opened Stock
  import opened StockRuns
  import opened Saga
  import opened SagaInvariant

  // ---------- which events write what ----------

  lemma BeginStores(s: State, h: nat)
    requires h < |s.handlers| && s.handlers[h].job.Create?
    ensures SameStored(s, NextBegin(s, h)) && SameStored(s, NextUndo(s, h))
  {
    hide HashOf, StoredFailure, Replay, FailedWith, WithPc, Finish, Send, LockedBy;
  }

  lemma AnswerStores(s: State, h: nat, answer: Answer, createdAt: Time, updatedAt: Time)
    requires h < |s.handlers|
    ensures s.handlers[h].job.Create? && s.handlers[h].job.key in s.keys ==>
      SameStored(s, NextReserveAnswer(s, h, answer, createdAt, updatedAt))
    ensures SameStored(s, NextReleaseAnswer(s, h, answer))
  {
    hide ToApiError, CreateResponseBody, ReservationMatches, FailedWith, Snapshots, ReservedItems, Holds;
    hide WithPc, Finish, Unlocked;
  }

  lemma OthersStore(s: State, h: nat, status: int)
    requires h < |s.handlers|
    ensures SameStored(s, NextFailure(s, h, status)) && SameStored(s, NextAbort(s, h))
    ensures s.handlers[h].job.Cancel? ==> SameStored(s, NextRead(s, h))
  {
    hide ToApiError, WithPc, Finish, Send, Unlocked, Holds;
  }

  predicate Writes(a: Action) {
    a.ClaimKey? || a.Commit? || a.MarkCompensating? || a.SaveCancel?
  }

  /** Sales' stored data changes in four places only, and Inventory's only by deliveries. */
  lemma OnlyWritersWrite(s: State, h: nat, a: Action)
    requires Enabled(s, h, a)
    ensures !Writes(a) ==> SameStored(s, NextAct(s, h, a))
    ensures NextAct(s, h, a).db == s.db
    ensures !a.Commit? && !a.SaveCancel? ==> NextAct(s, h, a).orders == s.orders
    ensures !a.Commit? ==> NextAct(s, h, a).originals == s.originals
    ensures a.SaveCancel? ==> NextAct(s, h, a).keys == s.keys
  {
    hide NextBegin, NextUndo, NextReserveAnswer, NextReleaseAnswer, NextFailure, NextAbort, NextRead, HashOf;
    hide Replay, FailedWith, WithPc, Finish, Unlocked;
    match a
    case BeginTx => BeginStores(s, h);
    case BeginUndo => BeginStores(s, h);
    case GetReserveAnswer(createdAt, updatedAt) =>
      AnswerStores(s, h, s.rpcs[s.handlers[h].pc.rpc].answer.value, createdAt, updatedAt);
    case GetReleaseAnswer => AnswerStores(s, h, s.rpcs[s.handlers[h].pc.rpc].answer.value, 0, 0);
    case RpcFails(status) => OthersStore(s, h, status);
    case AbortTx => OthersStore(s, h, 0);
    case ReadOrder => OthersStore(s, h, 0);
    case _ =>
  }

  // ---------- the life of a key ----------

  predicate Final(state: KeyState) {
    state == Confirmed || state == Failed
  }

  /** IN_PROGRESS may become anything else, COMPENSATING only FAILED, CONFIRMED and FAILED nothing. */
  predicate Lives(entry: KeyEntry, next: KeyEntry) {
    && next.orderId == entry.orderId && next.requestHash == entry.requestHash
    && (next == entry || entry.state == InProgress
         || (entry.state == Compensating && next.state == Failed && next == entry.(state := Failed)))
    && (next != entry ==> next.state != InProgress)
  }

  lemma ActIs(s: State, h: nat, a: Action)
    requires Enabled(s, h, a)
    ensures a.ClaimKey? ==> NextAct(s, h, a) == NextClaim(s, h, a.freshId)
    ensures a.Commit? ==> NextAct(s, h, a) == NextCommit(s, h, a.acked)
    ensures a.MarkCompensating? ==> NextAct(s, h, a) == NextMark(s, h)
    ensures a.SaveCancel? ==> NextAct(s, h, a) == NextSave(s, h, a.at, a.updatedAt, a.ack)
  {
  }

  lemma KeyStep(s: State, initial: map<PartId, int>, e: Event, k: string)
    requires Inv(s, initial) && k in s.keys
    ensures k in Next(s, e).keys && Lives(s.keys[k], Next(s, e).keys[k])
  {
    hide Serve, HashOf, Inv, NormalizeItems, ValidOrderItems, NextCommit, NextMark, NextClaim, Lives;
    KeepsLives(s.keys[k]);
    if e.Act? && Enabled(s, e.h, e.action) {
      OnlyWritersWrite(s, e.h, e.action);
      hide NextAct;
      match e.action
      case ClaimKey(o) =>
        assert NextAct(s, e.h, e.action) == NextClaim(s, e.h, o) by { ActIs(s, e.h, e.action); }
        MarkLives(s, e.h, o, k);
      case Commit(acked) =>
        assert NextAct(s, e.h, e.action) == NextCommit(s, e.h, acked) by { ActIs(s, e.h, e.action); }
        CommitLives(s, initial, e.h, acked, k);
      case MarkCompensating =>
        assert NextAct(s, e.h, e.action) == NextMark(s, e.h) by { ActIs(s, e.h, e.action); }
        MarkLives(s, e.h, "", k);
      case _ =>
    }
  }

  lemma KeepsLives(entry: KeyEntry)
    ensures Lives(entry, entry)
  {
  }

  lemma MarkLives(s: State, h: nat, o: OrderId, k: string)
    requires h < |s.handlers| && s.handlers[h].job.Create? && k in s.keys
    ensures k in NextMark(s, h).keys && Lives(s.keys[k], NextMark(s, h).keys[k])
    ensures k in NextClaim(s, h, o).keys && Lives(s.keys[k], NextClaim(s, h, o).keys[k])
  {
    hide HashOf, Replay, WithPc, Finish, FailedWith;
    FailedWithIsFailed(s.keys[k], INTERNAL_FAILURE);
  }

  lemma CommitLives(s: State, initial: map<PartId, int>, h: nat, acked: bool, k: string)
    requires h < |s.handlers| && s.handlers[h].job.Create? && s.handlers[h].pc.Persisting? && k in s.keys
    requires Inv(s, initial)
    ensures k in NextCommit(s, h, acked).keys && Lives(s.keys[k], NextCommit(s, h, acked).keys[k])
  {
    hide HashOf, ValidRequest, DbInv, KeysOk, LocksOk, CreateResponseBody, SnapshotOf, RpcOk, OrderOk, StoredFailure;
    assert HandlerOk(s, h);
  }

  /**
   Every key keeps its order id and its request, moves along its life line only, and CONFIRMED and
   FAILED rows never change.
   */
  lemma {:induction false} KeyLifecycle(s: State, initial: map<PartId, int>, es: seq<Event>, k: string)
    requires Inv(s, initial) && k in s.keys
    ensures var t := After(s, es);
      && k in t.keys && t.keys[k].orderId == s.keys[k].orderId && t.keys[k].requestHash == s.keys[k].requestHash
      && (s.keys[k].state != InProgress ==> t.keys[k].state != InProgress)
      && (s.keys[k].state == Compensating ==> t.keys[k] == s.keys[k] || t.keys[k] == s.keys[k].(state := Failed))
      && (Final(s.keys[k].state) ==> t.keys[k] == s.keys[k])
  {
    hide Inv, Next;
    if es != [] {
      var before := es[..|es| - 1];
      KeyLifecycle(s, initial, before, k);
      InvariantAlways(s, initial, before);
      KeyStep(After(s, before), initial, es[|es| - 1], k);
    }
  }

  predicate Granted(s: State, c: nat) {
    Answered(s, c) && s.rpcs[c].answer.value.Granted?
  }

  /**
   Exceptions the code guards against that cannot happen: a key that compensation finds CONFIRMED
   or back IN_PROGRESS, a confirmed key without its order, a granted reservation that does not
   match the request or whose order already exists, a release that finds no ledger row.
   */
  lemma GuardsNeverFire(s: State, initial: map<PartId, int>, h: nat, k: string)
    requires Inv(s, initial) && k in s.keys
    ensures s.keys[k].state == Confirmed ==> s.keys[k].orderId in s.orders
    ensures h < |s.handlers| && s.handlers[h].job.Create? && s.handlers[h].job.key == k ==>
      && (s.handlers[h].pc == WantUndo ==> s.keys[k].state == Compensating || s.keys[k].state == Failed)
      && (s.handlers[h].pc.AwaitReserve? && Holds(s, h) && Granted(s, s.handlers[h].pc.rpc) ==>
            && ReservationMatches(s.handlers[h].job.request.items,
              ReservedItems(s.rpcs[s.handlers[h].pc.rpc].answer.value.result))
            && s.keys[k].orderId !in s.orders)
    ensures h < |s.handlers| && (s.handlers[h].pc.AwaitRelease? || s.handlers[h].pc.AwaitCancel?) ==>
      (Answered(s, s.handlers[h].pc.rpc) ==> Granted(s, s.handlers[h].pc.rpc))
  {
    hide HashOf, DbInv, CreateResponseBody, SnapshotOf, ConfirmedOk, ReservedItems, ReservationMatches, Items;
    hide ReserveResult, ValidRequest, ToApiError;
    assert OrderOk(s, s.keys[k].orderId);
    if h < |s.handlers| {
      assert HandlerOk(s, h);
      if (s.handlers[h].pc.AwaitRelease? || s.handlers[h].pc.AwaitCancel?) && Answered(s, s.handlers[h].pc.rpc) {
        assert RpcOk(s, s.handlers[h].pc.rpc);
      }
      if s.handlers[h].job.Create? && s.handlers[h].job.key ==
        k && s.handlers[h].pc.AwaitReserve? && Answered(s, s.handlers[h].pc.rpc) {
        var c := s.handlers[h].pc.rpc;
        assert RpcOk(s, c);
        if s.rpcs[c].answer.value.Granted? {
          ReservedFacts(s, initial, c);
          SameLinesMatch(s, initial, h);
        }
      }
    }
  }

  lemma SameLinesMatch(s: State, initial: map<PartId, int>, h: nat)
    requires Inv(s, initial) && h < |s.handlers| && s.handlers[h].job.Create?
    ensures var items := s.handlers[h].job.request.items; ReservationMatches(items, items)
  {
    hide RpcOk, OrderOk, DbInv, HashOf, KeysOk;
    assert HandlerOk(s, h);
    var items := s.handlers[h].job.request.items;
    forall i | 0 <= i < |items| ensures LowerItems(items)[i] == items[i] { assert ValidItem(items[i]); }
    assert LowerItems(items) == items;
  }

  // ---------- stored answers ----------

  /** A stored failure is read back only from an object with a textual code and message; anything else is a 500. */
  lemma StoredFailureIsExact(status: Option<int>, body: Option<Json>)
    ensures var error := StoredFailure(status, body);
      var code, message := Field(body, "code"), Field(body, "message");
      if code.Some? && code.value.JString? && message.Some? && message.value.JString?
      then Is(error, if status.Some? then status.value else 500, code.value.s, message.value.s)
      else IsInternal(error)
  {
  }

  /** The public errors of Sales itself. */
  lemma PublicErrors()
    ensures Is(CUSTOMER_NOT_FOUND, 404, "CUSTOMER_NOT_FOUND", "Customer not found")
    ensures Is(ORDER_NOT_FOUND, 404, "ORDER_NOT_FOUND", "Order not found")
    ensures Is(KEY_CONFLICT, 409, "IDEMPOTENCY_KEY_CONFLICT",
      "This Idempotency-Key was already used with a different request payload")
    ensures Is(VALIDATION, 400, "VALIDATION_ERROR", "Request validation failed") && IsInternal(INTERNAL_FAILURE)
  {
  }

  function TextOf(fields: map<string, Json>, name: string): Option<string> {
    if name in fields && fields[name].JString? then Some(fields[name].s) else None
  }

  function DateOf(fields: map<string, Json>, name: string): Option<Time> {
    var text := TextOf(fields, name);
    if text.Some? && ReadDecimal(text.value) >= 0 && DateText(ReadDecimal(text.value)) == text.value
    then Some(ReadDecimal(text.value)) else None
  }

  /** One item of a stored response, read by the names of its fields. */
  function ReadItem(j: Json): Option<OrderItem> {
    if !j.JObject? then None
    else
      var id, sku, name := TextOf(j.fields, "partId"), TextOf(j.fields, "sku"), TextOf(j.fields, "name");
      if id == None || sku == None || name == None || "quantity" !in j.fields || !j.fields["quantity"].JNumber?
         || j.fields["quantity"].n < 0
      then None
      else Some(OrderItem(id.value, sku.value, name.value, j.fields["quantity"].n))
  }

  function ReadItems(js: seq<Json>): Option<seq<OrderItem>> {
    if js == [] then Some([])
    else
      var first, rest := ReadItem(js[0]), ReadItems(js[1..]);
      if first == None || rest == None then None else Some([first.value] + rest.value)
  }

  /** A stored response, read back by the names of its fields. */
  function ReadResponse(j: Json): Option<OrderView> {
    if !j.JObject? || "items" !in j.fields || !j.fields["items"].JArray? || "cancelledAt" !in j.fields then None
    else
      var f := j.fields;
      var id, customer, status := TextOf(f, "id"), TextOf(f, "customerId"), TextOf(f, "status");
      var items, createdAt, updatedAt := ReadItems(f["items"].items), DateOf(f, "createdAt"), DateOf(f, "updatedAt");
      if id == None || customer == None || status != Some("CONFIRMED") || items == None
         || createdAt == None || updatedAt == None || f["cancelledAt"] != JNull
      then None
      else Some(OrderView(id.value, customer.value, CONFIRMED, items.value, createdAt.value, updatedAt.value, None))
  }

  lemma {:induction false} ItemsReadBack(items: seq<OrderItem>, js: seq<Json>)
    requires |js| == |items| && forall i :: 0 <= i < |items| ==> ReadItem(js[i]) == Some(items[i])
    ensures ReadItems(js) == Some(items)
  {
    hide ReadItem;
    if items != [] {
      ItemsReadBack(items[1..], js[1..]);
      assert items == [items[0]] + items[1..];
    }
  }

  /** The response stored with a CONFIRMED key holds the whole order: it can be read back. */
  lemma ResponseRoundTrip(order: OrderView)
    requires order.status == CONFIRMED && order.cancelledAt == None
    ensures ReadResponse(CreateResponseBody(order)) == Some(order)
  {
    hide Decimal, ReadDecimal, ReadItems;
    DecimalRoundTrip(order.createdAt);
    DecimalRoundTrip(order.updatedAt);
    var body := CreateResponseBody(order);
    var js := body.fields["items"].items;
    forall i | 0 <= i < |order.items| ensures ReadItem(js[i]) == Some(order.items[i]) {}
    ItemsReadBack(order.items, js);
  }

  /** Without a readable body a replay shows the row as CONFIRMED, both times the creation time. */
  lemma RestoreFallsBack(body: Option<Json>, current: OrderView)
    requires body == None || !body.value.JObject?
    ensures RestoreCreateResponse(body, current) ==
      current.(status := CONFIRMED, updatedAt := current.createdAt, cancelledAt := None)
  {
  }

  predicate AnswersInternal(t: State, h: nat) {
    h < |t.handlers| && t.handlers[h].pc.Done? && t.handlers[h].pc.result.Error?
      && IsInternal(t.handlers[h].pc.result.error)
  }

  /**
   A create whose transaction is gone answers 500 whatever its RPC brings, but for a granted
   reserve, which it goes on to compensate.
   */
  lemma LostTransactionAnswers500(s: State, h: nat, status: int, createdAt: Time, updatedAt: Time)
    requires h < |s.handlers| && s.handlers[h].job.Create? && s.handlers[h].job.key in s.keys && !Holds(s, h)
    requires s.handlers[h].pc.AwaitReserve? || s.handlers[h].pc.AwaitRelease?
    ensures !DomainStatus(status) ==> AnswersInternal(Next(s, Act(h, RpcFails(status))), h)
    ensures s.handlers[h].pc.AwaitReserve? && Answered(s, s.handlers[h].pc.rpc) ==>
      var t := Next(s, Act(h, GetReserveAnswer(createdAt, updatedAt)));
      if Granted(s, s.handlers[h].pc.rpc) then h < |t.handlers| && t.handlers[h].pc == NeedsCompensation
      else AnswersInternal(t, h)
    ensures s.handlers[h].pc.AwaitRelease? && Answered(s, s.handlers[h].pc.rpc) ==>
      AnswersInternal(Next(s, Act(h, GetReleaseAnswer)), h)
  {
    hide ToApiError, ReservationMatches, CreateResponseBody, Snapshots, ReservedItems, FailedWith, HashOf;
  }

  /** So does a crash, and a commit that is not acknowledged, unless it follows a granted reserve. */
  lemma FailedCommitAnswers500(s: State, h: nat)
    requires h < |s.handlers|
    ensures !s.handlers[h].pc.Done? ==> AnswersInternal(Next(s, Act(h, Crash)), h)
    ensures s.handlers[h].job.Create? && s.handlers[h].pc.Persisting? && Holds(s, h) ==>
      var t := Next(s, Act(h, Commit(false)));
      if s.handlers[h].pc.order.Some? then h < |t.handlers| && t.handlers[h].pc == NeedsCompensation
        else AnswersInternal(t, h)
    ensures s.handlers[h].job.Cancel? && s.handlers[h].pc == CancelGranted ==>
      forall at, updatedAt :: AnswersInternal(Next(s, Act(h, SaveCancel(at, updatedAt, false))), h)
  {
  }

  // ---------- exact replay ----------

  lemma RestoredIsOriginal(original: OrderView, current: OrderView)
    requires original.status == CONFIRMED && original.cancelledAt == None
    requires current == original.(status :=
      current.status, updatedAt := current.updatedAt, cancelledAt := current.cancelledAt)
    ensures RestoreCreateResponse(Some(CreateResponseBody(original)), current) == original
  {
    hide Decimal, ReadDecimal;
    DecimalRoundTrip(original.createdAt);
    DecimalRoundTrip(original.updatedAt);
    var body := Some(CreateResponseBody(original));
    assert Field(body, "createdAt") == Some(JString(DateText(original.createdAt)));
    assert Field(body, "updatedAt") == Some(JString(DateText(original.updatedAt)));
  }

  lemma {:induction false} OriginalStays(s: State, initial: map<PartId, int>, es: seq<Event>, o: OrderId)
    requires Inv(s, initial) && o in s.originals
    ensures o in After(s, es).originals && After(s, es).originals[o] == s.originals[o]
  {
    hide Inv, Next;
    if es != [] {
      var before := es[..|es| - 1];
      OriginalStays(s, initial, before, o);
      InvariantAlways(s, initial, before);
      OriginalStep(After(s, before), initial, es[|es| - 1], o);
    }
  }

  lemma CommitTouches(s: State, h: nat, acked: bool, o: OrderId)
    requires h < |s.handlers| && s.handlers[h].job.Create? && s.handlers[h].pc.Persisting?
      && s.handlers[h].pc.entry.orderId != o
    ensures var t := NextCommit(s, h, acked);
      && (o in s.orders ==> o in t.orders && t.orders[o] == s.orders[o])
      && (o in s.originals ==> o in t.originals && t.originals[o] == s.originals[o])
  {
    hide WithPc, Unlocked, AfterException, Holds;
  }

  /** Only the first commit of an order writes it: an existing order's key is no longer IN_PROGRESS. */
  lemma CommitIsNew(s: State, initial: map<PartId, int>, h: nat, acked: bool, o: OrderId)
    requires h < |s.handlers| && s.handlers[h].job.Create? && s.handlers[h].pc.Persisting?
    requires o in s.claims && s.claims[o].key in s.keys && StateOf(s, o) == Confirmed
    requires Inv(s, initial)
    ensures var t := NextCommit(s, h, acked);
      && (o in s.orders ==> o in t.orders && t.orders[o] == s.orders[o])
      && (o in s.originals ==> o in t.originals && t.originals[o] == s.originals[o])
  {
    hide Inv, NextCommit, ValidRequest, HashOf;
    PersistingState(s, initial, h);
    CommitTouches(s, h, acked, o);
  }

  lemma PersistingState(s: State, initial: map<PartId, int>, h: nat)
    requires Inv(s, initial) && h < |s.handlers| && s.handlers[h].job.Create? && s.handlers[h].pc.Persisting?
    ensures var key := s.handlers[h].job.key;
      && key in s.keys && s.handlers[h].pc.entry.orderId == s.keys[key].orderId && s.keys[key].state != Confirmed
      && s.keys[key].orderId in s.claims && s.claims[s.keys[key].orderId].key == key
  {
    hide HashOf, ValidRequest, DbInv, CreateResponseBody, SnapshotOf, RpcOk, OrderOk, LocksOk, StoredFailure;
    assert HandlerOk(s, h);
  }

  lemma OriginalStep(s: State, initial: map<PartId, int>, e: Event, o: OrderId)
    requires Inv(s, initial) && o in s.originals
    ensures o in Next(s, e).originals && Next(s, e).originals[o] == s.originals[o]
  {
    hide Inv, NextAct, NextCommit, Serve, HashOf, NormalizeItems, ValidOrderItems;
    if e.Act? && Enabled(s, e.h, e.action) {
      OnlyWritersWrite(s, e.h, e.action);
      ActIs(s, e.h, e.action);
      OrderFacts(s, initial, o);
      if e.action.Commit? { CommitIsNew(s, initial, e.h, e.action.acked, o); }
    }
  }

  lemma OrderFacts(s: State, initial: map<PartId, int>, o: OrderId)
    requires Inv(s, initial) && (o in s.orders || o in s.originals)
    ensures o in s.claims && s.claims[o].key in s.keys && OrderOk(s, o) && StateOf(s, o) == Confirmed
  {
    hide HandlerOk, RpcOk, DbInv, HashOf, ValidRequest, ConfirmedOk;
    assert OrderOk(s, o);
  }

  lemma ConfirmedReplay(s: State, initial: map<PartId, int>, k: string)
    requires Inv(s, initial) && k in s.keys && s.keys[k].state == Confirmed
    ensures s.keys[k].orderId in s.originals
    ensures Replay(s, s.keys[k]) == Success(s.originals[s.keys[k].orderId], true)
  {
    hide HandlerOk, RpcOk, DbInv, HashOf, ValidRequest, CreateResponseBody, RestoreCreateResponse, SnapshotOf;
    var o := s.keys[k].orderId;
    assert OrderOk(s, o);
    RestoredIsOriginal(s.originals[o], s.orders[o]);
  }

  /**
   Once a create has committed its order, every later create with the same key and payload, after
   any further events at all, answers exactly the order first returned, calls no RPC and changes
   no stored data.
   */
  lemma ReplayIsExact(s: State, initial: map<PartId, int>, h: nat, acked: bool, es: seq<Event>, g: nat)
    requires Inv(s, initial) && Enabled(s, h, Commit(acked)) && s.handlers[h].pc.order.Some?
    requires var t := After(Next(s, Act(h, Commit(acked))), es);
      && Enabled(t, g, BeginTx) && t.handlers[g].job == s.handlers[h].job && t.handlers[g].job.key !in t.locks
    ensures var order := s.handlers[h].pc.order.value;
      var t := After(Next(s, Act(h, Commit(acked))), es);
      var u := Next(t, Act(g, BeginTx));
      && s.handlers[h].pc.outcome == Success(order, false)
      && u.handlers[g].pc == Done(Success(order, true))
      && u.rpcs == t.rpcs && u.keys == t.keys && u.orders == t.orders && u.db == t.db
  {
    hide Inv, NextCommit, PersistOk, HashOf, Replay;
    var first := Next(s, Act(h, Commit(acked)));
    var Create(key, request) := s.handlers[h].job;
    CommittedFacts(s, initial, h, acked);
    NextKeeps(s, initial, Act(h, Commit(acked)));
    InvariantAlways(first, initial, es);
    KeyLifecycle(first, initial, es, key);
    OriginalStays(first, initial, es, first.keys[key].orderId);
    ConfirmedReplay(After(first, es), initial, key);
  }

  lemma CommittedFacts(s: State, initial: map<PartId, int>, h: nat, acked: bool)
    requires Inv(s, initial) && Enabled(s, h, Commit(acked)) && s.handlers[h].pc.order.Some?
    ensures var t := NextCommit(s, h, acked); var Create(key, request) := s.handlers[h].job;
      && key in t.keys && t.keys[key].state == Confirmed && t.keys[key].requestHash == HashOf(request)
      && t.keys[key].orderId in t.originals && t.originals[t.keys[key].orderId] == s.handlers[h].pc.order.value
      && s.handlers[h].pc.outcome == Success(s.handlers[h].pc.order.value, false)
  {
    hide RpcOk, OrderOk, DbInv, HashOf, ValidRequest, CreateResponseBody, SnapshotOf, KeysOk;
    assert HandlerOk(s, h);
  }

  /**
   Once a key is FAILED, every later create of the same payload, after any further events at all,
   answers the one stored error, calls no RPC and changes no stored data.
   */
  lemma FailedAnswerIsStable(s: State, initial: map<PartId, int>, k: string, es: seq<Event>, g: nat)
    requires k in s.keys && s.keys[k].state == Failed
    requires var t := After(s, es);
      && g < |t.handlers| && t.handlers[g].job.Create? && t.handlers[g].job.key == k && t.handlers[g].pc == WantKey
      && HashOf(t.handlers[g].job.request) == s.keys[k].requestHash && k !in t.locks
    requires Inv(s, initial)
    ensures var t := After(s, es); var u := Next(t, Act(g, BeginTx));
      && g < |u.handlers| && u.handlers[g].pc == Done(Error(StoredFailure(s.keys[k].status, s.keys[k].body)))
      && u.rpcs == t.rpcs && SameStored(t, u)
  {
    hide Inv, HashOf, StoredFailure;
    KeyLifecycle(s, initial, es, k);
    var t := After(s, es);
    assert Next(t, Act(g, BeginTx)) == NextBegin(t, g);
  }

  // ---------- the two services never contradict each other ----------

  /**
   No RPC is answered with an inconsistency: a release always finds its row and is granted; a
   reserve is never taken for a different payload; and while its key is IN_PROGRESS, whether or not
   its caller still waits, it never finds the reservation already released.
   */
  lemma NoInconsistentAnswer(s: State, initial: map<PartId, int>, c: nat, now: Time)
    requires Inv(s, initial) && c < |s.rpcs|
    ensures var answer := Serve(s.db, CallOf(s.rpcs[c].msg, now)).1;
      && answer != Threw
      && (s.rpcs[c].msg.ReleaseMsg? ==> answer.Granted?)
      && answer != Refused(OrderIdConflict(s.rpcs[c].msg.orderId))
      && s.rpcs[c].msg.orderId in s.claims && s.claims[s.rpcs[c].msg.orderId].key in s.keys
      && (StateOf(s, s.rpcs[c].msg.orderId) == InProgress ==>
            answer != Refused(ReservationAlreadyReleased(s.rpcs[c].msg.orderId)))
  {
    hide Fingerprint, TotalHeld, ValidItems, HashOf, ConfirmedOk, LineOk, Deduct, Restore, ReserveResult;
    hide ReleaseResult, Missing, Shortages, HandlerOk, KeysOk, CreateResponseBody;
    var o := s.rpcs[c].msg.orderId;
    DeliveredCallIsValid(s, initial, c, now);
    ServeNeverThrows(s.db, initial, CallOf(s.rpcs[c].msg, now));
    if s.rpcs[c].msg.ReleaseMsg? { ReleaseAnswersOrThrows(s.db, o, now); }
    if o in s.db.ledger { assert OperationOk(s.db.ledger[o], s.db.parts.Keys); }
  }

  /** In particular a caller that still holds its key's lock is never answered that its reservation was released. */
  lemma HolderNeverSeesReleased(s: State, initial: map<PartId, int>, h: nat, c: nat, now: Time)
    requires h < |s.handlers| && c < |s.rpcs| && Holds(s, h) && s.handlers[h].pc == AwaitReserve(c)
    requires Inv(s, initial)
    ensures Serve(s.db, CallOf(s.rpcs[c].msg, now)).1 != Refused(ReservationAlreadyReleased(s.rpcs[c].msg.orderId))
  {
    hide Inv, Serve;
    WaitingMeansInProgress(s, initial, h);
    NoInconsistentAnswer(s, initial, c, now);
  }

  lemma ReleaseAnswersOrThrows(db: Db, o: OrderId, now: Time)
    requires o in db.ledger
    ensures !Release(db, o, now).1.Refused?
  {
  }

  lemma WaitingMeansInProgress(s: State, initial: map<PartId, int>, h: nat)
    requires Inv(s, initial) && h < |s.handlers| && Holds(s, h) && s.handlers[h].pc.AwaitReserve?
    ensures var c := s.handlers[h].pc.rpc;
      c < |s.rpcs| && s.rpcs[c].msg.ReserveMsg? && RpcOk(s, c) && StateOf(s, s.rpcs[c].msg.orderId) == InProgress
  {
    hide OrderOk, DbInv, ValidRequest, HashOf;
    assert HandlerOk(s, h);
    assert RpcOk(s, s.handlers[h].pc.rpc);
  }

  // ---------- one effect per order ----------

  /** The stock calls served during a run, in order. */
  function Served(s: State, es: seq<Event>): seq<StockCall> {
    if es == [] then []
    else
      var before, e := es[..|es| - 1], es[|es| - 1];
      var t := After(s, before);
      Served(s, before) +
        if e.Deliver? && e.rpc < |t.rpcs| && t.rpcs[e.rpc].answer == None then [CallOf(t.rpcs[e.rpc].msg, e.now)]
          else []
  }

  lemma DbStep(s: State, e: Event)
    ensures Next(s, e).db ==
      if e.Deliver? && e.rpc < |s.rpcs| && s.rpcs[e.rpc].answer == None
        then Serve(s.db, CallOf(s.rpcs[e.rpc].msg, e.now)).0 else s.db
  {
    hide Serve, NextAct, HashOf, NormalizeItems, ValidOrderItems;
    if e.Act? && Enabled(s, e.h, e.action) { OnlyWritersWrite(s, e.h, e.action); }
  }

  /** Inventory's side of any run of the saga is a run of the stock service. */
  lemma {:induction false} InventorySideIsAStockRun(s: State, es: seq<Event>)
    ensures After(s, es).db == Exec(s.db, Served(s, es))
  {
    hide Serve, Next;
    if es != [] {
      var before, e := es[..|es| - 1], es[|es| - 1];
      InventorySideIsAStockRun(s, before);
      DbStep(After(s, before), e);
      var calls := Served(s, es);
      if calls != Served(s, before) {
        assert calls[..|calls| - 1] == Served(s, before);
      }
    }
  }

  /**
   Over any run of the whole system, retries and late deliveries included, each order is deducted
   and restored at most once.
   */
  lemma AtMostOneEffect(s: State, es: seq<Event>, o: OrderId)
    ensures Deductions(s.db, Served(s, es), o) == (if o !in s.db.ledger && o in After(s, es).db.ledger then 1 else 0)
    ensures Restorations(s.db, Served(s, es), o) ==
      (if !IsReleased(s.db.ledger, o) && IsReleased(After(s, es).db.ledger, o) then 1 else 0)
  {
    hide Serve, Next, Deductions, Restorations;
    InventorySideIsAStockRun(s, es);
    EffectsHappenOnce(s.db, Served(s, es), o);
  }

  // ---------- cancellation ----------

  lemma CancelledStep(s: State, initial: map<PartId, int>, e: Event, o: OrderId)
    requires Inv(s, initial) && o in s.orders && s.orders[o].status == CANCELLED
    ensures o in Next(s, e).orders && Next(s, e).orders[o] == s.orders[o]
  {
    hide Inv, NextAct, NextCommit, Serve, HashOf, NormalizeItems, ValidOrderItems;
    if e.Act? && Enabled(s, e.h, e.action) {
      OnlyWritersWrite(s, e.h, e.action);
      ActIs(s, e.h, e.action);
      OrderFacts(s, initial, o);
      if e.action.Commit? { CommitIsNew(s, initial, e.h, e.action.acked, o); }
    }
  }

  /** A cancelled order never changes again: one `cancelledAt`, its stock released before, for ever. */
  lemma {:induction false} CancelledForEver(s: State, initial: map<PartId, int>, es: seq<Event>, o: OrderId)
    requires Inv(s, initial) && o in s.orders && s.orders[o].status == CANCELLED
    ensures var t := After(s, es);
      && o in t.orders && t.orders[o] == s.orders[o] && t.orders[o].cancelledAt.Some? && IsReleased(t.db.ledger, o)
  {
    hide Inv, Next;
    InvariantAlways(s, initial, es);
    if es != [] {
      var before := es[..|es| - 1];
      CancelledForEver(s, initial, before, o);
      InvariantAlways(s, initial, before);
      CancelledStep(After(s, before), initial, es[|es| - 1], o);
    }
    CancelledFacts(After(s, es), initial, o);
  }

  lemma CancelledFacts(s: State, initial: map<PartId, int>, o: OrderId)
    requires Inv(s, initial) && o in s.orders && s.orders[o].status == CANCELLED
    ensures s.orders[o].cancelledAt.Some? && IsReleased(s.db.ledger, o)
  {
    hide HandlerOk, RpcOk, DbInv, HashOf, ValidRequest, SnapshotOf, CreateResponseBody;
    assert OrderOk(s, o);
  }
}
