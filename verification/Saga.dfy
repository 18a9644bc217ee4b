/**
 The whole system: Sales' idempotency keys and orders, Inventory's database, the RPCs
 between them and any number of concurrent `create` and `cancel` handlers. Every step of
 a handler, every RPC delivery and every fault is an event; `Next` says what it does, and
 an event that is not possible does nothing, so every sequence of events is a run.

 An RPC that Sales gave up on may still be delivered later.
 */
module Saga {
  import opened Identifiers
  import opened Canonical
  import opened Errors
  import opened Stock

  // ---------- Sales' stored data ----------

  datatype Json =
    | JNull
    | JNumber(n: int)
    | JString(s: string)
    | JArray(items: seq<Json>)
    | JObject(fields: map<string, Json>)

  datatype OrderStatus = CONFIRMED | CANCELLED

  datatype OrderItem = OrderItem(partId: PartId, sku: string, name: string, quantity: nat)

  /** An order row with its items, which is also what the API shows of it. */
  datatype OrderView = OrderView(
    id: OrderId,
    customerId: string,
    status: OrderStatus,
    items: seq<OrderItem>,
    createdAt: Time,
    updatedAt: Time,
    cancelledAt: Option<Time>)

  datatype KeyState = InProgress | Confirmed | Failed | Compensating

  /** A row of `idempotency_requests`. */
  datatype KeyEntry = KeyEntry(requestHash: string, orderId: OrderId, state: KeyState, status: Option<int>,
    body: Option<Json>)

  datatype Outcome = Success(order: OrderView, replayed: bool) | Error(error: ApiError)

  const CUSTOMER_NOT_FOUND := ApiError(404, "CUSTOMER_NOT_FOUND", "Customer not found")
  const ORDER_NOT_FOUND := ApiError(404, "ORDER_NOT_FOUND", "Order not found")
  const KEY_CONFLICT := ApiError(409, "IDEMPOTENCY_KEY_CONFLICT",
    "This Idempotency-Key was already used with a different request payload")

  /** `storedFailure`: a body that is not an object with textual code and message falls back to 500. */
  function StoredFailure(status: Option<int>, body: Option<Json>): ApiError {
    if body.Some? && body.value.JObject?
       && "code" in body.value.fields && body.value.fields["code"].JString?
       && "message" in body.value.fields && body.value.fields["message"].JString?
    then ApiError(status.GetOr(500), body.value.fields["code"].s, body.value.fields["message"].s)
    else INTERNAL_FAILURE
  }

  function FailureBody(error: ApiError): Json {
    JObject(map["code" := JString(error.code), "message" := JString(error.message)])
  }

  /** Dates in a stored response: a lossless text codec. */
  function DateText(t: Time): string { Decimal(t) }

  function ParseDate(value: Option<Json>, fallback: Time): Time {
    if value.Some? && value.value.JString? && ReadDecimal(value.value.s) >= 0
       && DateText(ReadDecimal(value.value.s)) == value.value.s
    then ReadDecimal(value.value.s)
    else fallback
  }

  /** `createResponseBody`. */
  function CreateResponseBody(order: OrderView): Json {
    JObject(map[
      "id" := JString(order.id),
      "customerId" := JString(order.customerId),
      "status" := JString("CONFIRMED"),
      "items" := JArray(seq(|order.items|, i requires 0 <= i < |order.items| =>
        JObject(map[
          "partId" := JString(order.items[i].partId),
          "sku" := JString(order.items[i].sku),
          "name" := JString(order.items[i].name),
          "quantity" := JNumber(order.items[i].quantity)]))),
      "createdAt" := JString(DateText(order.createdAt)),
      "updatedAt" := JString(DateText(order.updatedAt)),
      "cancelledAt" := JNull])
  }

  function Field(body: Option<Json>, name: string): Option<Json> {
    if body.Some? && body.value.JObject? && name in body.value.fields then Some(body.value.fields[name]) else None
  }

  /** `restoreCreateResponse`: the current row, shown as it was when the create confirmed. */
  function RestoreCreateResponse(body: Option<Json>, current: OrderView): OrderView {
    current.(
      status := CONFIRMED,
      createdAt := ParseDate(Field(body, "createdAt"), current.createdAt),
      updatedAt := ParseDate(Field(body, "updatedAt"), current.createdAt),
      cancelledAt := None)
  }

  // ---------- requests, RPCs, handlers ----------

  /** A create request after normalization. */
  datatype Request = Request(customerId: string, items: seq<Item>)

  function HashOf(request: Request): string {
    HashRequest(request.customerId, request.items)
  }

  predicate ValidRequest(request: Request) {
    IsLowerUuid(request.customerId) && ValidItems(request.items) && Ascending(request.items)
  }

  datatype Message = ReserveMsg(orderId: OrderId, items: seq<Item>) | ReleaseMsg(orderId: OrderId)

  /** One RPC: its message, and Inventory's answer once it has been delivered. */
  datatype Rpc = Rpc(msg: Message, answer: Option<Answer>)

  function CallOf(msg: Message, now: Time): StockCall {
    match msg
    case ReserveMsg(o, items) => ReserveCall(o, items, now)
    case ReleaseMsg(o) => ReleaseCall(o, now)
  }

  datatype Job = Create(key: string, request: Request) | Cancel(orderId: OrderId)

  datatype Pc =
    // create
    | Claiming
    | WantKey
    | AwaitReserve(rpc: nat)
    | Persisting(entry: KeyEntry, order: Option<OrderView>, outcome: Outcome)
    | AwaitRelease(rpc: nat, error: ApiError)
    // create, after a failure that followed a successful reserve
    | NeedsCompensation
    | WantUndo
    // cancel
    | ReadingOrder
    | AwaitCancel(rpc: nat)
    | CancelGranted
    | Done(result: Outcome)

  datatype Handler = Handler(job: Job, pc: Pc)

  /** The request behind an order id, and the key that claimed it. */
  datatype Claim = Claim(key: string, request: Request)

  /**
   `locks` are the row locks on keys held across an RPC. `claims` and `originals`
   (orders as first confirmed) are history: no step reads them.
   */
  datatype State = State(
    customers: set<string>,
    keys: map<string, KeyEntry>,
    orders: map<OrderId, OrderView>,
    db: Db,
    rpcs: seq<Rpc>,
    handlers: seq<Handler>,
    locks: map<string, nat>,
    claims: map<OrderId, Claim>,
    originals: map<OrderId, OrderView>)

  /** What one handler does next, or what befalls it. */
  datatype Action =
    | ClaimKey(freshId: OrderId)
    | BeginTx
    | GetReserveAnswer(createdAt: Time, updatedAt: Time)
    | GetReleaseAnswer
    | RpcFails(status: int)
    | Commit(acked: bool)
    | AbortTx
    | MarkCompensating
    | BeginUndo
    | ReadOrder
    | SaveCancel(at: Time, updatedAt: Time, ack: bool)
    | Crash

  datatype Event =
    | AddCustomer(customerId: string)
    | StartCreate(key: string, customer: string, items: seq<Item>)
    | StartCancel(orderId: OrderId)
    | Deliver(rpc: nat, now: Time)
    | Act(h: nat, action: Action)

  // ---------- steps ----------

  predicate Holds(s: State, h: nat) {
    h < |s.handlers| && s.handlers[h].job.Create? && s.handlers[h].job.key in s.locks
      && s.locks[s.handlers[h].job.key] == h
  }

  /** The stored data of both services, and its history, are the same. */
  predicate SameStored(s: State, t: State) {
    && t.keys == s.keys && t.orders == s.orders && t.originals == s.originals && t.claims == s.claims
    && t.db == s.db && t.customers == s.customers
  }

  function WithPc(s: State, h: nat, pc: Pc): (t: State)
    requires h < |s.handlers|
    ensures SameStored(s, t) && t.handlers == s.handlers[h := s.handlers[h].(pc := pc)]
  {
    s.(handlers := s.handlers[h := s.handlers[h].(pc := pc)])
  }

  function Unlocked(s: State, h: nat): (t: State)
    ensures SameStored(s, t) && t.handlers == s.handlers && t.rpcs == s.rpcs
  {
    s.(locks := map k | k in s.locks && s.locks[k] != h :: s.locks[k])
  }

  function Finish(s: State, h: nat, outcome: Outcome): (t: State)
    requires h < |s.handlers|
    ensures SameStored(s, t) && t.handlers == s.handlers[h := s.handlers[h].(pc := Done(outcome))]
  {
    WithPc(Unlocked(s, h), h, Done(outcome))
  }

  /** Sends an RPC while holding the lock on the handler's key (a create), or without one (a cancel). */
  function Send(s: State, h: nat, msg: Message, pc: Pc): (t: State)
    requires h < |s.handlers|
    ensures SameStored(s, t) && t.handlers == s.handlers[h := s.handlers[h].(pc := pc)]
  {
    WithPc(s, h, pc).(rpcs := s.rpcs + [Rpc(msg, None)])
  }

  function LockedBy(s: State, h: nat, key: string): (t: State)
    ensures SameStored(s, t) && t.handlers == s.handlers && t.rpcs == s.rpcs
  {
    s.(locks := s.locks[key := h])
  }

  /** The answer to a create whose key is already decided. */
  function Replay(s: State, entry: KeyEntry): Outcome {
    if entry.state == Failed then Error(StoredFailure(entry.status, entry.body))
    else if entry.orderId in s.orders then Success(RestoreCreateResponse(entry.body, s.orders[entry.orderId]), true)
    else Error(INTERNAL_FAILURE)
  }

  function NextClaim(s: State, h: nat, freshId: OrderId): State
    requires h < |s.handlers| && s.handlers[h].job.Create?
  {
    var job := s.handlers[h].job;
    if job.key in s.keys then WithPc(s, h, WantKey)  // unique violation, ignored
    else if freshId in s.claims || !IsLowerUuid(freshId) then s  // generated UUIDs are new and lower case
    else
      WithPc(s, h, WantKey).(
        keys := s.keys[job.key := KeyEntry(HashOf(job.request), freshId, InProgress, None, None)],
        claims := s.claims[freshId := Claim(job.key, job.request)])
  }

  /** The row lock is granted, the row is read under it, and the handler acts on what it reads. */
  function NextBegin(s: State, h: nat): State
    requires h < |s.handlers| && s.handlers[h].job.Create?
  {
    var job := s.handlers[h].job;
    if job.key in s.locks || job.key !in s.keys then s
    else
      var entry := s.keys[job.key];
      if entry.requestHash != HashOf(job.request) then Finish(s, h, Error(KEY_CONFLICT))
      else
        match entry.state
        case Confirmed => Finish(s, h, Replay(s, entry))
        case Failed => Finish(s, h, Replay(s, entry))
        case Compensating =>
          LockedBy(Send(s, h, ReleaseMsg(entry.orderId),
            AwaitRelease(|s.rpcs|, StoredFailure(entry.status, entry.body))), h, job.key)
        case InProgress =>
          if job.request.customerId !in s.customers then
            LockedBy(WithPc(s, h, Persisting(FailedWith(entry, CUSTOMER_NOT_FOUND), None, Error(CUSTOMER_NOT_FOUND))),
              h, job.key)
          else
            LockedBy(Send(s, h, ReserveMsg(entry.orderId, job.request.items), AwaitReserve(|s.rpcs|)), h, job.key)
  }

  function FailedWith(entry: KeyEntry, error: ApiError): KeyEntry {
    entry.(state := Failed, status := Some(error.status), body := Some(FailureBody(error)))
  }

  function ReservedItems(result: StockResult): seq<Item> {
    seq(|result.items|, i requires 0 <= i < |result.items| => Item(result.items[i].partId, result.items[i].quantity))
  }

  /** The order items Sales stores: what Inventory reserved, with its sku and name at that moment. */
  function Snapshots(result: StockResult): seq<OrderItem> {
    seq(|result.items|, i requires 0 <= i < |result.items| =>
      OrderItem(ToLower(result.items[i].partId), result.items[i].sku, result.items[i].name, result.items[i].quantity))
  }

  function GrpcStatusOf(answer: Answer): int
    requires !answer.Granted?
  {
    if answer.Refused? then ToGrpcStatus(Domain(answer.error)) else ToGrpcStatus(Unexpected)
  }

  function NextReserveAnswer(s: State, h: nat, answer: Answer, createdAt: Time, updatedAt: Time): State
    requires h < |s.handlers| && s.handlers[h].job.Create? && s.handlers[h].job.key in s.keys
  {
    var job := s.handlers[h].job;
    var entry := s.keys[job.key];
    if answer.Granted? then
      if !Holds(s, h) || !ReservationMatches(job.request.items,
        ReservedItems(answer.result)) || entry.orderId in s.orders then
        WithPc(Unlocked(s, h), h, NeedsCompensation)
      else
        var order := OrderView(entry.orderId, job.request.customerId, CONFIRMED, Snapshots(answer.result), createdAt,
          updatedAt, None);
        WithPc(s, h, Persisting(
          entry.(state := Confirmed, status := Some(201), body := Some(CreateResponseBody(order))),
          Some(order), Success(order, false)))
    else
      var error := ToApiError(Some(GrpcStatusOf(answer)), ReserveOp);
      if !Holds(s, h) then Finish(s, h, Error(INTERNAL_FAILURE))
      else if error.status >= 500 then Finish(s, h, Error(error))
      else WithPc(s, h, Persisting(FailedWith(entry, error), None, Error(error)))
  }

  function NextReleaseAnswer(s: State, h: nat, answer: Answer): State
    requires h < |s.handlers|
  {
    var Handler(job, pc) := s.handlers[h];
    if pc.AwaitRelease? && job.Create? then
      if answer.Granted? && Holds(s, h) && job.key in s.keys then
        WithPc(s, h, Persisting(s.keys[job.key].(state := Failed), None, Error(pc.error)))
      else Finish(s, h, Error(INTERNAL_FAILURE))
    else if answer.Granted? then WithPc(s, h, CancelGranted)
    else Finish(s, h, Error(ToApiError(Some(GrpcStatusOf(answer)), ReleaseOp)))
  }

  /** After an exception in the transaction: compensation if a reservation had succeeded, a plain 500 otherwise. */
  function AfterException(order: Option<OrderView>): Pc {
    if order.Some? then NeedsCompensation else Done(Error(INTERNAL_FAILURE))
  }

  function NextCommit(s: State, h: nat, acked: bool): State
    requires h < |s.handlers| && s.handlers[h].pc.Persisting? && s.handlers[h].job.Create?
  {
    var Persisting(entry, order, outcome) := s.handlers[h].pc;
    if !Holds(s, h) then s
    else
      var written := s.(
        keys := s.keys[s.handlers[h].job.key := entry],
        orders := if order.Some? then s.orders[entry.orderId := order.value] else s.orders,
        originals := if order.Some? then s.originals[entry.orderId := order.value] else s.originals);
      WithPc(Unlocked(written, h), h, if acked then Done(outcome) else AfterException(order))
  }

  function NextMark(s: State, h: nat): State
    requires h < |s.handlers| && s.handlers[h].job.Create?
  {
    var key := s.handlers[h].job.key;
    if key in s.locks || key !in s.keys then s
    else
      var entry := s.keys[key];
      match entry.state
      case Confirmed => Finish(s, h, Replay(s, entry))
      case Failed => Finish(s, h, Replay(s, entry))
      case Compensating => WithPc(s, h, WantUndo)
      case InProgress =>
        WithPc(s, h, WantUndo).(keys := s.keys[key := FailedWith(entry, INTERNAL_FAILURE).(state := Compensating)])
  }

  function NextUndo(s: State, h: nat): State
    requires h < |s.handlers| && s.handlers[h].job.Create?
  {
    var key := s.handlers[h].job.key;
    if key in s.locks || key !in s.keys then s
    else
      var entry := s.keys[key];
      match entry.state
      case Confirmed => Finish(s, h, Replay(s, entry))
      case Failed => Finish(s, h, Replay(s, entry))
      case InProgress => Finish(s, h, Error(INTERNAL_FAILURE))  // "state changed unexpectedly"
      case Compensating =>
        LockedBy(Send(s, h, ReleaseMsg(entry.orderId),
          AwaitRelease(|s.rpcs|, StoredFailure(entry.status, entry.body))), h, key)
  }

  function NextRead(s: State, h: nat): State
    requires h < |s.handlers| && s.handlers[h].job.Cancel?
  {
    var o := s.handlers[h].job.orderId;
    if o !in s.orders then Finish(s, h, Error(ORDER_NOT_FOUND))
    else if s.orders[o].status == CANCELLED then Finish(s, h, Success(s.orders[o], false))
    else Send(s, h, ReleaseMsg(o), AwaitCancel(|s.rpcs|))
  }

  /** The order as a cancel leaves it; the two times come from two clocks. */
  function CancelledOrder(order: OrderView, at: Time, updatedAt: Time): OrderView {
    if order.status == CANCELLED then order
    else order.(status := CANCELLED, cancelledAt := Some(at), updatedAt := updatedAt)
  }

  function NextSave(s: State, h: nat, at: Time, updatedAt: Time, acked: bool): State
    requires h < |s.handlers| && s.handlers[h].job.Cancel?
  {
    var o := s.handlers[h].job.orderId;
    if o !in s.orders then Finish(s, h, Error(INTERNAL_FAILURE))
    else
      var cancelled := CancelledOrder(s.orders[o], at, updatedAt);
      Finish(s.(orders := s.orders[o := cancelled]), h, if acked then Success(cancelled, false)
        else Error(INTERNAL_FAILURE))
  }

  function NextFailure(s: State, h: nat, status: int): State
    requires h < |s.handlers|
  {
    match s.handlers[h].pc
    case AwaitReserve(_) => Finish(s, h,
      Error(if Holds(s, h) then ToApiError(Some(status), ReserveOp) else INTERNAL_FAILURE))
    case AwaitRelease(_, _) => Finish(s, h, Error(INTERNAL_FAILURE))
    case AwaitCancel(_) => Finish(s, h, Error(ToApiError(Some(status), ReleaseOp)))
    case _ => s
  }

  /** The transaction dies and its lock is gone; a handler waiting for Inventory finds out later. */
  function NextAbort(s: State, h: nat): State
    requires h < |s.handlers|
  {
    var pc := s.handlers[h].pc;
    WithPc(Unlocked(s, h), h, if pc.Persisting? then AfterException(pc.order) else pc)
  }

  predicate Answered(s: State, c: nat) {
    c < |s.rpcs| && s.rpcs[c].answer.Some?
  }

  /** When an action is possible. */
  predicate Enabled(s: State, h: nat, a: Action) {
    h < |s.handlers| &&
    var Handler(job, pc) := s.handlers[h];
    match a
    case ClaimKey(_) => job.Create? && pc == Claiming
    case BeginTx => job.Create? && pc == WantKey
    case GetReserveAnswer(_, _) => job.Create? && job.key in s.keys && pc.AwaitReserve? && Answered(s, pc.rpc)
    case GetReleaseAnswer => ((job.Create? && pc.AwaitRelease?) || (job.Cancel? && pc.AwaitCancel?))
      && Answered(s, pc.rpc)
    case RpcFails(status) => !DomainStatus(status)
    case Commit(_) => job.Create? && pc.Persisting?
    case AbortTx => Holds(s, h)
    case MarkCompensating => job.Create? && pc == NeedsCompensation
    case BeginUndo => job.Create? && pc == WantUndo
    case ReadOrder => job.Cancel? && pc == ReadingOrder
    case SaveCancel(_, _, _) => job.Cancel? && pc == CancelGranted
    case Crash => !pc.Done?
  }

  function NextAct(s: State, h: nat, a: Action): State
    requires Enabled(s, h, a)
  {
    match a
    case ClaimKey(o) => NextClaim(s, h, o)
    case BeginTx => NextBegin(s, h)
    case GetReserveAnswer(createdAt, updatedAt) =>
      NextReserveAnswer(s, h, s.rpcs[s.handlers[h].pc.rpc].answer.value, createdAt, updatedAt)
    case GetReleaseAnswer => NextReleaseAnswer(s, h, s.rpcs[s.handlers[h].pc.rpc].answer.value)
    case RpcFails(status) => NextFailure(s, h, status)
    case Commit(acked) => NextCommit(s, h, acked)
    case AbortTx => NextAbort(s, h)
    case MarkCompensating => NextMark(s, h)
    case BeginUndo => NextUndo(s, h)
    case ReadOrder => NextRead(s, h)
    case SaveCancel(at, updatedAt, acked) => NextSave(s, h, at, updatedAt, acked)
    case Crash => Finish(s, h, Error(INTERNAL_FAILURE))
  }

  function NextDeliver(s: State, c: nat, now: Time): State {
    if c < |s.rpcs| && s.rpcs[c].answer == None then
      var (db, answer) := Serve(s.db, CallOf(s.rpcs[c].msg, now));
      s.(db := db, rpcs := s.rpcs[c := s.rpcs[c].(answer := Some(answer))])
    else s
  }

  function Next(s: State, e: Event): State {
    match e
    case AddCustomer(c) => s.(customers := s.customers + {c})
    case StartCreate(key, c, items) =>
      if IsUuid(c) && ValidOrderItems(items)
      then s.(handlers := s.handlers + [Handler(Create(key, Request(ToLower(c), NormalizeItems(items))), Claiming)])
      else s
    case StartCancel(o) => s.(handlers := s.handlers + [Handler(Cancel(ToLower(o)), ReadingOrder)])
    case Deliver(c, now) => NextDeliver(s, c, now)
    case Act(h, a) => if Enabled(s, h, a) then NextAct(s, h, a) else s
  }

  function After(s: State, es: seq<Event>): State {
    if es == [] then s else Next(After(s, es[..|es| - 1]), es[|es| - 1])
  }

  /** Before any request: a catalogue with its initial stock, and nothing else. */
  predicate Initial(s: State) {
    && s.keys == map[] && s.orders == map[] && s.rpcs == [] && s.handlers == [] && s.locks == map[]
    && s.claims == map[] && s.originals == map[]
    && s.db.ledger == map[] && forall p :: p in s.db.parts ==> s.db.parts[p].stock >= 0
  }
}
