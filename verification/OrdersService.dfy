/**
 The orders service as the program writes it: a class whose methods run the transactions of
 `create`, `recoverFailedCreate` and `cancel` on the tables of Sales and call the stock service.
 The ghost `sys` is the state of the machine of module Saga; every method takes the machine's
 steps and keeps the two equal, so what is proved of the machine's runs is proved of this code.

 A transaction here runs from start to end, but methods of different calls may alternate.
 */
module OrdersServices {
  import opened Identifiers
  import opened Canonical
  import opened Errors
  import opened Sums
  import opened Stock
  import opened StockRuns
  import opened Saga
  import opened SagaInvariant
  import opened SagaTheorems
  import opened SagaConservation
  import opened Convergence
  import opened StockServices

  /**
   What becomes of an RPC: answered, or failed at Sales with a status of the transport, before or
   after Inventory served it.
   */
  datatype RpcFate = Answers | LostBefore(status: int) | LostAfter(status: int)

  /** What becomes of a commit: done and acknowledged, done without acknowledgement, or not done. */
  datatype CommitFate = Acked | AckLost | Aborted

  /** The clocks and faults that one transaction meets. */
  datatype Fate = Fate(rpc: RpcFate, commit: CommitFate, now: Time, createdAt: Time, updatedAt: Time)

  /** The faults that one create meets: its claim, its transaction, and the two transactions of its recovery. */
  datatype CreateFate = CreateFate(claim: CommitFate, tx: Fate, mark: CommitFate, undo: Fate)

  predicate ValidFate(fate: RpcFate) {
    !fate.Answers? ==> !DomainStatus(fate.status)
  }

  predicate Undisturbed(fate: Fate) {
    fate.rpc.Answers? && fate.commit.Acked?
  }

  /** A transaction returns an outcome or throws. */
  datatype TxResult = Returned(outcome: Outcome) | Thrown

  /** What the gateway gives its caller. */
  datatype GatewayResult = Reply(result: StockResult) | Raised(error: ApiError)

  /** `toInventoryApiError` on Inventory's own answer. */
  function ReplyTo(answer: Answer, operation: InventoryOperation): GatewayResult {
    if answer.Granted? then Reply(answer.result) else Raised(ToApiError(Some(GrpcStatusOf(answer)), operation))
  }

  function OutcomeOf(result: TxResult): Outcome {
    if result.Returned? then result.outcome else Error(INTERNAL_FAILURE)
  }

  /** What a transaction that wrote nothing ends in: its outcome, unless its commit fails. */
  function Read(outcome: Outcome, fate: CommitFate): TxResult {
    if fate.Acked? then Returned(outcome) else Thrown
  }

  const CAPITALS := "ABCDEFGHIJKLMNOPQRSTUVWXYZ"
  const SMALL_LETTERS := "abcdefghijklmnopqrstuvwxyz"
  const DIGITS := "0123456789"
  const KEY_CHARACTERS := CAPITALS + SMALL_LETTERS + DIGITS + "._:-"

  /** The check of an idempotency key: its length, and each character against the class of the pattern. */
  predicate ValidKey(key: Option<string>) {
    key.Some? && 8 <= |key.value| <= 128 && forall i :: 0 <= i < |key.value| ==> key.value[i] in KEY_CHARACTERS
  }

  predicate KeyCharacter(c: char) {
    'A' <= c <= 'Z' || 'a' <= c <= 'z' || '0' <= c <= '9' || c == '.' || c == '_' || c == ':' || c == '-'
  }

  /** The format of an idempotency key: 8 to 128 letters, digits, dots, underscores, colons and hyphens. */
  predicate KeyFormat(key: Option<string>) {
    key.Some? && 8 <= |key.value| <= 128 && forall i :: 0 <= i < |key.value| ==> KeyCharacter(key.value[i])
  }

  /** A run of consecutive characters holds exactly those between its ends. */
  lemma RunHas(run: string, c: char)
    requires run != [] && forall i :: 0 <= i < |run| ==> run[i] as int == run[0] as int + i
    ensures c in run <==> run[0] <= c <= run[|run| - 1]
  {
    if run[0] <= c <= run[|run| - 1] { assert c == run[c as int - run[0] as int]; }
  }

  lemma CharacterRuns(c: char)
    ensures c in CAPITALS <==> 'A' <= c <= 'Z'
    ensures c in SMALL_LETTERS <==> 'a' <= c <= 'z'
    ensures c in DIGITS <==> '0' <= c <= '9'
  {
    CapitalsAreARun();
    SmallLettersAreARun();
    DigitsAreARun();
    RunHas(CAPITALS, c);
    RunHas(SMALL_LETTERS, c);
    RunHas(DIGITS, c);
  }

  lemma CapitalsAreARun()
    ensures |CAPITALS| == 26 && CAPITALS[0] == 'A' && forall i :: 0 <= i < 26 ==> CAPITALS[i] as int == 'A' as int + i
  {
  }

  lemma SmallLettersAreARun()
    ensures |SMALL_LETTERS| == 26 && SMALL_LETTERS[0] == 'a'
    ensures forall i :: 0 <= i < 26 ==> SMALL_LETTERS[i] as int == 'a' as int + i
  {
  }

  lemma DigitsAreARun()
    ensures |DIGITS| == 10 && DIGITS[0] == '0' && forall i :: 0 <= i < 10 ==> DIGITS[i] as int == '0' as int + i
  {
  }

  /** The check admits exactly the format. */
  lemma ValidKeyIsFormat(key: Option<string>)
    ensures ValidKey(key) <==> KeyFormat(key)
  {
    if key.Some? {
      forall i | 0 <= i < |key.value| ensures key.value[i] in KEY_CHARACTERS <==> KeyCharacter(key.value[i]) {
        CharacterRuns(key.value[i]);
      }
    }
  }

  /** Every UUID is an admitted key. */
  lemma UuidIsKey(s: string)
    requires IsUuid(s)
    ensures ValidKey(Some(s))
  {
    ValidKeyIsFormat(Some(s));
    forall i | 0 <= i < |s| ensures KeyCharacter(s[i]) {}
  }

  // ---------- the machine's steps, where no other transaction is open ----------

  /** Handler h moved to pc; stored data, RPCs and nothing else but its own lock. */
  ghost predicate Moved(s: State, t: State, h: nat, pc: Pc, rpcs: seq<Rpc>, locks: map<string, nat>)
    requires h < |s.handlers|
  {
    SameStored(s, t) && t.handlers == s.handlers[h := Handler(s.handlers[h].job, pc)] && t.rpcs == rpcs
      && t.locks == locks
  }

  lemma FinishMoves(s: State, h: nat, outcome: Outcome)
    requires h < |s.handlers| && forall k :: k in s.locks ==> s.locks[k] == h
    ensures Moved(s, Finish(s, h, outcome), h, Done(outcome), s.rpcs, map[])
    ensures forall pc :: Moved(s, WithPc(Unlocked(s, h), h, pc), h, pc, s.rpcs, map[])
  {
    assert Unlocked(s, h).locks == map[];
  }

  /** What beginning a create's transaction leads to. */
  lemma BeginMoves(s: State, h: nat, key: string, request: Request)
    requires At(s, h, Create(key, request), WantKey) && key in s.keys && s.locks == map[]
    ensures var t := Next(s, Act(h, BeginTx)); var entry := s.keys[key];
      if entry.requestHash != HashOf(request) then Moved(s, t, h, Done(Error(KEY_CONFLICT)), s.rpcs, map[])
      else if Final(entry.state) then Moved(s, t, h, Done(Replay(s, entry)), s.rpcs, map[])
      else if entry.state == Compensating then
        Moved(s, t, h, AwaitRelease(|s.rpcs|, StoredFailure(entry.status, entry.body)),
              s.rpcs + [Rpc(ReleaseMsg(entry.orderId), None)], map[key := h])
      else if request.customerId !in s.customers then
        Moved(s, t, h, Persisting(FailedWith(entry, CUSTOMER_NOT_FOUND), None, Error(CUSTOMER_NOT_FOUND)), s.rpcs,
          map[key := h])
      else
        Moved(s, t, h, AwaitReserve(|s.rpcs|), s.rpcs + [Rpc(ReserveMsg(entry.orderId, request.items), None)],
          map[key := h])
  {
    hide HashOf, Replay, StoredFailure, FailedWith, Finish;
    var entry := s.keys[key];
    FinishMoves(s, h, Error(KEY_CONFLICT));
    FinishMoves(s, h, Replay(s, entry));
    assert Next(s, Act(h, BeginTx)) == NextBegin(s, h);
  }

  lemma UndoMoves(s: State, h: nat, key: string, request: Request)
    requires At(s, h, Create(key, request), WantUndo) && key in s.keys && s.locks == map[]
    ensures var t := Next(s, Act(h, BeginUndo)); var entry := s.keys[key];
      if Final(entry.state) then Moved(s, t, h, Done(Replay(s, entry)), s.rpcs, map[])
      else if entry.state == InProgress then Moved(s, t, h, Done(Error(INTERNAL_FAILURE)), s.rpcs, map[])
      else
        Moved(s, t, h, AwaitRelease(|s.rpcs|, StoredFailure(entry.status, entry.body)),
              s.rpcs + [Rpc(ReleaseMsg(entry.orderId), None)], map[key := h])
  {
    hide HashOf, Replay, StoredFailure, FailedWith, Finish;
    var entry := s.keys[key];
    FinishMoves(s, h, Error(INTERNAL_FAILURE));
    FinishMoves(s, h, Replay(s, entry));
    assert Next(s, Act(h, BeginUndo)) == NextUndo(s, h);
  }

  /** How a create goes on after a reserve, answered or failed. */
  lemma ReserveMoves(s: State, h: nat, c: nat, key: string, request: Request, createdAt: Time, updatedAt: Time)
    requires At(s, h, Create(key, request), AwaitReserve(c)) && key in s.keys && s.locks == map[key := h]
      && Answered(s, c)
    ensures var t := Next(s, Act(h, GetReserveAnswer(createdAt, updatedAt))); var entry := s.keys[key];
      var answer := s.rpcs[c].answer.value;
      if answer.Granted? then
        if !ReservationMatches(request.items, ReservedItems(answer.result)) || entry.orderId in s.orders
        then Moved(s, t, h, NeedsCompensation, s.rpcs, map[])
        else
          var order := OrderView(entry.orderId, request.customerId, CONFIRMED, Snapshots(answer.result), createdAt,
            updatedAt, None);
          Moved(s, t, h, Persisting(
            entry.(state := Confirmed, status := Some(201), body := Some(CreateResponseBody(order))),
            Some(order), Success(order, false)), s.rpcs, map[key := h])
      else
        var error := ToApiError(Some(GrpcStatusOf(answer)), ReserveOp);
        if error.status >= 500 then Moved(s, t, h, Done(Error(error)), s.rpcs, map[])
        else Moved(s, t, h, Persisting(FailedWith(entry, error), None, Error(error)), s.rpcs, map[key := h])
  {
    hide ToApiError, ReservationMatches, ReservedItems, Snapshots, CreateResponseBody, FailedWith, Finish, GrpcStatusOf;
    var answer := s.rpcs[c].answer.value;
    FinishMoves(s, h, Error(INTERNAL_FAILURE));
    if !answer.Granted? { FinishMoves(s, h, Error(ToApiError(Some(GrpcStatusOf(answer)), ReserveOp))); }
    assert Enabled(s, h, GetReserveAnswer(createdAt, updatedAt));
    assert Next(s, Act(h, GetReserveAnswer(createdAt, updatedAt))) ==
      NextReserveAnswer(s, h, answer, createdAt, updatedAt);
  }

  lemma ReleaseMoves(s: State, h: nat, c: nat, key: string, request: Request, error: ApiError)
    requires At(s, h, Create(key, request), AwaitRelease(c, error)) && key in s.keys && s.locks == map[key := h]
      && Answered(s, c)
    ensures var t := Next(s, Act(h, GetReleaseAnswer));
      if s.rpcs[c].answer.value.Granted?
      then Moved(s, t, h, Persisting(s.keys[key].(state := Failed), None, Error(error)), s.rpcs, map[key := h])
      else Moved(s, t, h, Done(Error(INTERNAL_FAILURE)), s.rpcs, map[])
  {
    hide ToApiError, Finish;
    FinishMoves(s, h, Error(INTERNAL_FAILURE));
    assert Next(s, Act(h, GetReleaseAnswer)) == NextReleaseAnswer(s, h, s.rpcs[c].answer.value);
  }

  lemma FailureMoves(s: State, h: nat, status: int)
    requires h < |s.handlers| && !DomainStatus(status) && forall k :: k in s.locks ==> s.locks[k] == h
    ensures var t := Next(s, Act(h, RpcFails(status)));
      match s.handlers[h].pc
      case AwaitReserve(_) => Holds(s, h) ==>
        Moved(s, t, h, Done(Error(ToApiError(Some(status), ReserveOp))), s.rpcs, map[])
      case AwaitRelease(_, _) => Moved(s, t, h, Done(Error(INTERNAL_FAILURE)), s.rpcs, map[])
      case AwaitCancel(_) => Moved(s, t, h, Done(Error(ToApiError(Some(status), ReleaseOp))), s.rpcs, map[])
      case _ => true
  {
    hide ToApiError, Finish;
    FinishMoves(s, h, Error(INTERNAL_FAILURE));
    FinishMoves(s, h, Error(ToApiError(Some(status), ReserveOp)));
    FinishMoves(s, h, Error(ToApiError(Some(status), ReleaseOp)));
  }

  lemma AbortMoves(s: State, h: nat, key: string, order: Option<OrderView>)
    requires h < |s.handlers| && s.handlers[h].job.Create? && s.handlers[h].job.key == key && s.locks == map[key := h]
    requires s.handlers[h].pc.Persisting? && s.handlers[h].pc.order == order
    ensures Moved(s, Next(s, Act(h, AbortTx)), h, AfterException(order), s.rpcs, map[])
  {
    hide AfterException, Finish;
    FinishMoves(s, h, Error(INTERNAL_FAILURE));
    assert Next(s, Act(h, AbortTx)) == NextAbort(s, h);
  }

  lemma CommitMoves(s: State, h: nat, key: string, acked: bool)
    requires h < |s.handlers| && s.handlers[h].job.Create? && s.handlers[h].job.key == key && s.locks == map[key := h]
    requires s.handlers[h].pc.Persisting?
    ensures var t := Next(s, Act(h, Commit(acked))); var Persisting(entry, order, outcome) := s.handlers[h].pc;
      && t == NextCommit(s, h, acked)
      && t.keys == s.keys[key := entry]
      && t.orders == (if order.Some? then s.orders[entry.orderId := order.value] else s.orders)
      && t.handlers == s.handlers[h := s.handlers[h].(pc := if acked then Done(outcome) else AfterException(order))]
      && t.locks == map[] && t.rpcs == s.rpcs && t.db == s.db && t.customers == s.customers && t.claims == s.claims
  {
    hide AfterException;
    FinishMoves(s, h, Error(INTERNAL_FAILURE));
    assert Next(s, Act(h, Commit(acked))) == NextCommit(s, h, acked);
  }

  lemma CommitHash(s: State, initial: map<PartId, int>, h: nat)
    requires h < |s.handlers| && s.handlers[h].job.Create? && s.handlers[h].pc.Persisting?
    requires Inv(s, initial)
    ensures var Create(key, request) := s.handlers[h].job; key in s.keys && s.keys[key].requestHash == HashOf(request)
  {
    hide HashOf, RpcOk, OrderOk, DbInv, KeysOk, LocksOk, PersistOk, ValidRequest;
    assert HandlerOk(s, h);
  }

  lemma CommitFacts(s: State, initial: map<PartId, int>, h: nat, key: string, acked: bool)
    requires h < |s.handlers| && s.handlers[h].job.Create? && s.handlers[h].job.key == key && s.locks == map[key := h]
    requires s.handlers[h].pc.Persisting?
    requires Inv(s, initial)
    ensures var t := Next(s, Act(h, Commit(acked))); var Persisting(entry, order, outcome) := s.handlers[h].pc;
      && t.keys == s.keys[key := entry]
      && t.orders == (if order.Some? then s.orders[entry.orderId := order.value] else s.orders)
      && t.handlers == s.handlers[h := s.handlers[h].(pc := if acked then Done(outcome) else AfterException(order))]
      && t.locks == map[] && t.rpcs == s.rpcs && t.db == s.db && t.customers == s.customers && t.claims == s.claims
      && key in s.keys && s.keys[key].requestHash == HashOf(s.handlers[h].job.request)
      && (acked ==> Settles(t, h, key, s.handlers[h].job.request))
  {
    hide Inv, Next, NextCommit, Settles, HashOf, AfterException;
    CommitMoves(s, h, key, acked);
    CommitHash(s, initial, h);
    CommitSettles(s, initial, h);
  }

  /** Other handlers are where they were. */
  ghost predicate OthersStay(s: State, t: State, h: nat) {
    |t.handlers| == |s.handlers| && forall j :: 0 <= j < |s.handlers| && j != h ==> t.handlers[j] == s.handlers[j]
  }

  /** One more handler; the others are where they were. */
  ghost predicate OneMore(s: State, t: State) {
    |t.handlers| == |s.handlers| + 1 && forall j :: 0 <= j < |s.handlers| ==> t.handlers[j] == s.handlers[j]
  }

  /** No key but one changes, and that one keeps its order and its request. */
  predicate OnlyKey(keys: map<string, KeyEntry>, later: map<string, KeyEntry>, key: string) {
    && later.Keys == keys.Keys
    && forall k :: k in keys ==> if k == key then Lives(keys[k], later[k]) else later[k] == keys[k]
  }

  /** No order but one is written, and that one only if there was none. */
  predicate OnlyOrder(orders: map<OrderId, OrderView>, later: map<OrderId, OrderView>, o: OrderId) {
    (forall x :: x in orders ==> x in later && later[x] == orders[x])
      && (forall x :: x in later ==> x in orders || x == o)
  }

  /** Where the handler of a create stands after its transaction. */
  ghost predicate AfterCreate(
    s: State, h: nat, key: string, request: Request, result: TxResult, reservationSucceeded: bool) {
    At(s, h, Create(key, request),
      if result == Thrown && reservationSucceeded then NeedsCompensation else Done(OutcomeOf(result)))
  }

  /** The handler of a create whose reserve failed: over, or about to record a definite rejection. */
  ghost predicate RefusedAt(
    s: State, h: nat, key: string, request: Request, entry: KeyEntry, error: ApiError, fate: CommitFate) {
    if error.status >= 500 then
      s.locks == map[] && At(s, h, Create(key, request), Done(OutcomeOf(Read(Error(error), fate))))
    else
      && s.locks == map[key := h]
      && At(s, h, Create(key, request), Persisting(FailedWith(entry, error), None, Error(error)))
  }

  /**
   The handler of a create whose reserve was granted: about to confirm, unless the reservation or
   the order is not as it should be.
   */
  ghost predicate ReservedAt(
    s: State, h: nat, key: string, request: Request, entry: KeyEntry, orderExists: bool, result: StockResult,
      fate: Fate)
  {
    if !ReservationMatches(request.items, ReservedItems(result)) || orderExists
    then s.locks == map[] && At(s, h, Create(key, request), NeedsCompensation)
    else
      && s.locks == map[key := h]
      && var order := OrderView(entry.orderId, request.customerId, CONFIRMED, Snapshots(result), fate.createdAt,
        fate.updatedAt, None);
         At(s, h, Create(key, request), Persisting(
           entry.(state := Confirmed, status := Some(201), body := Some(CreateResponseBody(order))),
           Some(order), Success(order, false)))
  }

  lemma MarkMoves(s: State, h: nat, key: string, request: Request)
    requires At(s, h, Create(key, request), NeedsCompensation) && key in s.keys && s.locks == map[]
    ensures var t := Next(s, Act(h, MarkCompensating)); var entry := s.keys[key];
      if Final(entry.state) then Moved(s, t, h, Done(Replay(s, entry)), s.rpcs, map[])
      else
        && t.handlers == s.handlers[h := Handler(Create(key, request), WantUndo)] && t.locks == map[]
        && t.rpcs == s.rpcs
        && t.orders == s.orders && t.db == s.db && t.customers == s.customers && t.claims == s.claims
        && t.keys == if entry.state == Compensating then s.keys
          else s.keys[key := FailedWith(entry, INTERNAL_FAILURE).(state := Compensating)]
  {
    hide Replay, FailedWith, Finish;
    FinishMoves(s, h, Replay(s, s.keys[key]));
    assert Next(s, Act(h, MarkCompensating)) == NextMark(s, h);
  }

  lemma CrashMoves(s: State, h: nat)
    requires h < |s.handlers| && !s.handlers[h].pc.Done? && forall k :: k in s.locks ==> s.locks[k] == h
    ensures Moved(s, Next(s, Act(h, Crash)), h, Done(Error(INTERNAL_FAILURE)), s.rpcs, map[])
  {
    hide Finish;
    FinishMoves(s, h, Error(INTERNAL_FAILURE));
  }

  lemma ClaimMoves(s: State, h: nat, key: string, request: Request, freshId: OrderId)
    requires At(s, h, Create(key, request), Claiming) && freshId !in s.claims && IsLowerUuid(freshId)
    ensures var t := Next(s, Act(h, ClaimKey(freshId)));
      && t.handlers == s.handlers[h := Handler(Create(key, request), WantKey)] && t.locks == s.locks && t.rpcs == s.rpcs
      && t.orders == s.orders && t.db == s.db && t.customers == s.customers
      && t.keys == if key in s.keys then s.keys
        else s.keys[key := KeyEntry(HashOf(request), freshId, InProgress, None, None)]
  {
    hide HashOf;
    assert Next(s, Act(h, ClaimKey(freshId))) == NextClaim(s, h, freshId);
  }

  lemma StartMoves(s: State, key: string, customerId: string, items: seq<Item>)
    requires IsUuid(customerId) && ValidOrderItems(items)
    ensures Next(s, StartCreate(key, customerId, items)) ==
      s.(handlers := s.handlers + [Handler(Create(key, Request(ToLower(customerId), NormalizeItems(items))), Claiming)])
  {
    hide IsUuid, ValidOrderItems, NormalizeItems, ToLower;
  }

  lemma ConflictSettles(s: State, t: State, h: nat, key: string, request: Request)
    requires h < |s.handlers| && key in s.keys && s.keys[key].requestHash != HashOf(request)
    requires Moved(s, t, h, Done(Error(KEY_CONFLICT)), s.rpcs, map[])
    ensures Settles(t, h, key, request)
  {
    hide HashOf;
  }

  lemma ReplayIs(s: State, entry: KeyEntry)
    ensures Replay(s, entry) ==
      if entry.state == Failed then Error(StoredFailure(entry.status, entry.body))
      else if entry.orderId in s.orders then Success(RestoreCreateResponse(entry.body, s.orders[entry.orderId]), true)
      else Error(INTERNAL_FAILURE)
  {
    hide StoredFailure, RestoreCreateResponse;
  }

  /** A reply is an error below 500 exactly when the answer is a definite rejection. */
  lemma ReplyDecides(answer: Answer)
    ensures answer.Granted? <==> ReplyTo(answer, ReserveOp).Reply?
    ensures DefiniteRejection(answer) <==>
      ReplyTo(answer, ReserveOp).Raised? && ReplyTo(answer, ReserveOp).error.status < 500
  {
    hide ToApiError, GrpcStatusOf;
  }

  lemma ReleaseIsNeverLate(s: State, c: nat, now: Time)
    requires c < |s.rpcs| && s.rpcs[c].msg.ReleaseMsg?
    ensures !LateReserve(s, Deliver(c, now))
  {
  }

  lemma ConfirmedHasOrder(s: State, initial: map<PartId, int>, k: string)
    requires k in s.keys
    requires Inv(s, initial)
    ensures s.keys[k].state == Confirmed ==> s.keys[k].orderId in s.orders
  {
    hide Inv;
    GuardsNeverFire(s, initial, 0, k);
  }

  lemma LateSnoc(s: State, es: seq<Event>, e: Event)
    ensures NoLateReserve(s, es) && !LateReserve(After(s, es), e) ==> NoLateReserve(s, es + [e])
  {
    hide Next, LateReserve;
    if NoLateReserve(s, es) && !LateReserve(After(s, es), e) {
      forall i | 0 <= i < |es + [e]| ensures !LateReserve(After(s, (es + [e])[..i]), (es + [e])[i]) {
        assert (es + [e])[..i] == if i == |es| then es else es[..i];
      }
    }
  }

  /** Handler h holds the lock of an undecided key, and what it does next is under way. */
  ghost predicate Begun(s: State, h: nat, key: string, request: Request, entry: KeyEntry) {
    && s.locks == map[key := h]
    && if entry.state == InProgress && request.customerId !in s.customers then
         At(s, h, Create(key, request), Persisting(FailedWith(entry, CUSTOMER_NOT_FOUND), None,
           Error(CUSTOMER_NOT_FOUND)))
       else
         && |s.rpcs| > 0
         && var c := |s.rpcs| - 1;
            if entry.state == Compensating then
              s.rpcs[c] == Rpc(ReleaseMsg(entry.orderId), None)
              && At(s, h, Create(key, request), AwaitRelease(c, StoredFailure(entry.status, entry.body)))
            else
              s.rpcs[c] == Rpc(ReserveMsg(entry.orderId, request.items), None)
                && At(s, h, Create(key, request), AwaitReserve(c))
  }

  /** A create that only has to be answered: the key is decided, or belongs to another payload. */
  predicate Answerable(entry: KeyEntry, requestHash: string) {
    entry.requestHash != requestHash || Final(entry.state)
  }

  /** A create that has to reserve. */
  predicate Undecided(entry: KeyEntry, requestHash: string) {
    entry.requestHash == requestHash && entry.state == InProgress
  }

  /**
   An undisturbed create of an IN_PROGRESS key: Inventory reserves for its order id, and the answer
   is the order, or why there is none.
   */
  predicate Decided(
    customers: set<string>, db: Db, after: Db, o: OrderId, request: Request, fate: Fate, outcome: Outcome) {
    if request.customerId !in customers then
      after == db && outcome.Error? && Is(outcome.error, 404, "CUSTOMER_NOT_FOUND", "Customer not found")
    else
      && after == Stock.Reserve(db, o, request.items, fate.now).0
      && match ReplyTo(Stock.Reserve(db, o, request.items, fate.now).1, ReserveOp)
         case Raised(error) => outcome == Error(error)
         case Reply(result) =>
           outcome == Success(
             OrderView(o, request.customerId, CONFIRMED, Snapshots(result), fate.createdAt, fate.updatedAt, None),
               false)
  }

  lemma MarkIsOnlyKey(keys: map<string, KeyEntry>, key: string)
    requires key in keys && !Final(keys[key].state)
    ensures OnlyKey(keys, keys, key)
    ensures keys[key].state == InProgress ==>
      OnlyKey(keys, keys[key := FailedWith(keys[key], INTERNAL_FAILURE).(state := Compensating)], key)
  {
    hide FailedWith;
    FailedWithIsFailed(keys[key], INTERNAL_FAILURE);
  }

  lemma NothingWritten(keys: map<string, KeyEntry>, orders: map<OrderId, OrderView>, key: string, o: OrderId)
    ensures OnlyKey(keys, keys, key) && OnlyOrder(orders, orders, o)
  {
  }

  lemma FailedWritten(keys: map<string, KeyEntry>, key: string)
    requires key in keys
    ensures OnlyKey(keys, keys, key)
    ensures keys[key].state == Compensating ==> OnlyKey(keys, keys[key := keys[key].(state := Failed)], key)
  {
  }

  /** Confirming an IN_PROGRESS key moves it along its life line and writes one new order. */
  lemma ConfirmedWritten(
    keys: map<string, KeyEntry>, orders: map<OrderId, OrderView>, key: string, later: KeyEntry, order: OrderView)
    requires key in keys && keys[key].state == InProgress && later.state == Confirmed && keys[key].orderId !in orders
    requires later.orderId == keys[key].orderId && later.requestHash == keys[key].requestHash
    ensures OnlyKey(keys, keys[key := later], key) && OnlyOrder(orders, orders[later.orderId := order], later.orderId)
  {
  }

  lemma SameOrderId(keys: map<string, KeyEntry>, later: map<string, KeyEntry>, key: string)
    requires OnlyKey(keys, later, key) && key in keys
    ensures key in later && later[key].orderId == keys[key].orderId
    ensures keys[key].state != InProgress ==> later[key].state != InProgress
  {
  }

  lemma OnlyKeyTwice(a: map<string, KeyEntry>, b: map<string, KeyEntry>, c: map<string, KeyEntry>, key: string)
    requires OnlyKey(a, b, key) && OnlyKey(b, c, key)
    ensures OnlyKey(a, c, key)
  {
  }

  /** The keys once a create has claimed its own. */
  function Claimed(
    keys: map<string, KeyEntry>, key: string, request: Request, freshId: OrderId): map<string, KeyEntry> {
    if key in keys then keys else keys[key := KeyEntry(HashOf(request), freshId, InProgress, None, None)]
  }

  /** What reading its order leads a cancel to. */
  lemma ReadMoves(s: State, h: nat, o: OrderId)
    requires At(s, h, Cancel(o), ReadingOrder) && s.locks == map[]
    ensures var t := Next(s, Act(h, ReadOrder));
      if o !in s.orders then Moved(s, t, h, Done(Error(ORDER_NOT_FOUND)), s.rpcs, map[])
      else if s.orders[o].status == CANCELLED then Moved(s, t, h, Done(Success(s.orders[o], false)), s.rpcs, map[])
      else Moved(s, t, h, AwaitCancel(|s.rpcs|), s.rpcs + [Rpc(ReleaseMsg(o), None)], map[])
  {
    hide Finish;
    FinishMoves(s, h, Error(ORDER_NOT_FOUND));
    if o in s.orders { FinishMoves(s, h, Success(s.orders[o], false)); }
    assert Next(s, Act(h, ReadOrder)) == NextRead(s, h);
  }

  lemma CancelAnswerMoves(s: State, h: nat, c: nat, o: OrderId)
    requires At(s, h, Cancel(o), AwaitCancel(c)) && s.locks == map[] && Answered(s, c)
      && s.rpcs[c].answer.value.Granted?
    ensures Moved(s, Next(s, Act(h, GetReleaseAnswer)), h, CancelGranted, s.rpcs, map[])
  {
    hide ToApiError, Finish;
    assert Next(s, Act(h, GetReleaseAnswer)) == NextReleaseAnswer(s, h, s.rpcs[c].answer.value);
  }

  lemma SaveMoves(s: State, h: nat, o: OrderId, at: Time, updatedAt: Time, acked: bool)
    requires At(s, h, Cancel(o), CancelGranted) && s.locks == map[] && o in s.orders
    ensures var t := Next(s, Act(h, SaveCancel(at, updatedAt, acked)));
      var cancelled := CancelledOrder(s.orders[o], at, updatedAt);
      && t.orders == s.orders[o := cancelled] && t.keys == s.keys && t.db == s.db && t.customers == s.customers
      && t.locks == map[]
      && t.handlers == s.handlers[h := Handler(Cancel(o),
        Done(if acked then Success(cancelled, false) else Error(INTERNAL_FAILURE)))]
  {
    hide Finish;
    var cancelled := CancelledOrder(s.orders[o], at, updatedAt);
    var saved := s.(orders := s.orders[o := cancelled]);
    FinishMoves(saved, h, if acked then Success(cancelled, false) else Error(INTERNAL_FAILURE));
    assert Next(s, Act(h, SaveCancel(at, updatedAt, acked))) == NextSave(s, h, at, updatedAt, acked);
  }

  /** A cancel of a CONFIRMED order: the order stays or is cancelled, and it is when the answer says so. */
  predicate Cancels(
    orders: map<OrderId, OrderView>, later: map<OrderId, OrderView>, id: OrderId, at: Time, fate: Fate,
      outcome: Outcome)
    requires id in orders
  {
    var cancelled := orders[id].(status := CANCELLED, cancelledAt := Some(at), updatedAt := fate.updatedAt);
    && (later == orders || later == orders[id := cancelled])
    && (outcome.Success? ==> outcome == Success(cancelled, false) && later == orders[id := cancelled])
    && (if !fate.rpc.Answers? then outcome == Error(ToApiError(Some(fate.rpc.status), ReleaseOp))
        else if fate.commit.Acked? then outcome.Success?
        else outcome.Error? && IsInternal(outcome.error))
  }

  /** A cancel that was granted its release works on an order whose row is released. */
  lemma GrantedIsReleased(s: State, initial: map<PartId, int>, h: nat)
    requires h < |s.handlers| && s.handlers[h].job.Cancel? && s.handlers[h].pc == CancelGranted
    requires Inv(s, initial)
    ensures s.handlers[h].job.orderId in s.orders && IsReleased(s.db.ledger, s.handlers[h].job.orderId)
  {
    hide RpcOk, OrderOk, DbInv, KeysOk, LocksOk;
    assert HandlerOk(s, h);
  }

  lemma StartCancelMoves(s: State, orderId: OrderId)
    ensures Next(s, StartCancel(orderId)) ==
      s.(handlers := s.handlers + [Handler(Cancel(ToLower(orderId)), ReadingOrder)])
  {
    hide ToLower;
  }

  /** Inventory after one release, unless the RPC is lost before it. */
  function DbAfterRelease(db: Db, o: OrderId, fate: RpcFate, now: Time): Db {
    if fate.LostBefore? then db else Stock.Release(db, o, now).0
  }

  function DbAfterReserve(db: Db, o: OrderId, request: Request, fate: RpcFate, now: Time): Db {
    if fate.LostBefore? then db else Stock.Reserve(db, o, request.items, now).0
  }

  /** Inventory after a create's transaction: one release, one reserve, or neither. */
  function DbAfterTx(
    customers: set<string>, db: Db, entry: KeyEntry, requestHash: string, request: Request, fate: Fate): Db {
    if Answerable(entry, requestHash) then db
    else if entry.state == Compensating then DbAfterRelease(db, entry.orderId, fate.rpc, fate.now)
    else if request.customerId !in customers then db
    else DbAfterReserve(db, entry.orderId, request, fate.rpc, fate.now)
  }

  /** The transaction was granted its reserve and then failed, so that the create goes on to recover. */
  predicate Recovers(
    customers: set<string>, db: Db, entry: KeyEntry, requestHash: string, request: Request, fate: Fate) {
    && Undecided(entry, requestHash) && request.customerId in customers && fate.rpc.Answers? && !fate.commit.Acked?
    && Stock.Reserve(db, entry.orderId, request.items, fate.now).1.Granted?
  }

  /**
   Inventory after a whole create: the stock it reserved goes back exactly if its commit was not
   done and its recovery gets through.
   */
  function DbAfterCreate(
    customers: set<string>, db: Db, entry: KeyEntry, requestHash: string, request: Request, fate: CreateFate): Db {
    var after := DbAfterTx(customers, db, entry, requestHash, request, fate.tx);
    if Recovers(customers, db, entry, requestHash, request, fate.tx) && fate.tx.commit.Aborted? && fate.mark.Acked?
    then DbAfterRelease(after, entry.orderId, fate.undo.rpc, fate.undo.now)
    else after
  }

  /** What a create that only compensates, or whose transaction fails without having reserved, is answered. */
  predicate FaultOutcome(
    customers: set<string>, entry: KeyEntry, requestHash: string, request: Request, fate: Fate, outcome: Outcome) {
    && (entry.requestHash == requestHash && entry.state == Compensating ==>
          if Undisturbed(fate) then outcome == Error(StoredFailure(entry.status, entry.body))
          else outcome.Error? && IsInternal(outcome.error))
    && (Undecided(entry, requestHash) && fate.commit.Aborted? ==> outcome.Error? && IsInternal(outcome.error))
    && (Undecided(entry, requestHash) && request.customerId in customers && !fate.rpc.Answers? && fate.commit.Acked? ==>
          outcome == Error(ToApiError(Some(fate.rpc.status), ReserveOp)))
  }

  /** A key that has become FAILED holds no stock. */
  predicate FailsEmpty(
    keys: map<string, KeyEntry>, later: map<string, KeyEntry>, key: string, ledger: map<OrderId, Operation>)
    requires key in keys && key in later
  {
    later[key].state == Failed && keys[key].state != Failed ==> !IsReserved(ledger, later[key].orderId)
  }

  /** A key that has become FAILED has given its stock back. */
  predicate FailsReleased(
    keys: map<string, KeyEntry>, later: map<string, KeyEntry>, key: string, ledger: map<OrderId, Operation>)
    requires key in keys && key in later
  {
    later[key].state == Failed && keys[key].state != Failed ==> IsReleased(ledger, later[key].orderId)
  }

  /** A new order lists what was asked for, each part by the sku and name it had. */
  predicate ListedAs(order: OrderView, parts: map<PartId, Part>, items: seq<Item>) {
    && |order.items| == |items|
    && forall i :: 0 <= i < |items| ==>
         && items[i].partId in parts
         && order.items[i].partId == items[i].partId && order.items[i].quantity == items[i].quantity
         && order.items[i].sku == parts[items[i].partId].sku && order.items[i].name == parts[items[i].partId].name
  }

  lemma DecidedIsListed(
    customers: set<string>, db: Db, after: Db, o: OrderId, request: Request, fate: Fate, outcome: Outcome)
    requires Decided(customers, db, after, o, request, fate, outcome) && o !in db.ledger && ValidItems(request.items)
    ensures outcome.Success? ==>
      && ListedAs(outcome.order, db.parts, request.items)
      && outcome.order.id == o && outcome.order.customerId == request.customerId && outcome.order.status == CONFIRMED
      && outcome.order.createdAt == fate.createdAt && outcome.order.updatedAt == fate.updatedAt
      && outcome.order.cancelledAt == None
  {
    hide Stock.Reserve, ToLower, IsUuid, ToApiError;
    RejectionTellsWhy(db, o, request.items, fate.now);
    if outcome.Success? {
      GrantIsRecorded(db, o, request.items, fate.now);
      forall i | 0 <= i < |request.items| ensures ToLower(request.items[i].partId) == request.items[i].partId {
        assert ValidItem(request.items[i]);
      }
    }
  }

  lemma ReplyGrants(answer: Answer)
    ensures answer.Granted? <==> ReplyTo(answer, ReserveOp).Reply?
  {
    hide ToApiError, GrpcStatusOf;
  }

  /** An order is found by its id in either case, and by nothing else. */
  lemma FoundInEitherCase(s: State, initial: map<PartId, int>, orderId: string)
    requires Inv(s, initial)
    ensures forall o :: o in s.orders && SameText(orderId, o) ==> ToLower(orderId) == o
    ensures SameText(orderId, ToLower(orderId))
  {
    hide Inv, ToLower, SameText;
    LowerIsCanonical(orderId);
    forall o | o in s.orders && SameText(orderId, o) ensures ToLower(orderId) == o {
      SameLowerIffSameText(orderId, o);
      OrderIdsAreLower(s, initial, o);
    }
  }

  lemma GrantedRelease(db: Db, o: OrderId, now: Time)
    ensures Stock.Release(db, o, now).1.Granted? ==> IsReleased(Stock.Release(db, o, now).0.ledger, o)
  {
  }

  lemma RejectedIsEmpty(db: Db, o: OrderId, items: seq<Item>, now: Time)
    ensures var (after, answer) := Stock.Reserve(db, o, items, now);
      DefiniteRejection(answer) ==> !IsReserved(after.ledger, o)
  {
    hide Stock.Reserve, DefiniteRejection;
    DefiniteRejectionIsSound(db, o, items, now);
  }

  /** An order whose customer does not exist holds nothing. */
  lemma UnknownIsEmpty(s: State, initial: map<PartId, int>, h: nat)
    requires h < |s.handlers| && s.handlers[h].job.Create? && s.handlers[h].pc.Persisting?
    requires s.handlers[h].job.request.customerId !in s.customers && s.handlers[h].job.key in s.keys
    requires Inv(s, initial)
    ensures s.keys[s.handlers[h].job.key].orderId !in s.db.ledger
  {
    hide Inv;
    CommitHash(s, initial, h);
    KeyFacts(s, initial, h);
    NoCustomerNoRow(s, s.keys[s.handlers[h].job.key].orderId);
  }

  class OrdersService {
    const inventory: StockService
    var customers: set<string>
    var keys: map<string, KeyEntry>
    var orders: map<OrderId, OrderView>

    ghost var start: State
    ghost var history: seq<Event>
    ghost var sys: State

    /** The tables are those of the machine after `history`. */
    ghost predicate Tied()
      reads this, inventory
    {
      && Initial(start) && sys == After(start, history)
      && customers == sys.customers && keys == sys.keys && orders == sys.orders && inventory.Contents() == sys.db
    }

    /** Between transactions. */
    ghost predicate Valid()
      reads this, inventory
    {
      Tied() && sys.locks == map[]
    }

    /** The stock of each part before any order. */
    ghost function InitialStock(): map<PartId, int>
      reads this
    {
      StockOf(start.db.parts)
    }

    constructor (inventory: StockService, customers: set<string>)
      requires inventory.ledger == map[] && forall p :: p in inventory.parts ==> inventory.parts[p].stock >= 0
      ensures Valid() && this.inventory == inventory && this.customers == customers && keys == map[] && orders == map[]
      ensures start.db.parts == inventory.parts && history == []
    {
      this.inventory := inventory;
      this.customers := customers;
      keys, orders := map[], map[];
      start := State(customers, map[], map[], Db(inventory.parts, inventory.ledger), [], [], map[], map[], map[]);
      history := [];
      sys := State(customers, map[], map[], Db(inventory.parts, inventory.ledger), [], [], map[], map[], map[]);
    }

    /** So far, every reserve took effect while its caller waited, or before its order was rejected. */
    ghost predicate NoLate()
      reads this`start, this`history
    {
      NoLateReserve(start, history)
    }

    /** One step of the machine. */
    ghost method Do(e: Event)
      requires Initial(start) && sys == After(start, history)
      modifies this`history, this`sys
      ensures sys == After(start, history) && history == old(history) + [e] && sys == Next(old(sys), e)
      ensures old(NoLate()) && (!e.Deliver? || !LateReserve(old(sys), e)) ==> NoLate()
    {
      hide Next, Initial;
      AfterSnoc(start, history, e);
      LateSnoc(start, history, e);
      history := history + [e];
      sys := Next(sys, e);
    }

    lemma Reached()
      requires Tied()
      ensures Inv(sys, InitialStock())
    {
      hide Inv, Next;
      InitialOk(start);
      InvariantAlways(start, InitialStock(), history);
    }

    method AddCustomer(customerId: string)
      requires Valid()
      modifies this`customers, this`history, this`sys
      ensures Valid() && customers == old(customers) + {customerId} && old(history) <= history
        && (old(NoLate()) ==> NoLate())
    {
      hide Initial, NoLateReserve, LateReserve;
      customers := customers + {customerId};
      Do(Event.AddCustomer(customerId));
    }

    /** What the orders table sold of each part is what is missing from its stock. */
    ghost predicate Balanced()
      reads this, inventory
    {
      forall p :: p in InitialStock() ==>
        p in inventory.parts && InitialStock()[p] - inventory.parts[p].stock == Sum(orders.Keys, SoldBy(sys, p))
    }

    /**
     What the shop can count on between requests, once every create and cancel is settled: the books
     balance if and only if none of the two losing events happened, so in particular without a late reserve.
     */
    lemma Conservation()
      requires Valid() && Settled(sys)
      ensures Balanced() <==> forall o :: !LosesIn(start, history, o)
      ensures NoLate() ==> Balanced()
    {
      hide Inv, Next, Initial, NoLateReserve, Settled, SoldBy, LosesIn;
      ConservationIsExact(start, history);
      assert Conserved(sys, InitialStock()) <==> Balanced();
      if NoLate() {
        forall p | p in InitialStock()
          ensures p in sys.db.parts && InitialStock()[p] - sys.db.parts[p].stock == Sum(orders.Keys, SoldBy(sys, p))
        {
          GlobalConservation(start, history, p);
        }
      }
    }

    // ---------- the gateway, the commit ----------

    /** One call of the gateway is one RPC. */
    method Call(ghost c: nat, msg: Message, fate: RpcFate, now: Time) returns (result: GatewayResult)
      requires Tied() && c < |sys.rpcs| && sys.rpcs[c] == Rpc(msg, None) && ValidFate(fate)
      modifies inventory, this`history, this`sys
      ensures Tied() && old(history) <= history
        && (old(NoLate()) && !LateReserve(old(sys), Deliver(c, now)) ==> NoLate())
      ensures sys == if fate.LostBefore? then old(sys) else NextDeliver(old(sys), c, now)
      ensures var operation := if msg.ReserveMsg? then ReserveOp else ReleaseOp;
        if !fate.Answers? then result == Raised(ToApiError(Some(fate.status), operation))
        else Answered(sys, c) && result == ReplyTo(sys.rpcs[c].answer.value, operation)
    {
      hide Inv, Serve, ToApiError, GrpcStatusOf, Initial, NoLateReserve, LateReserve;
      var operation := if msg.ReserveMsg? then ReserveOp else ReleaseOp;
      if !fate.LostBefore? {
        Reached();
        CallIsServed(c, now);
        var answer;
        match msg {
          case ReserveMsg(o, items) => answer := inventory.Reserve(o, items, now);
          case ReleaseMsg(o) => answer := inventory.Release(o, now);
        }
        Do(Deliver(c, now));
        if fate.Answers? {
          return ReplyTo(answer, operation);
        }
      }
      return Raised(ToApiError(Some(fate.status), operation));
    }

    lemma CallIsServed(c: nat, now: Time)
      requires c < |sys.rpcs| && inventory.Contents() == sys.db
      requires Inv(sys, InitialStock())
      ensures match sys.rpcs[c].msg
        case ReserveMsg(o, items) => ValidItems(items)
          && Serve(sys.db, CallOf(sys.rpcs[c].msg, now)) == Stock.Reserve(inventory.Contents(), o, items, now)
        case ReleaseMsg(o) =>
          && (o in inventory.ledger ==> ValidItems(Items(inventory.ledger[o])))
          && Serve(sys.db, CallOf(sys.rpcs[c].msg, now)) == Stock.Release(inventory.Contents(), o, now)
    {
      hide Inv, Stock.Reserve, Stock.Release, ValidItems;
      DeliveredCallIsValid(sys, InitialStock(), c, now);
      InvDb(sys, InitialStock());
      if sys.rpcs[c].msg.ReleaseMsg? && sys.rpcs[c].msg.orderId in sys.db.ledger {
        assert OperationOk(sys.db.ledger[sys.rpcs[c].msg.orderId], sys.db.parts.Keys);
      }
    }

    /** A reserve or release that Sales gave up on reaches Inventory after all. */
    method DeliverLate(ghost c: nat, msg: Message, now: Time)
      requires Valid() && c < |sys.rpcs| && sys.rpcs[c] == Rpc(msg, None)
      modifies inventory, this`history, this`sys
      ensures Valid() && sys == NextDeliver(old(sys), c, now) && old(history) <= history
      ensures old(NoLate()) && !LateReserve(old(sys), Deliver(c, now)) ==> NoLate()
      ensures inventory.Contents() == Serve(old(inventory.Contents()), CallOf(msg, now)).0
    {
      hide Serve, NoLateReserve, LateReserve;
      var _ := Call(c, msg, LostAfter(UNAVAILABLE), now);
    }

    /** The transaction dies before its commit. */
    ghost method Abort(h: nat, key: string, order: Option<OrderView>)
      requires Tied() && h < |sys.handlers| && sys.handlers[h].job.Create? && sys.handlers[h].job.key == key
      requires sys.handlers[h].pc.Persisting? && sys.handlers[h].pc.order == order && sys.locks == map[key := h]
      modifies this`history, this`sys
      ensures Valid() && old(history) <= history && (old(NoLate()) ==> NoLate())
      ensures sys.handlers == old(sys.handlers)[h := old(sys).handlers[h].(pc := AfterException(order))]
    {
      hide Initial, Next, AfterException, NoLateReserve, LateReserve;
      AbortMoves(sys, h, key, order);
      Do(Act(h, AbortTx));
    }

    /** The writes of a create's or recovery's transaction become visible together, or not at all. */
    method Persist(
      ghost h: nat, key: string, entry: KeyEntry, order: Option<OrderView>, outcome: Outcome, fate: CommitFate)
      returns (result: TxResult)
      requires Tied() && h < |sys.handlers| && sys.handlers[h].job.Create? && sys.handlers[h].job.key == key
      requires sys.handlers[h].pc == Persisting(entry, order, outcome) && sys.locks == map[key := h] && key in keys
      modifies this`keys, this`orders, this`history, this`sys
      ensures Valid() && old(history) <= history && (old(NoLate()) ==> NoLate())
      ensures result == if fate.Acked? then Returned(outcome) else Thrown
      ensures keys == if fate.Aborted? then old(keys) else old(keys)[key := entry]
      ensures orders == if fate.Aborted? || order == None then old(orders)
        else old(orders)[entry.orderId := order.value]
      ensures sys.handlers == old(sys.handlers)[h :=
        old(sys).handlers[h].(pc := if fate.Acked? then Done(outcome) else AfterException(order))]
      ensures fate.Acked? ==>
        Settles(sys, h, key, sys.handlers[h].job.request)
        && old(keys)[key].requestHash == HashOf(sys.handlers[h].job.request)
    {
      hide Initial, Inv, Next, Settles, HashOf, AfterException, NoLateReserve, LateReserve;
      if fate.Aborted? {
        Abort(h, key, order);
        return Thrown;
      }
      Reached();
      CommitFacts(sys, InitialStock(), h, key, fate.Acked?);
      keys := keys[key := entry];
      if order.Some? { orders := orders[entry.orderId := order.value]; }
      Do(Act(h, Commit(fate.Acked?)));
      return if fate.Acked? then Returned(outcome) else Thrown;
    }

    // ---------- the transactions of create ----------

    /** The release of a COMPENSATING key's reservation. */
    method CallRelease(
      ghost h: nat, ghost c: nat, key: string, o: OrderId, ghost request: Request,
      ghost error: ApiError, fate: RpcFate, now: Time)
      returns (reply: GatewayResult)
      requires Tied() && key in keys && sys.locks == map[key := h] && ValidFate(fate)
      requires At(sys, h, Create(key, request), AwaitRelease(c, error))
      requires |sys.rpcs| == c + 1 && sys.rpcs[c] == Rpc(ReleaseMsg(o), None)
      modifies inventory, this`history, this`sys
      ensures Tied() && old(history) <= history && (old(NoLate()) ==> NoLate())
      ensures OthersStay(old(sys), sys, h)
      ensures reply.Raised? ==> sys.locks == map[] && At(sys, h, Create(key, request), Done(Error(INTERNAL_FAILURE)))
      ensures reply.Reply? ==>
        sys.locks == map[key := h]
          && At(sys, h, Create(key, request), Persisting(keys[key].(state := Failed), None, Error(error)))
      ensures fate.Answers? <==> reply.Reply?
      ensures inventory.Contents() == DbAfterRelease(old(inventory.Contents()), o, fate, now)
      ensures reply.Reply? ==> IsReleased(inventory.ledger, o)
    {
      hide Initial, Inv, NextDeliver, ToApiError, Next, Stock.Release, IsReleased, NoLateReserve, LateReserve;
      Reached();
      DeliveredAnswer(sys, InitialStock(), c, now);
      DeliverIs(sys, c, now);
      ReleaseIsNeverLate(sys, c, now);
      ServeRelease(sys.db, o, now);
      GrantedRelease(sys.db, o, now);
      reply := Call(c, ReleaseMsg(o), fate, now);
      TakeReleaseAnswer(h, c, key, request, error, fate);
    }

    /** The handler reads the answer to its release, or sees it fail. */
    ghost method TakeReleaseAnswer(h: nat, c: nat, key: string, request: Request, error: ApiError, fate: RpcFate)
      requires Tied() && key in keys && sys.locks == map[key := h] && ValidFate(fate)
      requires At(sys, h, Create(key, request), AwaitRelease(c, error))
      requires fate.Answers? ==> Answered(sys, c) && sys.rpcs[c].answer.value.Granted?
      modifies this`history, this`sys
      ensures Tied() && old(history) <= history && (old(NoLate()) ==> NoLate()) && OthersStay(old(sys), sys, h)
      ensures if fate.Answers? then
          sys.locks == map[key := h]
          && At(sys, h, Create(key, request), Persisting(keys[key].(state := Failed), None, Error(error)))
        else sys.locks == map[] && At(sys, h, Create(key, request), Done(Error(INTERNAL_FAILURE)))
    {
      hide Initial, ToApiError, Next, NoLateReserve, LateReserve;
      if fate.Answers? {
        ReleaseMoves(sys, h, c, key, request, error);
        Do(Act(h, GetReleaseAnswer));
      } else {
        FailureMoves(sys, h, fate.status);
        Do(Act(h, RpcFails(fate.status)));
      }
    }

    /** The end of a transaction that releases the reservation of a COMPENSATING key and makes it FAILED. */
    method ReleaseAndFail(
      ghost h: nat, ghost c: nat, key: string, entry: KeyEntry, ghost request: Request, error: ApiError, fate: Fate)
      returns (result: TxResult)
      requires Tied() && key in keys && keys[key] == entry && entry.state == Compensating
        && sys.locks == map[key := h] && ValidFate(fate.rpc)
      requires At(sys, h, Create(key, request), AwaitRelease(c, error))
      requires |sys.rpcs| == c + 1 && sys.rpcs[c] == Rpc(ReleaseMsg(entry.orderId), None)
      modifies inventory, this`keys, this`orders, this`history, this`sys
      ensures Valid() && old(history) <= history && (old(NoLate()) ==> NoLate())
      ensures orders == old(orders)
      ensures keys == old(keys) || keys == old(keys)[key := entry.(state := Failed)]
      ensures if Undisturbed(fate) then result == Returned(Error(error)) && keys[key].state == Failed
        else result == Thrown
      ensures At(sys, h, Create(key, request), Done(OutcomeOf(result))) && OthersStay(old(sys), sys, h)
      ensures inventory.Contents() == DbAfterRelease(old(inventory.Contents()), entry.orderId, fate.rpc, fate.now)
      ensures keys[key].state == Failed ==> IsReleased(inventory.ledger, entry.orderId)
      ensures Undisturbed(fate) ==> result.Returned? && Settles(sys, h, key, request)
    {
      hide Initial, Settles, StoredFailure, IsReleased, DbAfterRelease, NoLateReserve, LateReserve;
      var reply := CallRelease(h, c, key, entry.orderId, request, error, fate.rpc, fate.now);
      if reply.Raised? { return Thrown; }
      result := Persist(h, key, entry.(state := Failed), None, Error(error), fate.commit);
    }

    /** The reserve of an IN_PROGRESS key's order. */
    method CallReserve(
      ghost h: nat, ghost c: nat, key: string, o: OrderId, request: Request,
      fate: Fate) returns (reply: GatewayResult)
      requires Tied() && key in keys && keys[key].orderId == o && sys.locks == map[key := h] && ValidFate(fate.rpc)
      requires At(sys, h, Create(key, request), AwaitReserve(c))
      requires |sys.rpcs| == c + 1 && sys.rpcs[c] == Rpc(ReserveMsg(o, request.items), None)
      modifies inventory, this`history, this`sys
      ensures Tied() && old(history) <= history && (old(NoLate()) ==> NoLate())
      ensures OthersStay(old(sys), sys, h)
      ensures reply.Raised? ==> RefusedAt(sys, h, key, request, keys[key], reply.error, fate.commit)
      ensures reply.Reply? ==> ReservedAt(sys, h, key, request, keys[key], o in orders, reply.result, fate)
      ensures !fate.rpc.Answers? ==>
        reply == Raised(ToApiError(Some(fate.rpc.status), ReserveOp)) && reply.error.status >= 500
      ensures fate.rpc.Answers? ==>
        match reply
        case Raised(error) => error.status < 500
        case Reply(result) => ReservationMatches(request.items, ReservedItems(result)) && o !in orders
      ensures inventory.Contents() == DbAfterReserve(old(inventory.Contents()), o, request, fate.rpc, fate.now)
      ensures reply.Raised? && reply.error.status < 500 ==> !IsReserved(inventory.ledger, o)
      ensures fate.rpc.Answers? ==>
        reply == ReplyTo(Stock.Reserve(old(inventory.Contents()), o, request.items, fate.now).1, ReserveOp)
    {
      hide Initial, Inv, NextDeliver, ToApiError, Next, RefusedAt, ReservedAt, ReservationMatches;
      hide ReservedItems, ReplyTo, Stock.Reserve, IsReserved;
      hide NoLateReserve, LateReserve;
      Reached();
      DeliveredAnswer(sys, InitialStock(), c, fate.now);
      DeliverIs(sys, c, fate.now);
      ServeReserve(sys.db, o, request.items, fate.now);
      PromptIsNeverLate(sys, InitialStock(), Deliver(c, fate.now));
      reply := Call(c, ReserveMsg(o, request.items), fate.rpc, fate.now);
      if fate.rpc.Answers? {
        ReplyDecides(sys.rpcs[c].answer.value);
        RejectedIsEmpty(old(inventory.Contents()), o, request.items, fate.now);
        TakeReserveAnswer(h, c, key, o, request, fate);
      } else {
        DefiniteExactlyOnDomainStatus(Some(fate.rpc.status));
        LoseReserveAnswer(h, c, key, request, fate);
      }
    }

    /** The handler reads the answer to its reserve. */
    ghost method TakeReserveAnswer(h: nat, c: nat, key: string, o: OrderId, request: Request, fate: Fate)
      requires Tied() && key in keys && keys[key].orderId == o && sys.locks == map[key := h] && Answered(sys, c)
      requires At(sys, h, Create(key, request), AwaitReserve(c))
      modifies this`history, this`sys
      ensures Tied() && old(history) <= history && (old(NoLate()) ==> NoLate()) && OthersStay(old(sys), sys, h)
      ensures match ReplyTo(old(sys).rpcs[c].answer.value, ReserveOp)
        case Raised(error) => error.status < 500 ==> RefusedAt(sys, h, key, request, keys[key], error, fate.commit)
        case Reply(result) =>
          && ReservedAt(sys, h, key, request, keys[key], o in orders, result, fate)
          && ReservationMatches(request.items, ReservedItems(result)) && o !in orders
    {
      hide Initial, Inv, Next, ToApiError, FailedWith, ReservationMatches, ReservedItems, Snapshots;
      hide CreateResponseBody, GrpcStatusOf;
      hide NoLateReserve, LateReserve;
      Reached();
      GuardsNeverFire(sys, InitialStock(), h, key);
      ReserveMoves(sys, h, c, key, request, fate.createdAt, fate.updatedAt);
      Do(Act(h, GetReserveAnswer(fate.createdAt, fate.updatedAt)));
    }

    /** The handler sees its reserve fail, and its transaction ends without having written. */
    ghost method LoseReserveAnswer(h: nat, c: nat, key: string, request: Request, fate: Fate)
      requires Tied() && key in keys && sys.locks == map[key := h] && !fate.rpc.Answers? && ValidFate(fate.rpc)
      requires At(sys, h, Create(key, request), AwaitReserve(c))
      modifies this`history, this`sys
      ensures Tied() && old(history) <= history && (old(NoLate()) ==> NoLate()) && OthersStay(old(sys), sys, h)
      ensures RefusedAt(sys, h, key, request, keys[key], ToApiError(Some(fate.rpc.status), ReserveOp), fate.commit)
    {
      hide Initial, Next, ToApiError, FailedWith, NoLateReserve, LateReserve;
      DefiniteExactlyOnDomainStatus(Some(fate.rpc.status));
      if fate.commit.Acked? {
        FailureMoves(sys, h, fate.rpc.status);
        Do(Act(h, RpcFails(fate.rpc.status)));
      } else {
        CrashMoves(sys, h);
        Do(Act(h, Crash));
      }
    }

    /** The end of a create's transaction that reserves the stock and confirms the order. */
    method ReserveAndConfirm(ghost h: nat, ghost c: nat, key: string, entry: KeyEntry, request: Request, fate: Fate)
      returns (result: TxResult, reservationSucceeded: bool)
      requires Tied() && key in keys && keys[key] == entry && entry.state == InProgress && sys.locks == map[key := h]
        && ValidFate(fate.rpc)
      requires At(sys, h, Create(key, request), AwaitReserve(c)) && Distinct(request.items)
      requires |sys.rpcs| == c + 1 && sys.rpcs[c] == Rpc(ReserveMsg(entry.orderId, request.items), None)
      modifies inventory, this`keys, this`orders, this`history, this`sys
      ensures Valid() && old(history) <= history && (old(NoLate()) ==> NoLate())
      ensures OnlyKey(old(keys), keys, key) && OnlyOrder(old(orders), orders, entry.orderId)
      ensures AfterCreate(sys, h, key, request, result, reservationSucceeded) && OthersStay(old(sys), sys, h)
      ensures result.Returned? && result.outcome.Success? ==> Settles(sys, h, key, request)
      ensures inventory.Contents() == DbAfterReserve(old(inventory.Contents()), entry.orderId, request, fate.rpc,
        fate.now)
      ensures FailsEmpty(old(keys), keys, key, inventory.ledger)
      ensures result == Thrown && reservationSucceeded <==>
        && fate.rpc.Answers? && !fate.commit.Acked?
        && Stock.Reserve(old(inventory.Contents()), entry.orderId, request.items, fate.now).1.Granted?
      ensures result == Thrown && reservationSucceeded ==>
        keys[key].state == if fate.commit.Aborted? then InProgress else Confirmed
      ensures !fate.rpc.Answers? ==>
        && keys == old(keys) && orders == old(orders) && !reservationSucceeded
        && result == Read(Error(ToApiError(Some(fate.rpc.status), ReserveOp)), fate.commit)
      ensures fate.rpc.Answers? && !fate.commit.Acked? ==> result == Thrown
      ensures Undisturbed(fate) ==> result.Returned? && Settles(sys, h, key, request)
      ensures Undisturbed(fate) && request.customerId in customers ==>
        Decided(customers, old(inventory.Contents()), inventory.Contents(), entry.orderId, request, fate,
          OutcomeOf(result))
    {
      hide Initial, Settles, ToApiError, FailedWith, ReservationMatches, ReservedItems, ReservedAt, Stock.Reserve;
      hide Snapshots, ReplyTo, IsReserved, NoLateReserve, LateReserve;
      ReplyGrants(Stock.Reserve(inventory.Contents(), entry.orderId, request.items, fate.now).1);
      reservationSucceeded := false;
      var reply := CallReserve(h, c, key, entry.orderId, request, fate);
      if reply.Raised? {
        if reply.error.status >= 500 { return Read(Error(reply.error), fate.commit), false; }
        result := RejectCreate(h, key, entry, request, reply.error, fate.commit);
        return;
      }
      result := ConfirmOrder(h, key, entry, request, reply.result, fate);
      reservationSucceeded := true;
    }

    /** A definite rejection is recorded: the key is FAILED. */
    method RejectCreate(
      ghost h: nat, key: string, entry: KeyEntry, ghost request: Request, error: ApiError, fate: CommitFate)
      returns (result: TxResult)
      requires Tied() && key in keys && keys[key] == entry && entry.state == InProgress && sys.locks == map[key := h]
      requires At(sys, h, Create(key, request), Persisting(FailedWith(entry, error), None, Error(error)))
      modifies this`keys, this`orders, this`history, this`sys
      ensures Valid() && old(history) <= history && (old(NoLate()) ==> NoLate())
      ensures orders == old(orders)
      ensures OnlyKey(old(keys), keys, key) && (keys == old(keys) || keys == old(keys)[key := FailedWith(entry, error)])
      ensures At(sys, h, Create(key, request), Done(OutcomeOf(result))) && OthersStay(old(sys), sys, h)
      ensures result == if fate.Acked? then Returned(Error(error)) else Thrown
      ensures fate.Acked? ==> Settles(sys, h, key, request) && keys[key].state == Failed
    {
      hide Initial, Settles, FailedWith, NoLateReserve, LateReserve;
      FailedWithIsFailed(entry, error);
      result := Persist(h, key, FailedWith(entry, error), None, Error(error), fate);
    }

    /** What follows a granted reserve: the order and its key's answer are stored. */
    method ConfirmOrder(
      ghost h: nat, key: string, entry: KeyEntry, request: Request, reserved: StockResult,
      fate: Fate) returns (result: TxResult)
      requires Tied() && key in keys && keys[key] == entry && entry.state == InProgress && Distinct(request.items)
      requires ReservedAt(sys, h, key, request, entry, entry.orderId in orders, reserved, fate)
      modifies this`keys, this`orders, this`history, this`sys
      ensures Valid() && old(history) <= history && (old(NoLate()) ==> NoLate())
      ensures OnlyKey(old(keys), keys, key) && OnlyOrder(old(orders), orders, entry.orderId)
      ensures AfterCreate(sys, h, key, request, result, true) && OthersStay(old(sys), sys, h)
      ensures result.Returned? ==>
        && Settles(sys, h, key, request)
        && result.outcome == Success(
             OrderView(entry.orderId, request.customerId, CONFIRMED, Snapshots(reserved), fate.createdAt,
               fate.updatedAt, None), false)
      ensures keys[key].state == InProgress || keys[key].state == Confirmed
      ensures result.Returned? && result.outcome.Success? ==>
        keys[key] ==
          KeyEntry(entry.requestHash, entry.orderId, Confirmed, Some(201),
            Some(CreateResponseBody(result.outcome.order)))
      ensures ReservationMatches(request.items, ReservedItems(reserved)) && entry.orderId !in old(orders) ==>
        && (fate.commit.Acked? <==> result.Returned?)
        && keys[key].state == if fate.commit.Aborted? then InProgress else Confirmed
    {
      hide Initial, Settles, ReservationMatches, ReservedItems, Snapshots, CreateResponseBody, OnlyKey, OnlyOrder;
      hide NoLateReserve, LateReserve;
      NothingWritten(keys, orders, key, entry.orderId);
      var matches := AssertReservationMatches(request.items, ReservedItems(reserved));
      if !matches || entry.orderId in orders { return Thrown; }
      var order := OrderView(entry.orderId, request.customerId, CONFIRMED, Snapshots(reserved), fate.createdAt,
        fate.updatedAt, None);
      var confirmed := entry.(state := Confirmed, status := Some(201), body := Some(CreateResponseBody(order)));
      ConfirmedWritten(keys, orders, key, confirmed, order);
      result := Persist(h, key, confirmed, Some(order), Success(order, false), fate.commit);
    }

    /** What a transaction answers when the key is already CONFIRMED or FAILED. */
    function ReplayOf(entry: KeyEntry): TxResult
      reads this
    {
      if entry.state == Failed then Returned(Error(StoredFailure(entry.status, entry.body)))
      else if entry.orderId in orders
        then Returned(Success(RestoreCreateResponse(entry.body, orders[entry.orderId]), true))
      else Thrown
    }

    method CreateTransaction(ghost h: nat, key: string, request: Request, requestHash: string, fate: Fate)
      returns (result: TxResult, reservationSucceeded: bool)
      requires Valid() && key in keys && At(sys, h, Create(key, request), WantKey) && requestHash == HashOf(request)
      requires Distinct(request.items) && ValidFate(fate.rpc)
      modifies inventory, this`keys, this`orders, this`history, this`sys
      ensures Valid() && old(history) <= history && (old(NoLate()) ==> NoLate())
      ensures OnlyKey(old(keys), keys, key) && OnlyOrder(old(orders), orders, keys[key].orderId)
      ensures AfterCreate(sys, h, key, request, result, reservationSucceeded) && OthersStay(old(sys), sys, h)
      ensures result.Returned? && result.outcome.Success? ==> Settles(sys, h, key, request)
      ensures inventory.Contents() ==
        DbAfterTx(customers, old(inventory.Contents()), old(keys)[key], requestHash, request, fate)
      ensures old(keys)[key].requestHash == requestHash && old(keys)[key].state == Compensating ==>
        result == if Undisturbed(fate)
          then Returned(Error(StoredFailure(old(keys)[key].status, old(keys)[key].body))) else Thrown
      ensures Undecided(old(keys)[key], requestHash) && !fate.commit.Acked? ==> result == Thrown
      ensures Undecided(old(keys)[key], requestHash) && request.customerId in customers && !fate.rpc.Answers? ==>
        result == Read(Error(ToApiError(Some(fate.rpc.status), ReserveOp)), fate.commit)
      ensures FailsEmpty(old(keys), keys, key, inventory.ledger)
      ensures old(keys)[key].state == Compensating ==> FailsReleased(old(keys), keys, key, inventory.ledger)
      ensures result == Thrown && reservationSucceeded <==>
        Recovers(customers, old(inventory.Contents()), old(keys)[key], requestHash, request, fate)
      ensures result == Thrown && reservationSucceeded ==>
        keys[key].state == if fate.commit.Aborted? then InProgress else Confirmed
      ensures Undecided(old(keys)[key], requestHash) && request.customerId in customers && !fate.rpc.Answers? ==>
        keys == old(keys) && orders == old(orders) && !reservationSucceeded
      ensures Undisturbed(fate) ==> result.Returned? && Settles(sys, h, key, request)
      ensures Answerable(old(keys)[key], requestHash) ==>
        && (if fate.commit.Acked? then result.Returned? && Settles(sys, h, key, request)
          else result == Thrown && !reservationSucceeded)
        && keys == old(keys) && orders == old(orders) && inventory.Contents() == old(inventory.Contents())
      ensures Undisturbed(fate) && Undecided(old(keys)[key], requestHash) ==>
        Decided(customers, old(inventory.Contents()), inventory.Contents(), old(keys)[key].orderId, request, fate,
          OutcomeOf(result))
    {
      hide Initial, ToApiError, Settles, Inv, HashOf, Next, Replay, FailedWith, StoredFailure, Decided;
      hide NoLateReserve, LateReserve;
      var entry := keys[key];
      if Answerable(entry, requestHash) {
        result := AnswerTransaction(h, key, entry, request, requestHash, fate.commit);
        return result, false;
      }
      BeginMoves(sys, h, key, request);
      Do(Act(h, BeginTx));
      result, reservationSucceeded := Proceed(h, key, entry, request, fate);
    }

    /** A create's transaction that only reads: another payload, or a key already decided. */
    method AnswerTransaction(
      ghost h: nat, key: string, entry: KeyEntry, ghost request: Request, requestHash: string, fate: CommitFate)
      returns (result: TxResult)
      requires Valid() && key in keys && keys[key] == entry && Answerable(entry, requestHash)
      requires At(sys, h, Create(key, request), WantKey) && requestHash == HashOf(request)
      modifies this`history, this`sys
      ensures Valid() && old(history) <= history && (old(NoLate()) ==> NoLate())
      ensures AfterCreate(sys, h, key, request, result, false) && OthersStay(old(sys), sys, h)
      ensures if fate.Acked? then result.Returned? && Settles(sys, h, key, request) else result == Thrown
    {
      hide Initial, Settles, Inv, HashOf, Next, Replay, StoredFailure, RestoreCreateResponse, NoLateReserve;
      hide LateReserve;
      ghost var before := sys;
      Reached();
      ConfirmedHasOrder(sys, InitialStock(), key);
      BeginMoves(sys, h, key, request);
      if !fate.Acked? {
        Die(h);
        return Thrown;
      }
      Do(Act(h, BeginTx));
      if entry.requestHash != requestHash {
        ConflictSettles(before, sys, h, key, request);
        return Returned(Error(KEY_CONFLICT));
      }
      ReplaySettles(before, sys, InitialStock(), h, key, request);
      ReplayIs(before, entry);
      return ReplayOf(entry);
    }

    /** The rest of a create's transaction, for a key still to be decided. */
    method Proceed(ghost h: nat, key: string, entry: KeyEntry, request: Request, fate: Fate)
      returns (result: TxResult, reservationSucceeded: bool)
      requires Tied() && key in keys && keys[key] == entry && Begun(sys, h, key, request, entry)
      requires Distinct(request.items) && ValidFate(fate.rpc) && !Final(entry.state)
      modifies inventory, this`keys, this`orders, this`history, this`sys
      ensures Valid() && old(history) <= history && (old(NoLate()) ==> NoLate())
      ensures OnlyKey(old(keys), keys, key) && OnlyOrder(old(orders), orders, keys[key].orderId)
      ensures AfterCreate(sys, h, key, request, result, reservationSucceeded) && OthersStay(old(sys), sys, h)
      ensures result.Returned? && result.outcome.Success? ==> Settles(sys, h, key, request)
      ensures inventory.Contents() == DbAfterTx(customers, old(inventory.Contents()), entry, entry.requestHash,
        request, fate)
      ensures entry.state == Compensating ==>
        result == if Undisturbed(fate) then Returned(Error(StoredFailure(entry.status, entry.body))) else Thrown
      ensures entry.state == InProgress && !fate.commit.Acked? ==> result == Thrown
      ensures entry.state == InProgress && request.customerId in customers && !fate.rpc.Answers? ==>
        result == Read(Error(ToApiError(Some(fate.rpc.status), ReserveOp)), fate.commit)
      ensures FailsEmpty(old(keys), keys, key, inventory.ledger)
      ensures entry.state == Compensating ==> FailsReleased(old(keys), keys, key, inventory.ledger)
      ensures result == Thrown && reservationSucceeded <==>
        Recovers(customers, old(inventory.Contents()), entry, entry.requestHash, request, fate)
      ensures result == Thrown && reservationSucceeded ==>
        keys[key].state == if fate.commit.Aborted? then InProgress else Confirmed
      ensures entry.state == InProgress && request.customerId in customers && !fate.rpc.Answers? ==>
        keys == old(keys) && orders == old(orders) && !reservationSucceeded
      ensures Undisturbed(fate) ==> result.Returned? && Settles(sys, h, key, request)
      ensures Undisturbed(fate) && entry.state == InProgress ==>
        Decided(customers, old(inventory.Contents()), inventory.Contents(), entry.orderId, request, fate,
          OutcomeOf(result))
    {
      hide Initial, Inv, Settles, ToApiError, FailedWith, StoredFailure, Stock.Reserve, Snapshots, ReplyTo;
      hide DbAfterRelease;
      hide DbAfterReserve, NoLateReserve, LateReserve;
      Reached();
      reservationSucceeded := false;
      ghost var c := |sys.rpcs| - 1;
      if entry.state == Compensating {
        result := ReleaseAndFail(h, c, key, entry, request, StoredFailure(entry.status, entry.body), fate);
      } else if request.customerId !in customers {
        UnknownIsEmpty(sys, InitialStock(), h);
        result := RejectCreate(h, key, entry, request, CUSTOMER_NOT_FOUND, fate.commit);
      } else {
        result, reservationSucceeded := ReserveAndConfirm(h, c, key, entry, request, fate);
      }
    }

    /** The handler learns that its transaction failed. */
    ghost method Die(h: nat)
      requires Valid() && h < |sys.handlers| && !sys.handlers[h].pc.Done?
      modifies this`history, this`sys
      ensures Valid() && old(history) <= history && (old(NoLate()) ==> NoLate())
      ensures sys.handlers == old(sys.handlers)[h := Handler(old(sys).handlers[h].job, Done(Error(INTERNAL_FAILURE)))]
    {
      hide Initial, Next, NoLateReserve, LateReserve;
      CrashMoves(sys, h);
      Do(Act(h, Crash));
    }

    // ---------- recoverFailedCreate ----------

    /** A recovery that finds its key decided only answers. */
    ghost method MarkDecided(h: nat, key: string, request: Request)
      requires Valid() && key in keys && Final(keys[key].state) && At(sys, h, Create(key, request), NeedsCompensation)
      modifies this`history, this`sys
      ensures Valid() && old(history) <= history && (old(NoLate()) ==> NoLate())
      ensures OthersStay(old(sys), sys, h)
      ensures ReplayOf(keys[key]).Returned? && At(sys, h, Create(key, request), Done(OutcomeOf(ReplayOf(keys[key]))))
        && Settles(sys, h, key, request)
    {
      hide Initial, Settles, Inv, Next, HashOf, Replay, StoredFailure, RestoreCreateResponse, NoLateReserve;
      hide LateReserve;
      Reached();
      SameHash(sys, InitialStock(), h);
      ConfirmedHasOrder(sys, InitialStock(), key);
      MarkMoves(sys, h, key, request);
      ghost var before := sys;
      Do(Act(h, MarkCompensating));
      ReplaySettles(before, sys, InitialStock(), h, key, request);
      ReplayIs(before, keys[key]);
    }

    method WriteCompensating(ghost h: nat, key: string, entry: KeyEntry, ghost request: Request)
      requires Valid() && key in keys && keys[key] == entry && !Final(entry.state)
        && At(sys, h, Create(key, request), NeedsCompensation)
      modifies this`keys, this`history, this`sys
      ensures Valid() && old(history) <= history && (old(NoLate()) ==> NoLate())
      ensures OthersStay(old(sys), sys, h)
      ensures OnlyKey(old(keys), keys, key) && keys[key].state == Compensating
        && At(sys, h, Create(key, request), WantUndo)
      ensures keys == if entry.state == Compensating then old(keys)
                      else old(keys)[key := FailedWith(entry, INTERNAL_FAILURE).(state := Compensating)]
    {
      hide Initial, Next, FailedWith, NoLateReserve, LateReserve, OnlyKey;
      MarkMoves(sys, h, key, request);
      MarkIsOnlyKey(keys, key);
      if entry.state == InProgress { keys := keys[key := FailedWith(entry, INTERNAL_FAILURE).(state := Compensating)]; }
      Do(Act(h, MarkCompensating));
    }

    /** First transaction: an IN_PROGRESS key becomes COMPENSATING. `None` means go on to the release. */
    method MarkTransaction(ghost h: nat, key: string, ghost request: Request, fate: CommitFate)
      returns (result: Option<TxResult>)
      requires Valid() && key in keys && At(sys, h, Create(key, request), NeedsCompensation)
      modifies this`keys, this`history, this`sys
      ensures Valid() && old(history) <= history && (old(NoLate()) ==> NoLate())
      ensures OnlyKey(old(keys), keys, key) && OthersStay(old(sys), sys, h)
      ensures keys[key].state != InProgress || fate.Aborted?
      ensures Final(old(keys)[key].state) ==> keys == old(keys) && result.Some?
      ensures !Final(old(keys)[key].state) ==>
        (result == None <==> fate.Acked?) && (fate.Aborted? ==> keys == old(keys)) && keys[key].state != Failed
        && (if result == None then keys[key].state == Compensating else result.value == Thrown)
      ensures result == None && old(keys)[key].state == InProgress ==>
        keys[key] == FailedWith(old(keys)[key], INTERNAL_FAILURE).(state := Compensating)
      ensures result == None && old(keys)[key].state == Compensating ==> keys[key] == old(keys)[key]
      ensures At(sys, h, Create(key, request), if result == None then WantUndo else Done(OutcomeOf(result.value)))
      ensures result.Some? && result.value.Returned? ==> Settles(sys, h, key, request)
      ensures fate.Acked? ==> result == None || result.value.Returned?
    {
      hide Initial, Settles, FailedWith, NoLateReserve, LateReserve;
      FailedWithIsFailed(keys[key], INTERNAL_FAILURE);
      var entry := keys[key];
      if Final(entry.state) && fate.Acked? {
        MarkDecided(h, key, request);
        return Some(ReplayOf(entry));
      }
      if Final(entry.state) || fate.Aborted? {
        Die(h);
        return Some(Thrown);
      }
      WriteCompensating(h, key, entry, request);
      if fate.AckLost? {
        Die(h);
        return Some(Thrown);
      }
      return None;
    }

    /** Second transaction: release the reservation and make the key FAILED, unless another create already has. */
    method UndoTransaction(ghost h: nat, key: string, ghost request: Request, fate: Fate) returns (result: TxResult)
      requires Valid() && key in keys && At(sys, h, Create(key, request), WantUndo) && ValidFate(fate.rpc)
      modifies inventory, this`keys, this`orders, this`history, this`sys
      ensures Valid() && old(history) <= history && (old(NoLate()) ==> NoLate())
      ensures OnlyKey(old(keys), keys, key) && orders == old(orders) && OthersStay(old(sys), sys, h)
      ensures At(sys, h, Create(key, request), Done(OutcomeOf(result)))
      ensures result.Returned? ==>
        keys[key].state == Failed
        && result == Returned(Error(StoredFailure(keys[key].status, keys[key].body)))
      ensures inventory.Contents() ==
        if Final(old(keys)[key].state) then old(inventory.Contents())
        else DbAfterRelease(old(inventory.Contents()), old(keys)[key].orderId, fate.rpc, fate.now)
      ensures FailsReleased(old(keys), keys, key, inventory.ledger)
      ensures result.Returned? && old(keys)[key].state == Compensating ==>
        result == Returned(Error(StoredFailure(old(keys)[key].status, old(keys)[key].body)))
      ensures Undisturbed(fate) ==> result.Returned? && Settles(sys, h, key, request)
    {
      hide Initial, Settles, Inv, Next, HashOf, FailedWith, StoredFailure, RestoreCreateResponse;
      hide NoLateReserve, LateReserve;
      hide OnlyKey, Lives, IsReleased, DbAfterRelease;
      var entry := keys[key];
      Reached();
      SameHash(sys, InitialStock(), h);
      FailedWritten(keys, key);
      if Final(entry.state) {
        if !fate.commit.Acked? {
          Die(h);
          return Thrown;
        }
        UndoDecided(h, key, request);
        return ReplayOf(entry);
      }
      UndoMoves(sys, h, key, request);
      ghost var c := |sys.rpcs|;
      Do(Act(h, BeginUndo));
      if entry.state != Compensating { return Thrown; }
      result := ReleaseAndFail(h, c, key, entry, request, StoredFailure(entry.status, entry.body), fate);
    }

    /** The second recovery transaction finds its key decided and only answers. */
    ghost method UndoDecided(h: nat, key: string, request: Request)
      requires Valid() && key in keys && Final(keys[key].state) && At(sys, h, Create(key, request), WantUndo)
      modifies this`history, this`sys
      ensures Valid() && old(history) <= history && (old(NoLate()) ==> NoLate())
      ensures OthersStay(old(sys), sys, h) && Settles(sys, h, key, request)
      ensures ReplayOf(keys[key]).Returned? && At(sys, h, Create(key, request), Done(OutcomeOf(ReplayOf(keys[key]))))
    {
      hide Initial, Settles, Inv, Next, HashOf, Replay, StoredFailure, RestoreCreateResponse, NoLateReserve;
      hide LateReserve;
      ghost var before := sys;
      Reached();
      SameHash(sys, InitialStock(), h);
      ConfirmedHasOrder(sys, InitialStock(), key);
      UndoMoves(sys, h, key, request);
      Do(Act(h, BeginUndo));
      ReplaySettles(before, sys, InitialStock(), h, key, request);
      ReplayIs(before, keys[key]);
    }

    method RecoverFailedCreate(
      ghost h: nat, key: string, ghost request: Request, mark: CommitFate, fate: Fate) returns (result: TxResult)
      requires Valid() && key in keys && At(sys, h, Create(key, request), NeedsCompensation) && ValidFate(fate.rpc)
      modifies inventory, this`keys, this`orders, this`history, this`sys
      ensures Valid() && old(history) <= history && (old(NoLate()) ==> NoLate())
      ensures OnlyKey(old(keys), keys, key) && orders == old(orders) && OthersStay(old(sys), sys, h)
      ensures At(sys, h, Create(key, request), Done(OutcomeOf(result)))
      ensures result.Returned? && result.outcome.Success? ==> Settles(sys, h, key, request)
      ensures inventory.Contents() ==
        if Final(old(keys)[key].state) || !mark.Acked? then old(inventory.Contents())
        else DbAfterRelease(old(inventory.Contents()), old(keys)[key].orderId, fate.rpc, fate.now)
      ensures FailsReleased(old(keys), keys, key, inventory.ledger)
      ensures result.Returned? && old(keys)[key].state == InProgress ==>
        result.outcome.Error? && IsInternal(result.outcome.error)
      ensures mark.Acked? && Undisturbed(fate) ==> result.Returned? && Settles(sys, h, key, request)
    {
      hide Initial, Settles, HashOf, IsReleased, DbAfterRelease, FailedWith, StoredFailure, NoLateReserve, LateReserve;
      FailedWithIsFailed(keys[key], INTERNAL_FAILURE);
      PublicErrors();
      var prepared := MarkTransaction(h, key, request, mark);
      if prepared.Some? { return prepared.value; }
      ghost var marked := keys;
      result := UndoTransaction(h, key, request, fate);
      OnlyKeyTwice(old(keys), marked, keys, key);
    }

    // ---------- create ----------

    /** The claim of a key; the violation of its uniqueness is ignored, any other failure ends the create. */
    method Claim(ghost h: nat, key: string, request: Request, requestHash: string, freshId: OrderId, fate: CommitFate)
      returns (claimed: bool)
      requires Valid() && At(sys, h, Create(key, request), Claiming) && freshId !in sys.claims
        && IsLowerUuid(freshId) && requestHash == HashOf(request)
      modifies this`keys, this`history, this`sys
      ensures Valid() && old(history) <= history && (old(NoLate()) ==> NoLate())
      ensures claimed == fate.Acked? && OthersStay(old(sys), sys, h)
      ensures keys == if fate.Aborted? then old(keys) else Claimed(old(keys), key, request, freshId)
      ensures !fate.Aborted? && key in old(keys) ==> keys == old(keys)
      ensures !fate.Aborted? && key !in old(keys) ==>
        keys == old(keys)[key := KeyEntry(HashOf(request), freshId, InProgress, None, None)]
      ensures At(sys, h, Create(key, request), if claimed then WantKey else Done(Error(INTERNAL_FAILURE)))
    {
      hide Initial, HashOf, Next, IsLowerUuid, NoLateReserve, LateReserve;
      if fate.Aborted? {
        Die(h);
        return false;
      }
      ClaimMoves(sys, h, key, request, freshId);
      if key !in keys { keys := keys[key := KeyEntry(requestHash, freshId, InProgress, None, None)]; }
      Do(Act(h, ClaimKey(freshId)));
      if fate.AckLost? { Die(h); }
      return fate.Acked?;
    }

    /**
     `create`. Whatever fails, the key moves along its life line only and a success is the order of
     the key as first confirmed; undisturbed, the key ends CONFIRMED or FAILED and the answer says so.
     */
    method CreateOrder(
      idempotencyKey: Option<string>, customerId: string, items: seq<Item>, freshId: OrderId, fate: CreateFate)
      returns (outcome: Outcome)
      requires Valid() && IsUuid(customerId) && ValidOrderItems(items) && freshId !in sys.claims && IsLowerUuid(freshId)
      requires ValidFate(fate.tx.rpc) && ValidFate(fate.undo.rpc)
      modifies inventory, this`keys, this`orders, this`history, this`sys
      ensures Valid() && old(history) <= history && (old(NoLate()) ==> NoLate())
      ensures !KeyFormat(idempotencyKey) ==>
        && outcome.Error? && Is(outcome.error, 400, "VALIDATION_ERROR", "Request validation failed")
        && keys == old(keys) && orders == old(orders)
          && inventory.Contents() == old(inventory.Contents())
      ensures KeyFormat(idempotencyKey) ==>
        var key, h := idempotencyKey.value, |old(sys).handlers|;
          var request := Request(ToLower(customerId), NormalizeItems(items));
        && At(sys, h, Create(key, request), Done(outcome)) && OneMore(old(sys), sys)
        && (!fate.claim.Acked? ==>
              && outcome == Error(INTERNAL_FAILURE)
              && keys == (if fate.claim.Aborted? then old(keys) else Claimed(old(keys), key, request, freshId))
              && orders == old(orders) && inventory.Contents() == old(inventory.Contents()))
        && (fate.claim.Acked? ==>
              && OnlyKey(Claimed(old(keys), key, request, freshId), keys, key)
              && OnlyOrder(old(orders), orders, keys[key].orderId)
              && (outcome.Success? || Undisturbed(fate.tx) ==> Settles(sys, h, key, request))
              && (var claimed := Claimed(old(keys), key, request, freshId); var before := old(inventory.Contents());
                  && inventory.Contents() == DbAfterCreate(customers, before, claimed[key], HashOf(request), request,
                    fate)
                  && FaultOutcome(customers, claimed[key], HashOf(request), request, fate.tx, outcome)
                  && FailsEmpty(claimed, keys, key, inventory.ledger)
                  && (claimed[key].state == Compensating
                      || Recovers(customers, before, claimed[key], HashOf(request), request, fate.tx) ==>
                        FailsReleased(claimed, keys, key, inventory.ledger)))
              && (key in old(keys) && Answerable(old(keys)[key], HashOf(request)) ==>
                    && (if fate.tx.commit.Acked? then Settles(sys, h, key, request)
                      else outcome == Error(INTERNAL_FAILURE))
                    && keys == old(keys) && orders == old(orders) && inventory.Contents() == old(inventory.Contents()))
              && (key !in old(keys) && Undisturbed(fate.tx) && outcome.Success? ==>
                    ListedAs(outcome.order, old(inventory.Contents()).parts, request.items))
              && (key !in old(keys) && Undisturbed(fate.tx) ==>
                    Decided(customers, old(inventory.Contents()), inventory.Contents(), freshId, request, fate.tx,
                      outcome)))
    {
      hide OnlyKey, OnlyOrder, Answerable, KeyFormat, IsLowerUuid, FaultOutcome;
      hide Initial, Inv, Settles, HashRequest, ListedAs, ToLower, NormalizeItems, ValidOrderItems, Decided;
      hide IsUuid, Lives;
      hide DbAfterCreate, FailsEmpty, FailsReleased, Recovers, NoLateReserve, LateReserve;
      ValidKeyIsFormat(idempotencyKey);
      PublicErrors();
      if !ValidKey(idempotencyKey) { return Error(VALIDATION); }
      var key, request := idempotencyKey.value, Request(ToLower(customerId), NormalizeItems(items));
      var requestHash := HashRequest(request.customerId, request.items);
      ghost var h := |sys.handlers|;
      Reached();
      UnclaimedIsNew(sys, InitialStock(), freshId);
      Start(key, customerId, items, request);
      var claimed := Claim(h, key, request, requestHash, freshId, fate.claim);
      if !claimed { return Error(INTERNAL_FAILURE); }
      ghost var before := inventory.Contents();
      outcome := RunCreate(h, key, request, requestHash, fate.tx, fate.mark, fate.undo);
      if key !in old(keys) && Undisturbed(fate.tx) {
        NewIsListed(freshId, before, request, items, fate.tx, outcome);
      }
    }

    lemma NewIsListed(o: OrderId, before: Db, request: Request, items: seq<Item>, fate: Fate, outcome: Outcome)
      requires o !in before.ledger && ValidOrderItems(items) && request.items == NormalizeItems(items)
      requires Decided(customers, before, inventory.Contents(), o, request, fate, outcome)
      ensures outcome.Success? ==> ListedAs(outcome.order, before.parts, request.items)
    {
      hide ValidOrderItems, NormalizeItems, Decided, ListedAs;
      NormalizedIsValid(items);
      DecidedIsListed(customers, before, inventory.Contents(), o, request, fate, outcome);
    }

    /** A create once its key is claimed: the transaction, and compensation if it fails after a reserve. */
    method RunCreate(
      ghost h: nat, key: string, request: Request, requestHash: string, fate: Fate, mark: CommitFate, undo: Fate)
      returns (outcome: Outcome)
      requires Valid() && key in keys && At(sys, h, Create(key, request), WantKey) && requestHash == HashOf(request)
      requires Distinct(request.items) && ValidFate(fate.rpc) && ValidFate(undo.rpc)
      modifies inventory, this`keys, this`orders, this`history, this`sys
      ensures Valid() && old(history) <= history && (old(NoLate()) ==> NoLate())
      ensures OnlyKey(old(keys), keys, key) && OnlyOrder(old(orders), orders, keys[key].orderId)
      ensures At(sys, h, Create(key, request), Done(outcome)) && OthersStay(old(sys), sys, h)
      ensures outcome.Success? || Undisturbed(fate) ==> Settles(sys, h, key, request)
      ensures Answerable(old(keys)[key], requestHash) ==>
        (if fate.commit.Acked? then Settles(sys, h, key, request) else outcome == Error(INTERNAL_FAILURE))
        && keys == old(keys) && orders == old(orders) && inventory.Contents() == old(inventory.Contents())
      ensures inventory.Contents() == DbAfterCreate(
        customers, old(inventory.Contents()), old(keys)[key], requestHash, request, CreateFate(Acked, fate, mark, undo))
      ensures FaultOutcome(customers, old(keys)[key], requestHash, request, fate, outcome)
      ensures FailsEmpty(old(keys), keys, key, inventory.ledger)
      ensures (old(keys)[key].state == Compensating
               || Recovers(customers, old(inventory.Contents()), old(keys)[key], requestHash, request, fate)) ==>
        FailsReleased(old(keys), keys, key, inventory.ledger)
      ensures Undisturbed(fate) && Undecided(old(keys)[key], requestHash) ==>
        Decided(customers, old(inventory.Contents()), inventory.Contents(), old(keys)[key].orderId, request, fate,
          outcome)
    {
      PublicErrors();
      hide Initial, ToApiError, StoredFailure, Settles, HashOf, Decided, DbAfterRelease, DbAfterReserve;
      hide NoLateReserve, LateReserve;
      hide OnlyKey, OnlyOrder, Lives;
      var result, reservationSucceeded := CreateTransaction(h, key, request, requestHash, fate);
      SameOrderId(old(keys), keys, key);
      if result == Thrown && reservationSucceeded {
        ghost var before := keys;
        result := RecoverFailedCreate(h, key, request, mark, undo);
        OnlyKeyTwice(old(keys), before, keys, key);
        SameOrderId(before, keys, key);
      }
      return OutcomeOf(result);
    }

    /** The machine admits the request as a new handler. */
    ghost method Start(key: string, customerId: string, items: seq<Item>, request: Request)
      requires Valid() && IsUuid(customerId) && ValidOrderItems(items)
        && request == Request(ToLower(customerId), NormalizeItems(items))
      modifies this`history, this`sys
      ensures Valid() && old(history) <= history && (old(NoLate()) ==> NoLate())
      ensures sys.claims == old(sys).claims && |sys.handlers| == |old(sys).handlers| + 1
      ensures At(sys, |old(sys).handlers|, Create(key, request), Claiming) && OneMore(old(sys), sys)
      ensures Distinct(request.items)
    {
      hide Initial, Next, IsUuid, ValidOrderItems, NormalizeItems, ToLower, NoLateReserve, LateReserve;
      NormalizedIsValid(items);
      StartMoves(sys, key, customerId, items);
      Do(StartCreate(key, customerId, items));
    }

    // ---------- cancel ----------

    /** The release of a cancel. */
    method CallCancel(ghost h: nat, ghost c: nat, id: OrderId, fate: RpcFate, now: Time) returns (reply: GatewayResult)
      requires Valid() && At(sys, h, Cancel(id), AwaitCancel(c)) && ValidFate(fate)
      requires |sys.rpcs| == c + 1 && sys.rpcs[c] == Rpc(ReleaseMsg(id), None)
      modifies inventory, this`history, this`sys
      ensures Valid() && old(history) <= history && (old(NoLate()) ==> NoLate())
      ensures OthersStay(old(sys), sys, h)
      ensures At(sys, h, Cancel(id), if reply.Raised? then Done(Error(reply.error)) else CancelGranted)
      ensures if fate.Answers? then reply.Reply? else reply == Raised(ToApiError(Some(fate.status), ReleaseOp))
      ensures inventory.Contents() == if fate.LostBefore? then old(inventory.Contents())
        else Stock.Release(old(inventory.Contents()), id, now).0
    {
      hide Initial, Inv, NextDeliver, ToApiError, Next, Stock.Release, NoLateReserve, LateReserve;
      Reached();
      DeliveredAnswer(sys, InitialStock(), c, now);
      DeliverIs(sys, c, now);
      ServeRelease(sys.db, id, now);
      ReleaseIsNeverLate(sys, c, now);
      reply := Call(c, ReleaseMsg(id), fate, now);
      if fate.Answers? {
        CancelAnswerMoves(sys, h, c, id);
        Do(Act(h, GetReleaseAnswer));
      } else {
        FailureMoves(sys, h, fate.status);
        Do(Act(h, RpcFails(fate.status)));
      }
    }

    /** The transaction that cancels the order, under its row lock. */
    method SaveTransaction(ghost h: nat, id: OrderId, at: Time, updatedAt: Time, fate: CommitFate)
      returns (result: TxResult)
      requires Valid() && At(sys, h, Cancel(id), CancelGranted)
      modifies this`orders, this`history, this`sys
      ensures Valid() && old(history) <= history && (old(NoLate()) ==> NoLate())
      ensures OthersStay(old(sys), sys, h)
      ensures id in old(orders) && IsReleased(inventory.ledger, id) && At(sys, h, Cancel(id), Done(OutcomeOf(result)))
      ensures orders ==
        if fate.Aborted? then old(orders) else old(orders)[id := CancelledOrder(old(orders)[id], at, updatedAt)]
      ensures result == if fate.Acked? then Returned(Success(orders[id], false)) else Thrown
    {
      hide Initial, Inv, Next, NoLateReserve, LateReserve;
      Reached();
      GrantedIsReleased(sys, InitialStock(), h);
      if fate.Aborted? {
        Die(h);
        return Thrown;
      }
      SaveMoves(sys, h, id, at, updatedAt, fate.Acked?);
      var locked := orders[id];
      var cancelled := if locked.status == CANCELLED then locked
                       else locked.(status := CANCELLED, cancelledAt := Some(at), updatedAt := updatedAt);
      orders := orders[id := cancelled];
      Do(Act(h, SaveCancel(at, updatedAt, fate.Acked?)));
      return if fate.Acked? then Returned(Success(cancelled, false)) else Thrown;
    }

    /**
     `cancel`. Whatever fails, the order stays as it was or becomes CANCELLED, no key changes, and
     stock moves only as one release of this order does; a success is a CANCELLED order whose stock is back.
     */
    method CancelOrder(orderId: OrderId, at: Time, fate: Fate) returns (outcome: Outcome)
      requires Valid() && ValidFate(fate.rpc)
      modifies inventory, this`orders, this`history, this`sys
      ensures Valid() && old(history) <= history && (old(NoLate()) ==> NoLate())
      ensures OneMore(old(sys), sys)
      ensures At(sys, |old(sys).handlers|, Cancel(ToLower(orderId)), Done(outcome))
      ensures ToLower(orderId) !in old(orders) ==>
        && outcome.Error? && Is(outcome.error, 404, "ORDER_NOT_FOUND", "Order not found")
        && orders == old(orders) && inventory.Contents() == old(inventory.Contents())
      ensures forall o :: o in old(orders) && SameText(orderId, o) ==> ToLower(orderId) == o
      ensures ToLower(orderId) in old(orders) ==> SameText(orderId, ToLower(orderId))
      ensures ToLower(orderId) in old(orders) ==>
        var id := ToLower(orderId); var was := old(orders)[id];
        && (was.status == CANCELLED ==>
              outcome == Success(was, false) && orders == old(orders)
                && inventory.Contents() == old(inventory.Contents()))
        && (was.status == CONFIRMED ==>
              && Cancels(old(orders), orders, id, at, fate, outcome)
              && inventory.Contents() ==
                 (if fate.rpc.LostBefore? then old(inventory.Contents())
                   else Stock.Release(old(inventory.Contents()), id, fate.now).0)
              && (orders != old(orders) || outcome.Success? ==> IsReleased(inventory.ledger, id)))
    {
      hide Initial, Inv, Next, Stock.Release, ToLower, SameText, NoLateReserve, LateReserve, Cancels, IsReleased;
      Reached();
      FoundInEitherCase(sys, InitialStock(), orderId);
      PublicErrors();
      var id := ToLower(orderId);
      ghost var h, c := |sys.handlers|, |sys.rpcs|;
      StartCancelMoves(sys, orderId);
      Do(StartCancel(orderId));
      ReadMoves(sys, h, id);
      Do(Act(h, ReadOrder));
      if id !in orders { return Error(ORDER_NOT_FOUND); }
      if orders[id].status == CANCELLED { return Success(orders[id], false); }

      outcome := ReleaseAndCancel(h, c, id, at, fate);
    }

    method ReleaseAndCancel(ghost h: nat, ghost c: nat, id: OrderId, at: Time, fate: Fate) returns (outcome: Outcome)
      requires Valid() && ValidFate(fate.rpc) && id in orders && orders[id].status == CONFIRMED
      requires At(sys, h, Cancel(id), AwaitCancel(c)) && |sys.rpcs| == c + 1 && sys.rpcs[c] == Rpc(ReleaseMsg(id), None)
      modifies inventory, this`orders, this`history, this`sys
      ensures Valid() && old(history) <= history && (old(NoLate()) ==> NoLate())
      ensures OthersStay(old(sys), sys, h)
      ensures At(sys, h, Cancel(id), Done(outcome))
      ensures Cancels(old(orders), orders, id, at, fate, outcome)
      ensures inventory.Contents() ==
        if fate.rpc.LostBefore? then old(inventory.Contents())
          else Stock.Release(old(inventory.Contents()), id, fate.now).0
      ensures orders != old(orders) || outcome.Success? ==> IsReleased(inventory.ledger, id)
    {
      hide Initial, Next, Stock.Release, ToApiError, NoLateReserve, LateReserve, IsReleased;
      var reply := CallCancel(h, c, id, fate.rpc, fate.now);
      if reply.Raised? { return Error(reply.error); }
      var result := SaveTransaction(h, id, at, fate.updatedAt, fate.commit);
      return OutcomeOf(result);
    }
  }
}
