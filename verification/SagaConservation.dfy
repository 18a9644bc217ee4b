/**
 Where the stock is: global conservation across the two databases, and the two events that break
 it. A reserve served once its key is FAILED, or a rejection recorded once its order is reserved
 after all, leaves a reservation that nothing will ever release.
 */
module SagaConservation {
  import opened Identifiers
  import opened Canonical
  import opened Errors
  import opened Sums
  import opened Stock
  import opened StockRuns
  import opened Saga
  import opened SagaInvariant
  import opened SagaTheorems

  // ---------- rejected orders and leaked reservations ----------

  predicate IsReserved(ledger: map<OrderId, Operation>, o: OrderId) {
    o in ledger && ledger[o].status == Reserved
  }

  /** The answer is one that Sales takes as a definite rejection. */
  predicate DefiniteRejection(answer: Answer) {
    !answer.Granted? && ToApiError(Some(GrpcStatusOf(answer)), ReserveOp).status < 500
  }

  /** Handler h, which holds its key's lock, is about to record the key as FAILED without a release. */
  predicate AboutToFail(s: State, h: nat)
    requires h < |s.handlers|
  {
    match s.handlers[h].pc
    case AwaitReserve(c) => Answered(s, c) && DefiniteRejection(s.rpcs[c].answer.value)
    case Persisting(entry, order, _) =>
      order == None && s.handlers[h].job.Create? && s.handlers[h].job.key in s.keys
        && s.keys[s.handlers[h].job.key].state == InProgress
    case _ => false
  }

  /** The order's create is FAILED, or its definite rejection is on its way to being recorded. */
  predicate Rejected(s: State, o: OrderId)
    requires o in s.claims && s.claims[o].key in s.keys
  {
    var key := s.claims[o].key;
    s.keys[key].state == Failed || (key in s.locks && s.locks[key] < |s.handlers| && AboutToFail(s, s.locks[key]))
  }

  ghost predicate NoLeak(s: State) {
    forall o :: o in s.claims && s.claims[o].key in s.keys && Rejected(s, o) ==> !IsReserved(s.db.ledger, o)
  }

  /** A reserve delivered for an order already rejected, and which Inventory can still grant. */
  predicate LateReserve(s: State, e: Event) {
    && e.Deliver? && e.rpc < |s.rpcs| && s.rpcs[e.rpc].answer == None && s.rpcs[e.rpc].msg.ReserveMsg?
    && (var o := s.rpcs[e.rpc].msg.orderId;
        && o in s.claims && s.claims[o].key in s.keys && Rejected(s, o)
        && o !in s.db.ledger && CanDeduct(s.db.parts, s.rpcs[e.rpc].msg.items))
  }

  /**
   Composing Inventory's errors, their gRPC statuses and Sales' table: a reserve that Sales takes
   as definitely rejected left the database as it was and no stock held by the order. With a
   fingerprint that matches, the converse holds too.
   */
  lemma DefiniteRejectionIsSound(db: Db, o: OrderId, items: seq<Item>, now: Time)
    ensures var (after, answer) := Reserve(db, o, items, now);
      && (DefiniteRejection(answer) ==> after == db && !IsReserved(db.ledger, o))
      && ((o in db.ledger ==> db.ledger[o].requestHash == Fingerprint(items)) ==>
            (DefiniteRejection(answer) <==> !IsReserved(after.ledger, o)))
  {
    hide Fingerprint, Deduct, ReserveResult;
    var answer := Reserve(db, o, items, now).1;
    if !answer.Granted? { DefiniteExactlyOnDomainStatus(Some(GrpcStatusOf(answer))); }
  }

  /**
   What the client of a create for a new order is told: 422 if a part is missing, else 409 if stock
   is short, else nothing is wrong.
   */
  lemma RejectionTellsWhy(db: Db, o: OrderId, items: seq<Item>, now: Time)
    requires o !in db.ledger
    ensures var answer := Reserve(db, o, items, now).1;
      var missing := exists i :: 0 <= i < |items| && items[i].partId !in db.parts;
      && (answer.Granted? <==> CanDeduct(db.parts, items))
      && (!answer.Granted? ==>
            var error := ToApiError(Some(GrpcStatusOf(answer)), ReserveOp);
            if missing then error.status == 422 && error.code == "PART_NOT_FOUND"
            else error.status == 409 && error.code == "INSUFFICIENT_STOCK")
  {
    hide Fingerprint, Deduct, ReserveResult, NewOperation, ToApiError, ToGrpcStatus;
    var answer := Reserve(db, o, items, now).1;
    RefusalsAreExact(db, o, items, now);
    if answer.Refused? { ErrorsReachClient(answer.error); }
  }

  /** An unexpected exception in Inventory is never taken for a definite rejection. */
  lemma UnexpectedIsInternal(operation: InventoryOperation)
    ensures IsInternal(ToApiError(Some(GrpcStatusOf(Threw)), operation))
  {
    StatusesAreDocumented(Unexpected);
    FailuresReachClient(operation, 13);
  }

  // ---------- exactly which event leaks ----------

  lemma DeliverKeepsOthersNoLeak(s: State, initial: map<PartId, int>, c: nat, now: Time, o: OrderId)
    requires Inv(s, initial) && NoLeak(s) && c < |s.rpcs| && s.rpcs[c].answer == None
    requires o in s.claims && s.claims[o].key in s.keys
    requires Rejected(NextDeliver(s, c, now), o) && !Rejected(s, o)
    ensures !IsReserved(NextDeliver(s, c, now).db.ledger, o)
  {
    hide Fingerprint, TotalHeld, ValidItems, HashOf, ConfirmedOk, LineOk, Deduct, Restore, ReserveResult;
    hide ReleaseResult, Missing, Shortages, OrderOk, ValidRequest, DefiniteRejection, CreateResponseBody;
    hide SnapshotOf;
    var h := s.locks[s.claims[o].key];
    assert HandlerOk(s, h);
    assert s.handlers[h].pc == AwaitReserve(c);
    var msg := s.rpcs[c].msg;
    assert msg == ReserveMsg(o, s.handlers[h].job.request.items);
    DefiniteRejectionIsSound(s.db, o, msg.items, now);
  }

  lemma DeliverLeaksExactlyWhenLate(s: State, initial: map<PartId, int>, c: nat, now: Time)
    requires Inv(s, initial) && NoLeak(s)
    ensures NoLeak(NextDeliver(s, c, now)) <==> !LateReserve(s, Deliver(c, now))
  {
    hide Fingerprint, TotalHeld, ValidItems, HashOf, OrderOk, HandlerOk, DbInv, ReserveResult, ReleaseResult;
    hide ValidRequest, KeysOk, LocksOk, DefiniteRejection, Deduct, Restore;
    if c < |s.rpcs| && s.rpcs[c].answer == None {
      var t := NextDeliver(s, c, now);
      var msg := s.rpcs[c].msg;
      assert RpcOk(s, c);
      ServeExtends(s.db, CallOf(msg, now));
      if LateReserve(s, Deliver(c, now)) {
        assert IsReserved(t.db.ledger, msg.orderId);
        assert Rejected(t, msg.orderId);
      } else {
        forall o | o in t.claims && t.claims[o].key in t.keys && Rejected(t, o) ensures !IsReserved(t.db.ledger, o) {
          if !Rejected(s, o) {
            DeliverKeepsOthersNoLeak(s, initial, c, now, o);
          } else if o == msg.orderId && msg.ReserveMsg? {
            assert CanDeduct(s.db.parts, msg.items) <==>
              Missing(s.db.parts, msg.items) == [] && Shortages(s.db.parts, msg.items) == [];
          }
        }
      }
    }
  }

  /** What a step of handler h leaves alone: other handlers, their locks, and all answers. */
  predicate OnlyActs(s: State, t: State, h: nat) {
    && |t.handlers| == |s.handlers| && (forall j :: 0 <= j < |s.handlers| && j != h ==> t.handlers[j] == s.handlers[j])
    && |s.rpcs| <= |t.rpcs| && (forall c :: 0 <= c < |s.rpcs| ==> t.rpcs[c] == s.rpcs[c])
    && (forall c :: |s.rpcs| <= c < |t.rpcs| ==> t.rpcs[c].answer == None)
    && (forall k :: k in t.locks && t.locks[k] != h ==> k in s.locks && s.locks[k] == t.locks[k])
  }

  lemma FinishFrame(s: State, h: nat, outcome: Outcome)
    requires h < |s.handlers|
    ensures OnlyActs(s, Finish(s, h, outcome), h)
  {
  }

  lemma WithPcFrame(s: State, h: nat, pc: Pc, key: string)
    requires h < |s.handlers|
    ensures OnlyActs(s, WithPc(s, h, pc), h) && OnlyActs(s, WithPc(Unlocked(s, h), h, pc), h)
    ensures OnlyActs(s, LockedBy(WithPc(s, h, pc), h, key), h)
  {
  }

  lemma SendFrame(s: State, h: nat, msg: Message, pc: Pc, key: string)
    requires h < |s.handlers|
    ensures OnlyActs(s, Send(s, h, msg, pc), h) && OnlyActs(s, LockedBy(Send(s, h, msg, pc), h, key), h)
  {
  }

  lemma SelfFrame(s: State, h: nat)
    ensures OnlyActs(s, s, h)
  {
  }

  lemma UndoFrame(s: State, h: nat)
    requires h < |s.handlers| && s.handlers[h].job.Create?
    ensures OnlyActs(s, NextUndo(s, h), h)
  {
    hide OnlyActs, StoredFailure, Replay, WithPc, Finish, Send, LockedBy;
    var key := s.handlers[h].job.key;
    SelfFrame(s, h);
    if key in s.keys {
      FinishFrame(s, h, Replay(s, s.keys[key]));
      FinishFrame(s, h, Error(INTERNAL_FAILURE));
      SendFrame(s, h, ReleaseMsg(s.keys[key].orderId),
        AwaitRelease(|s.rpcs|, StoredFailure(s.keys[key].status, s.keys[key].body)), key);
    }
  }

  lemma BeginFrame(s: State, h: nat)
    requires h < |s.handlers| && s.handlers[h].job.Create?
    ensures OnlyActs(s, NextBegin(s, h), h)
  {
    hide OnlyActs, StoredFailure, Replay, WithPc, Finish, Send, LockedBy, FailedWith, HashOf;
    var Create(key, request) := s.handlers[h].job;
    SelfFrame(s, h);
    if key in s.keys {
      var entry := s.keys[key];
      FinishFrame(s, h, Replay(s, entry));
      FinishFrame(s, h, Error(KEY_CONFLICT));
      SendFrame(s, h, ReleaseMsg(entry.orderId), AwaitRelease(|s.rpcs|, StoredFailure(entry.status, entry.body)), key);
      SendFrame(s, h, ReserveMsg(entry.orderId, request.items), AwaitReserve(|s.rpcs|), key);
      WithPcFrame(s, h, Persisting(FailedWith(entry, CUSTOMER_NOT_FOUND), None, Error(CUSTOMER_NOT_FOUND)), key);
    }
  }

  lemma ReserveAnswerFrame(s: State, h: nat, answer: Answer, createdAt: Time, updatedAt: Time)
    requires h < |s.handlers| && s.handlers[h].job.Create? && s.handlers[h].job.key in s.keys
    ensures var t := NextReserveAnswer(s, h, answer, createdAt, updatedAt);
      OnlyActs(s, t, h)
      && (t.handlers[h].pc.Persisting? && t.handlers[h].pc.order == None ==> Holds(s, h) && DefiniteRejection(answer))
      && !t.handlers[h].pc.AwaitReserve?
  {
    hide CreateResponseBody, ReservationMatches, Snapshots, ReservedItems, ToApiError;
  }

  lemma OtherFrames(s: State, h: nat, a: Action)
    requires Enabled(s, h, a) && !a.BeginTx? && !a.BeginUndo? && !a.GetReserveAnswer?
    ensures OnlyActs(s, NextAct(s, h, a), h)
  {
    hide OnlyActs, StoredFailure, Replay, WithPc, Finish, Send, LockedBy, FailedWith, HashOf, ToApiError, Holds;
    SelfFrame(s, h);
    var Handler(job, pc) := s.handlers[h];
    match a
    case ClaimKey(o) => ClaimFrame(s, h, o);
    case GetReleaseAnswer =>
      var answer := s.rpcs[pc.rpc].answer.value;
      FinishFrame(s, h, Error(INTERNAL_FAILURE));
      WithPcFrame(s, h, CancelGranted, "");
      if !answer.Granted? { FinishFrame(s, h, Error(ToApiError(Some(GrpcStatusOf(answer)), ReleaseOp))); }
      if pc.AwaitRelease? && job.key in s.keys {
        WithPcFrame(s, h, Persisting(s.keys[job.key].(state := Failed), None, Error(pc.error)), "");
      }
    case RpcFails(status) =>
      FinishFrame(s, h, Error(if Holds(s, h) then ToApiError(Some(status), ReserveOp) else INTERNAL_FAILURE));
      FinishFrame(s, h, Error(INTERNAL_FAILURE));
      FinishFrame(s, h, Error(ToApiError(Some(status), ReleaseOp)));
    case Commit(acked) => CommitFrame(s, h, acked);
    case AbortTx => WithPcFrame(s, h, if pc.Persisting? then AfterException(pc.order) else pc, "");
    case MarkCompensating => MarkFrame(s, h);
    case ReadOrder =>
      var o := job.orderId;
      FinishFrame(s, h, Error(ORDER_NOT_FOUND));
      if o in s.orders { FinishFrame(s, h, Success(s.orders[o], false)); }
      SendFrame(s, h, ReleaseMsg(o), AwaitCancel(|s.rpcs|), "");
    case SaveCancel(at, updatedAt, acked) => SaveFrame(s, h, at, updatedAt, acked);
    case Crash => FinishFrame(s, h, Error(INTERNAL_FAILURE));
  }

  lemma ClaimFrame(s: State, h: nat, o: OrderId)
    requires h < |s.handlers| && s.handlers[h].job.Create?
    ensures OnlyActs(s, NextClaim(s, h, o), h)
  {
    hide HashOf;
  }

  lemma CommitFrame(s: State, h: nat, acked: bool)
    requires h < |s.handlers| && s.handlers[h].pc.Persisting? && s.handlers[h].job.Create?
    ensures OnlyActs(s, NextCommit(s, h, acked), h)
  {
  }

  lemma MarkFrame(s: State, h: nat)
    requires h < |s.handlers| && s.handlers[h].job.Create?
    ensures OnlyActs(s, NextMark(s, h), h)
  {
    hide Replay, FailedWith;
  }

  lemma SaveFrame(s: State, h: nat, at: Time, updatedAt: Time, acked: bool)
    requires h < |s.handlers| && s.handlers[h].job.Cancel?
    ensures OnlyActs(s, NextSave(s, h, at, updatedAt, acked), h)
  {
  }

  lemma ActFrame(s: State, h: nat, a: Action)
    requires Enabled(s, h, a)
    ensures OnlyActs(s, NextAct(s, h, a), h)
  {
    hide OnlyActs, NextBegin, NextUndo, NextReserveAnswer;
    match a
    case BeginTx => BeginFrame(s, h);
    case BeginUndo => UndoFrame(s, h);
    case GetReserveAnswer(createdAt, updatedAt) =>
      ReserveAnswerFrame(s, h, s.rpcs[s.handlers[h].pc.rpc].answer.value, createdAt, updatedAt);
    case _ => OtherFrames(s, h, a);
  }

  lemma BeginPc(s: State, h: nat)
    requires h < |s.handlers| && s.handlers[h].job.Create? && s.handlers[h].pc == WantKey
    ensures var Create(key, request) := s.handlers[h].job; var pc := NextBegin(s, h).handlers[h].pc;
      && (pc.AwaitReserve? ==> pc.rpc == |s.rpcs|)
      && (pc.Persisting? ==>
            && key in s.keys && s.keys[key].requestHash == HashOf(request)
            && request.customerId !in s.customers)
  {
    hide HashOf, Replay, StoredFailure, FailedWith, Unlocked, LockedBy;
  }

  lemma ReleaseAnswerPc(s: State, h: nat, answer: Answer)
    requires h < |s.handlers| && (s.handlers[h].pc.AwaitRelease? || s.handlers[h].pc.AwaitCancel?)
    ensures var pc := NextReleaseAnswer(s, h, answer).handlers[h].pc;
      && !pc.AwaitReserve?
      && (pc.Persisting? ==> s.handlers[h].job.Create? && s.handlers[h].pc.AwaitRelease? && Holds(s, h))
  {
    hide ToApiError, Holds, Unlocked;
  }

  lemma OtherPcs(s: State, h: nat, a: Action)
    requires Enabled(s, h, a) && !a.BeginTx? && !a.GetReserveAnswer? && !a.GetReleaseAnswer?
    ensures var t := NextAct(s, h, a);
      && h < |t.handlers|
      && (t.handlers[h].pc.AwaitReserve? || t.handlers[h].pc.Persisting? ==> t == s || a.AbortTx?)
  {
    hide NextClaim, NextMark, NextUndo, NextRead, NextSave, NextFailure, NextAbort, NextCommit, Finish;
    match a
    case ClaimKey(_) => ClaimPcs(s, h, a);
    case MarkCompensating => MarkPcs(s, h);
    case BeginUndo => MarkPcs(s, h);
    case RpcFails(_) => ClaimPcs(s, h, a);
    case AbortTx => AbortPcs(s, h);
    case Commit(acked) => AbortPcs(s, h);
    case _ => ClaimPcs(s, h, a);
  }

  lemma ClaimPcs(s: State, h: nat, a: Action)
    requires h < |s.handlers| && Enabled(s, h, a)
      && (a.ClaimKey? || a.RpcFails? || a.ReadOrder? || a.SaveCancel? || a.Crash?)
    ensures var t := NextAct(s, h, a);
      h < |t.handlers| && (t.handlers[h].pc.AwaitReserve? || t.handlers[h].pc.Persisting? ==> t == s)
  {
    hide HashOf, ToApiError, Finish, Holds;
  }

  lemma MarkPcs(s: State, h: nat)
    requires h < |s.handlers| && s.handlers[h].job.Create?
    ensures var t := NextMark(s, h);
      h < |t.handlers| && (t.handlers[h].pc.AwaitReserve? || t.handlers[h].pc.Persisting? ==> t == s)
    ensures var t := NextUndo(s, h);
      h < |t.handlers| && (t.handlers[h].pc.AwaitReserve? || t.handlers[h].pc.Persisting? ==> t == s)
  {
    hide Replay, StoredFailure, FailedWith, Finish, LockedBy, Send, WithPc;
  }

  lemma AbortPcs(s: State, h: nat)
    requires h < |s.handlers|
    ensures h < |NextAbort(s, h).handlers|
    ensures s.handlers[h].job.Create? && s.handlers[h].pc.Persisting? ==>
      forall acked :: var t := NextCommit(s, h, acked);
      h < |t.handlers| && (t.handlers[h].pc.AwaitReserve? || t.handlers[h].pc.Persisting? ==> t == s)
  {
    hide Holds;
  }

  /**
   A step of its own makes a handler about to fail its key only if the answer it had was already a
   rejection, or nothing is reserved.
   */
  lemma OwnRejection(s: State, initial: map<PartId, int>, h: nat, a: Action)
    requires Enabled(s, h, a) && s.handlers[h].job.Create? && s.handlers[h].job.key in s.keys
    requires var t := NextAct(s, h, a); var key := s.handlers[h].job.key;
      h < |t.handlers| && key in t.locks && t.locks[key] == h && AboutToFail(t, h)
    requires Inv(s, initial)
    ensures var key := s.handlers[h].job.key; var o := s.keys[key].orderId;
      || (key in s.locks && s.locks[key] == h && AboutToFail(s, h))
      || !IsReserved(s.db.ledger, o)
  {
    hide Inv, CreateOk, HashOf, ValidRequest, NextBegin, NextReserveAnswer, NextReleaseAnswer, NextAct;
    var t := NextAct(s, h, a);
    var Create(key, request) := s.handlers[h].job;
    ActFrame(s, h, a);
    OnlyWritersWrite(s, h, a);
    match a {
      case BeginTx =>
        assert t == NextBegin(s, h) by { ActIsBegin(s, h); }
        BeginPc(s, h);
        if t.handlers[h].pc.Persisting? { KeyFacts(s, initial, h); NoCustomerNoRow(s, s.keys[key].orderId); }
      case GetReserveAnswer(createdAt, updatedAt) =>
        assert t == NextReserveAnswer(s, h, s.rpcs[s.handlers[h].pc.rpc].answer.value, createdAt, updatedAt) by {
          ActIsAnswer(s, h, a);
        }
        ReserveAnswerFrame(s, h, s.rpcs[s.handlers[h].pc.rpc].answer.value, createdAt, updatedAt);
      case GetReleaseAnswer =>
        assert t == NextReleaseAnswer(s, h, s.rpcs[s.handlers[h].pc.rpc].answer.value) by { ActIsAnswer(s, h, a); }
        ReleaseAnswerPc(s, h, s.rpcs[s.handlers[h].pc.rpc].answer.value);
        JobsStay(s, h, a);
        if t.handlers[h].pc.Persisting? { ReleasingState(s, initial, h); }
      case AbortTx =>
        assert t.locks == Unlocked(s, h).locks by { ActIsAnswer(s, h, a); }
      case _ =>
        OtherPcs(s, h, a);
    }
  }

  lemma ActIsBegin(s: State, h: nat)
    requires Enabled(s, h, BeginTx)
    ensures NextAct(s, h, BeginTx) == NextBegin(s, h)
  {
  }

  lemma ActIsAnswer(s: State, h: nat, a: Action)
    requires Enabled(s, h, a)
    ensures a.GetReserveAnswer? ==>
      NextAct(s, h, a) == NextReserveAnswer(s, h, s.rpcs[s.handlers[h].pc.rpc].answer.value, a.createdAt, a.updatedAt)
    ensures a.GetReleaseAnswer? ==>
      NextAct(s, h, a) == NextReleaseAnswer(s, h, s.rpcs[s.handlers[h].pc.rpc].answer.value)
    ensures a.AbortTx? ==> NextAct(s, h, a).locks == Unlocked(s, h).locks
  {
    hide NextReserveAnswer, NextReleaseAnswer;
  }

  lemma NoCustomerNoRow(s: State, o: OrderId)
    requires o in s.claims && s.claims[o].key in s.keys && OrderOk(s, o)
      && s.claims[o].request.customerId !in s.customers
    ensures o !in s.db.ledger
  {
  }

  lemma ReleasingState(s: State, initial: map<PartId, int>, h: nat)
    requires h < |s.handlers| && s.handlers[h].job.Create? && s.handlers[h].pc.AwaitRelease? && Holds(s, h)
    requires Inv(s, initial)
    ensures s.handlers[h].job.key in s.keys && s.keys[s.handlers[h].job.key].state == Compensating
  {
    hide RpcOk, OrderOk, DbInv, HashOf, ValidRequest, StoredFailure;
    assert HandlerOk(s, h);
  }

  /** A commit that makes a key FAILED was about to fail it, or follows a release. */
  lemma CommitRejection(s: State, initial: map<PartId, int>, h: nat, acked: bool, k: string)
    requires h < |s.handlers| && s.handlers[h].job.Create? && s.handlers[h].pc.Persisting? && k in s.keys
    requires k in NextCommit(s, h, acked).keys && NextCommit(s, h, acked).keys[k].state == Failed
      && s.keys[k].state != Failed
    requires Inv(s, initial)
    ensures (k in s.locks && s.locks[k] == h && AboutToFail(s, h)) || !IsReserved(s.db.ledger, s.keys[k].orderId)
  {
    hide RpcOk, OrderOk, DbInv, HashOf, ValidRequest, StoredFailure, SnapshotOf, CreateResponseBody, KeysOk, LocksOk;
    assert HandlerOk(s, h);
  }

  lemma FailedOnlyByCommit(s: State, h: nat, a: Action, k: string)
    requires Enabled(s, h, a) && !a.Commit? && k in s.keys && s.keys[k].state != Failed
    ensures k in NextAct(s, h, a).keys ==> NextAct(s, h, a).keys[k].state != Failed
  {
    hide NextAct, HashOf;
    OnlyWritersWrite(s, h, a);
    ActIs(s, h, a);
  }

  /** The holder of a lock, other than the acting handler, is about to fail its key only if it was before. */
  lemma OthersRejection(s: State, t: State, initial: map<PartId, int>, h: nat, k: string)
    requires k in t.locks && t.locks[k] != h && t.locks[k] < |t.handlers| && AboutToFail(t, t.locks[k])
    requires OnlyActs(s, t, h) && k in s.keys && k in t.keys
      && (t.keys[k].state == InProgress ==> s.keys[k].state == InProgress)
    requires Inv(s, initial)
    ensures k in s.locks && s.locks[k] == t.locks[k] && s.locks[k] < |s.handlers| && AboutToFail(s, s.locks[k])
  {
    hide RpcOk, OrderOk, DbInv, HashOf, ValidRequest, StoredFailure, KeysOk, DefiniteRejection, PersistOk;
    var j := t.locks[k];
    assert HandlerOk(s, j);
  }

  lemma NoNewRejection(s: State, initial: map<PartId, int>, h: nat, a: Action, o: OrderId)
    requires Enabled(s, h, a) && o in s.claims && s.claims[o].key in s.keys
    requires IsReserved(s.db.ledger, o) && !Rejected(s, o)
    requires var t := NextAct(s, h, a); o in t.claims && t.claims[o] == s.claims[o] && t.claims[o].key in t.keys
    requires Inv(s, initial)
    ensures !Rejected(NextAct(s, h, a), o)
  {
    hide Inv, NextAct, NextCommit, AboutToFail, OnlyActs;
    var t := NextAct(s, h, a);
    var key := s.claims[o].key;
    ClaimOf(s, initial, o);
    ActFrame(s, h, a);
    KeyStep(s, initial, Act(h, a), key);
    assert Next(s, Act(h, a)) == t;
    if t.keys[key].state == Failed {
      ActIs(s, h, a);
      if a.Commit? { CommitRejection(s, initial, h, a.acked, key); } else { FailedOnlyByCommit(s, h, a, key); }
    } else if key in t.locks && t.locks[key] < |t.handlers| && AboutToFail(t, t.locks[key]) {
      if t.locks[key] != h {
        OthersRejection(s, t, initial, h, key);
      } else {
        ActKeeps(s, initial, h, a);
        LockHolder(s, t, initial, h, a, key);
        OwnRejection(s, initial, h, a);
      }
    }
  }

  lemma ClaimOf(s: State, initial: map<PartId, int>, o: OrderId)
    requires Inv(s, initial) && o in s.claims
    ensures s.claims[o].key in s.keys && s.keys[s.claims[o].key].orderId == o
  {
  }

  lemma LockHolder(s: State, t: State, initial: map<PartId, int>, h: nat, a: Action, k: string)
    requires Enabled(s, h, a) && t == NextAct(s, h, a) && k in t.locks && t.locks[k] == h
    requires Inv(t, initial)
    ensures s.handlers[h].job.Create? && s.handlers[h].job.key == k
  {
    hide NextAct, KeysOk, RpcOk, OrderOk, HandlerOk, DbInv;
    JobsStay(s, h, a);
  }

  lemma JobsStay(s: State, h: nat, a: Action)
    requires Enabled(s, h, a)
    ensures h < |NextAct(s, h, a).handlers| && NextAct(s, h, a).handlers[h].job == s.handlers[h].job
  {
    hide HashOf, Replay, StoredFailure, FailedWith, ToApiError, Unlocked, LockedBy, CreateResponseBody;
    hide ReservationMatches, Snapshots, ReservedItems, Holds, Finish, Send, WithPc;
  }

  lemma ActKeepsNoLeak(s: State, initial: map<PartId, int>, h: nat, a: Action)
    requires Enabled(s, h, a) && NoLeak(s)
    requires Inv(s, initial)
    ensures NoLeak(NextAct(s, h, a))
  {
    hide Inv, NextAct, Rejected, IsReserved;
    var t := NextAct(s, h, a);
    OnlyWritersWrite(s, h, a);
    ActIs(s, h, a);
    forall o | o in t.claims && t.claims[o].key in t.keys && Rejected(t, o) ensures !IsReserved(t.db.ledger, o) {
      if o in s.claims {
        ClaimOf(s, initial, o);
        ClaimsStay(s, h, a, o);
        if IsReserved(s.db.ledger, o) && !Rejected(s, o) { NoNewRejection(s, initial, h, a, o); }
      } else {
        UnclaimedHasNoRow(s, initial, o);
      }
    }
  }

  lemma ClaimsStay(s: State, h: nat, a: Action, o: OrderId)
    requires Enabled(s, h, a) && o in s.claims
    ensures o in NextAct(s, h, a).claims && NextAct(s, h, a).claims[o] == s.claims[o]
  {
    hide NextAct, HashOf, FailedWith, Replay, WithPc, Finish, Unlocked;
    OnlyWritersWrite(s, h, a);
    ActIs(s, h, a);
  }

  lemma UnclaimedHasNoRow(s: State, initial: map<PartId, int>, o: OrderId)
    requires Inv(s, initial) && o !in s.claims
    ensures !IsReserved(s.db.ledger, o)
  {
  }

  /**
   From any reachable state where no rejected order holds stock, an event keeps it so exactly
   when it is not the late delivery of a reserve that Inventory can still grant.
   */
  lemma LeaksExactlyWhenLate(s: State, initial: map<PartId, int>, e: Event)
    requires Inv(s, initial) && NoLeak(s)
    ensures NoLeak(Next(s, e)) <==> !LateReserve(s, e)
  {
    hide Inv, NextAct, NextDeliver, ValidOrderItems, NormalizeItems, Enabled;
    match e
    case Deliver(c, now) => DeliverLeaksExactlyWhenLate(s, initial, c, now);
    case Act(h, a) => if Enabled(s, h, a) { ActKeepsNoLeak(s, initial, h, a); }
    case StartCreate(_, _, _) => MoreHandlers(s, initial, Next(s, e));
    case StartCancel(_) => MoreHandlers(s, initial, Next(s, e));
    case AddCustomer(_) => MoreHandlers(s, initial, Next(s, e));
  }

  lemma MoreHandlers(s: State, initial: map<PartId, int>, t: State)
    requires NoLeak(s) && |s.handlers| <= |t.handlers|
      && (forall j :: 0 <= j < |s.handlers| ==> t.handlers[j] == s.handlers[j])
    requires t.keys == s.keys && t.claims == s.claims && t.db == s.db && t.locks == s.locks && t.rpcs == s.rpcs
    requires Inv(s, initial)
    ensures NoLeak(t)
  {
    hide KeysOk, RpcOk, OrderOk, HandlerOk, DbInv, DefiniteRejection;
    forall o | o in t.claims && t.claims[o].key in t.keys && Rejected(t, o) ensures !IsReserved(t.db.ledger, o) {
      assert Rejected(s, o);
    }
  }

  // ---------- runs ----------

  predicate NoLateReserve(s: State, es: seq<Event>) {
    forall i :: 0 <= i < |es| ==> !LateReserve(After(s, es[..i]), es[i])
  }

  lemma {:induction false} NoLeakAlways(s: State, initial: map<PartId, int>, es: seq<Event>)
    requires Inv(s, initial) && NoLeak(s) && NoLateReserve(s, es)
    ensures NoLeak(After(s, es))
  {
    hide Inv, Next, LateReserve, NoLeak;
    if es != [] {
      var before := es[..|es| - 1];
      forall i | 0 <= i < |before| ensures !LateReserve(After(s, before[..i]), before[i]) {
        assert before[..i] == es[..i] && before[i] == es[i];
      }
      NoLeakAlways(s, initial, before);
      InvariantAlways(s, initial, before);
      LeaksExactlyWhenLate(After(s, before), initial, es[|es| - 1]);
    }
  }

  // ---------- global conservation ----------

  function ViewItems(order: OrderView): seq<Item> {
    seq(|order.items|, i requires 0 <= i < |order.items| => Item(order.items[i].partId, order.items[i].quantity))
  }

  /** Units of p that order o has sold: those of a CONFIRMED order. */
  function SoldBy(s: State, p: PartId): OrderId -> int {
    o => if o in s.orders && s.orders[o].status == CONFIRMED then QuantityOf(ViewItems(s.orders[o]), p) else 0
  }

  /** Units of p held for a create that FAILED. */
  function LeakedBy(s: State, p: PartId): OrderId -> int {
    o => if o in s.claims && s.claims[o].key in s.keys && StateOf(s, o) == Failed && IsReserved(s.db.ledger, o)
         then QuantityOf(Items(s.db.ledger[o]), p) else 0
  }

  /** No create is undecided and no cancel is half done. */
  ghost predicate Settled(s: State) {
    && (forall k :: k in s.keys ==> Final(s.keys[k].state))
    && (forall o :: o in s.orders && s.orders[o].status == CONFIRMED ==> !IsReleased(s.db.ledger, o))
  }

  lemma HeldIsSoldOrLeaked(s: State, initial: map<PartId, int>, o: OrderId, p: PartId)
    requires Inv(s, initial) && Settled(s) && o in s.claims
    ensures HeldIn(s.db.ledger, p)(o) == SoldBy(s, p)(o) + LeakedBy(s, p)(o)
  {
    hide HandlerOk, RpcOk, DbInv, HashOf, ValidRequest, CreateResponseBody, QuantityOf;
    assert OrderOk(s, o);
    if o in s.orders && o in s.db.ledger {
      assert SnapshotOf(s.originals[o], s.db.ledger[o]);
      assert ViewItems(s.orders[o]) == Items(s.db.ledger[o]);
    }
  }

  /**
   In every settled reachable state, late deliveries included: the units of p missing from
   Inventory are those sold by CONFIRMED orders plus those leaked to FAILED creates.
   */
  lemma StockIsSoldOrLeaked(s: State, initial: map<PartId, int>, p: PartId)
    requires Inv(s, initial) && Settled(s) && p in initial
    ensures p in s.db.parts
    ensures initial[p] - s.db.parts[p].stock == Sum(s.orders.Keys, SoldBy(s, p)) + Sum(s.claims.Keys, LeakedBy(s, p))
  {
    hide HandlerOk, RpcOk, OrderOk, HashOf, ValidRequest, OperationOk, Sum, Settled;
    var orders := s.claims.Keys;
    forall o | o in orders ensures HeldIn(s.db.ledger, p)(o) == SoldBy(s, p)(o) + LeakedBy(s, p)(o) {
      HeldIsSoldOrLeaked(s, initial, o, p);
    }
    SumAdd(orders, SoldBy(s, p), LeakedBy(s, p), HeldIn(s.db.ledger, p));
    SumExtend(s.db.ledger.Keys, orders, HeldIn(s.db.ledger, p));
    SumExtend(s.orders.Keys, orders, SoldBy(s, p));
  }

  /**
   Global conservation over every run without a late reserve: once settled, initial stock minus
   current stock is what the CONFIRMED orders sold, for every part, whatever was retried, lost,
   repeated or crashed.
   */
  lemma GlobalConservation(s: State, es: seq<Event>, p: PartId)
    requires Initial(s) && p in s.db.parts && NoLateReserve(s, es) && Settled(After(s, es))
    ensures var t := After(s, es);
      p in t.db.parts && s.db.parts[p].stock - t.db.parts[p].stock == Sum(t.orders.Keys, SoldBy(t, p))
  {
    hide Inv, Next, LateReserve, NoLateReserve, Sum, Settled;
    var initial := StockOf(s.db.parts);
    var t := After(s, es);
    InitialOk(s);
    InvariantAlways(s, initial, es);
    NoLeakAlways(s, initial, es);
    StockIsSoldOrLeaked(t, initial, p);
    forall o | o in t.claims ensures LeakedBy(t, p)(o) == 0 {}
    SumZero(t.claims.Keys, LeakedBy(t, p));
  }

  // ---------- if a reserve takes effect while its caller holds the key, or never ----------

  /** A reserve is delivered only while its caller still holds its key's lock and waits for it. */
  predicate Prompt(s: State, e: Event) {
    e.Deliver? && e.rpc < |s.rpcs| && s.rpcs[e.rpc].answer == None && s.rpcs[e.rpc].msg.ReserveMsg? ==>
      exists h :: 0 <= h < |s.handlers| && Holds(s, h) && s.handlers[h].pc == AwaitReserve(e.rpc)
  }

  lemma PromptIsNeverLate(s: State, initial: map<PartId, int>, e: Event)
    requires Inv(s, initial) && Prompt(s, e)
    ensures !LateReserve(s, e)
  {
    hide OrderOk, RpcOk, DbInv, HashOf, ValidRequest, CanDeduct;
    if h :| e.Deliver? && 0 <= h < |s.handlers| && Holds(s, h) && s.handlers[h].pc == AwaitReserve(e.rpc) {
      assert HandlerOk(s, h);
    }
  }

  /**
   If each reserve is served while its caller holds its key's lock and waits for it, or never, stock
   is conserved whatever else is retried, lost or crashes. A caller that waits without the lock,
   its transaction gone, is not enough: see `AbandonedReserveLosesStock`.
   */
  lemma PromptConservation(s: State, es: seq<Event>, p: PartId)
    requires Initial(s) && p in s.db.parts && Settled(After(s, es))
    requires forall i :: 0 <= i < |es| ==> Prompt(After(s, es[..i]), es[i])
    ensures var t := After(s, es);
      p in t.db.parts && s.db.parts[p].stock - t.db.parts[p].stock == Sum(t.orders.Keys, SoldBy(t, p))
  {
    hide Inv, Next, LateReserve, Prompt, Sum, Settled;
    InitialOk(s);
    forall i | 0 <= i < |es| ensures !LateReserve(After(s, es[..i]), es[i]) {
      InvariantAlways(s, StockOf(s.db.parts), es[..i]);
      PromptIsNeverLate(After(s, es[..i]), StockOf(s.db.parts), es[i]);
    }
    GlobalConservation(s, es, p);
  }

  // ---------- a leak is for ever ----------

  ghost predicate Leaked(s: State, o: OrderId) {
    o in s.claims && s.claims[o].key in s.keys && StateOf(s, o) == Failed && IsReserved(s.db.ledger, o)
  }

  lemma LeakStep(s: State, initial: map<PartId, int>, e: Event, o: OrderId)
    requires Inv(s, initial) && Leaked(s, o)
    ensures Leaked(Next(s, e), o)
  {
    hide Serve, NextAct, HandlerOk, OrderOk, DbInv, HashOf, ValidRequest, NormalizeItems, ValidOrderItems;
    hide KeysOk, LocksOk;
    KeyStep(s, initial, e, s.claims[o].key);
    match e
    case Act(h, a) =>
      if Enabled(s, h, a) {
        OnlyWritersWrite(s, h, a);
        ClaimsStay(s, h, a, o);
      }
    case Deliver(c, now) =>
      if c < |s.rpcs| && s.rpcs[c].answer == None {
        assert RpcOk(s, c);
        ServeExtends(s.db, CallOf(s.rpcs[c].msg, now));
        if s.rpcs[c].msg.orderId == o { ReserveKeepsRow(s.db, s.rpcs[c].msg, now); }
      }
    case _ =>
  }

  lemma ReserveKeepsRow(db: Db, msg: Message, now: Time)
    requires msg.ReserveMsg? && msg.orderId in db.ledger
    ensures Serve(db, CallOf(msg, now)).0 == db
  {
  }

  /** No event ever releases the stock reserved for a FAILED create: no retry, no cancel, no message in flight. */
  lemma {:induction false} LeakIsForEver(s: State, initial: map<PartId, int>, es: seq<Event>, o: OrderId)
    requires Inv(s, initial) && Leaked(s, o)
    ensures Leaked(After(s, es), o)
  {
    hide Inv, Next, Leaked;
    if es != [] {
      var before := es[..|es| - 1];
      LeakIsForEver(s, initial, before, o);
      InvariantAlways(s, initial, before);
      LeakStep(After(s, before), initial, es[|es| - 1], o);
    }
  }

  // ---------- exactly which runs lose stock ----------

  /** A reserve that Inventory grants although its order's key is FAILED. */
  predicate GrantedTooLate(s: State, e: Event, o: OrderId)
    requires o in s.claims && s.claims[o].key in s.keys
  {
    && e.Deliver? && e.rpc < |s.rpcs| && s.rpcs[e.rpc].answer == None && s.rpcs[e.rpc].msg.ReserveMsg?
    && s.rpcs[e.rpc].msg.orderId == o && StateOf(s, o) == Failed
    && o !in s.db.ledger && CanDeduct(s.db.parts, s.rpcs[e.rpc].msg.items)
  }

  /** A rejection recorded although a reserve of its order has been granted since it was answered. */
  predicate RecordedTooLate(s: State, e: Event, o: OrderId)
    requires o in s.claims && s.claims[o].key in s.keys
  {
    && e.Act? && e.action.Commit? && Holds(s, e.h) && s.handlers[e.h].job.key == s.claims[o].key
    && s.handlers[e.h].pc.Persisting? && s.handlers[e.h].pc.order == None
    && StateOf(s, o) == InProgress && IsReserved(s.db.ledger, o)
  }

  /** The two events that lose the stock of order o. */
  predicate Loses(s: State, e: Event, o: OrderId) {
    o in s.claims && s.claims[o].key in s.keys && (GrantedTooLate(s, e, o) || RecordedTooLate(s, e, o))
  }

  lemma DeliveryLoses(s: State, initial: map<PartId, int>, c: nat, now: Time, o: OrderId)
    requires Inv(s, initial) && !Leaked(s, o)
    ensures Leaked(NextDeliver(s, c, now), o) <==> Loses(s, Deliver(c, now), o)
  {
    hide HandlerOk, OrderOk, DbInv, HashOf, ValidRequest, LocksOk, KeysOk, Fingerprint, Deduct, Restore;
    hide ReserveResult, ReleaseResult, Items;
    hide IsLowerUuid;
    if c < |s.rpcs| && s.rpcs[c].answer == None {
      var msg := s.rpcs[c].msg;
      assert RpcOk(s, c);
      ServeExtends(s.db, CallOf(msg, now));
      if msg.ReserveMsg? && msg.orderId !in s.db.ledger { GrantedIffCanDeduct(s.db, msg.orderId, msg.items, now); }
    }
  }

  lemma GrantedIffCanDeduct(db: Db, o: OrderId, items: seq<Item>, now: Time)
    requires o !in db.ledger
    ensures IsReserved(Reserve(db, o, items, now).0.ledger, o) <==> CanDeduct(db.parts, items)
  {
    hide Fingerprint, Deduct, ReserveResult;
  }

  lemma StepLoses(s: State, initial: map<PartId, int>, h: nat, a: Action, o: OrderId)
    requires Enabled(s, h, a) && !Leaked(s, o)
    requires Inv(s, initial)
    ensures Leaked(NextAct(s, h, a), o) <==> Loses(s, Act(h, a), o)
  {
    hide Inv, NextAct, NextCommit, IsReserved;
    var t := NextAct(s, h, a);
    OnlyWritersWrite(s, h, a);
    ActIs(s, h, a);
    if o in s.claims {
      ClaimOf(s, initial, o);
      ClaimsStay(s, h, a, o);
      var key := s.claims[o].key;
      KeyStep(s, initial, Act(h, a), key);
      assert Next(s, Act(h, a)) == t;
      if a.Commit? { CommitLoses(s, initial, h, a.acked, o); }
      else if s.keys[key].state != Failed { FailedOnlyByCommit(s, h, a, key); }
    } else {
      UnclaimedHasNoRow(s, initial, o);
    }
  }

  lemma CommitLoses(s: State, initial: map<PartId, int>, h: nat, acked: bool, o: OrderId)
    requires h < |s.handlers| && s.handlers[h].job.Create? && s.handlers[h].pc.Persisting?
    requires o in s.claims && s.claims[o].key in s.keys && !Leaked(s, o)
    requires Inv(s, initial)
    ensures Leaked(NextCommit(s, h, acked), o) <==> RecordedTooLate(s, Act(h, Commit(acked)), o)
  {
    hide RpcOk, OrderOk, DbInv, HashOf, ValidRequest, StoredFailure, SnapshotOf, CreateResponseBody, LocksOk;
    hide IsLowerUuid;
    assert HandlerOk(s, h);
  }

  /** An event makes o lose its stock for ever exactly when it is one of the two. */
  lemma LossIsExact(s: State, initial: map<PartId, int>, e: Event, o: OrderId)
    requires Inv(s, initial)
    ensures Leaked(Next(s, e), o) <==> Leaked(s, o) || Loses(s, e, o)
  {
    hide Inv, NextAct, NextDeliver, ValidOrderItems, NormalizeItems, Enabled, Leaked;
    if Leaked(s, o) {
      LeakStep(s, initial, e, o);
    } else {
      match e
      case Deliver(c, now) => DeliveryLoses(s, initial, c, now, o);
      case Act(h, a) => if Enabled(s, h, a) { StepLoses(s, initial, h, a, o); } else { OnlyPersistersLose(s, h, a, o); }
      case _ => SameLeaks(s, Next(s, e), o);
    }
  }

  lemma OnlyPersistersLose(s: State, h: nat, a: Action, o: OrderId)
    requires !Enabled(s, h, a)
    ensures !Loses(s, Act(h, a), o)
  {
  }

  lemma SameLeaks(s: State, t: State, o: OrderId)
    requires t.keys == s.keys && t.claims == s.claims && t.db == s.db
    ensures Leaked(t, o) <==> Leaked(s, o)
  {
  }

  /** Some event of the run loses the stock of o. */
  ghost predicate LosesIn(s: State, es: seq<Event>, o: OrderId) {
    exists i :: 0 <= i < |es| && Loses(After(s, es[..i]), es[i], o)
  }

  lemma LosesSnoc(s: State, es: seq<Event>, o: OrderId)
    requires es != []
    ensures LosesIn(s, es, o) <==> LosesIn(s, es[..|es| - 1], o) || Loses(After(s, es[..|es| - 1]), es[|es| - 1], o)
  {
    hide After, Loses;
    var before := es[..|es| - 1];
    assert forall i :: 0 <= i < |before| ==> before[..i] == es[..i] && before[i] == es[i];
    if i :| 0 <= i < |es| && Loses(After(s, es[..i]), es[i], o) {
      if i < |before| { assert Loses(After(s, before[..i]), before[i], o); }
    }
    if i :| 0 <= i < |before| && Loses(After(s, before[..i]), before[i], o) {
      assert Loses(After(s, es[..i]), es[i], o);
    }
  }

  lemma {:induction false} LossOverRuns(s: State, initial: map<PartId, int>, es: seq<Event>, o: OrderId)
    requires Inv(s, initial)
    ensures Leaked(After(s, es), o) <==> Leaked(s, o) || LosesIn(s, es, o)
  {
    hide Inv, Next, Leaked, Loses, LosesIn;
    if es == [] {
      assert !LosesIn(s, es, o) by { NothingLosesInNothing(s, o); }
    } else {
      var before := es[..|es| - 1];
      LossOverRuns(s, initial, before, o);
      InvariantAlways(s, initial, before);
      LossIsExact(After(s, before), initial, es[|es| - 1], o);
      LosesSnoc(s, es, o);
    }
  }

  lemma NothingLosesInNothing(s: State, o: OrderId)
    ensures !LosesIn(s, [], o)
  {
  }

  /** Stock missing from Inventory is what CONFIRMED orders sold, for every part. */
  ghost predicate Conserved(s: State, initial: map<PartId, int>) {
    forall p :: p in initial ==> p in s.db.parts && initial[p] - s.db.parts[p].stock == Sum(s.orders.Keys, SoldBy(s, p))
  }

  /** An order that holds leaked stock holds some of a part. */
  lemma LeakIsOfSomePart(s: State, initial: map<PartId, int>, o: OrderId) returns (p: PartId)
    requires Inv(s, initial) && Leaked(s, o)
    ensures p in initial && LeakedBy(s, p)(o) > 0
  {
    hide HandlerOk, RpcOk, OrderOk, KeysOk, LocksOk, HashOf, ValidRequest, TotalHeld, LineOk, IsUuid;
    hide Fingerprint, QuantityOf;
    var op := s.db.ledger[o];
    assert OperationOk(op, s.db.parts.Keys);
    var items := Items(op);
    assert ValidItem(items[0]);
    p := items[0].partId;
    assert p == op.lines[0].partId;
    QuantityPresent(items, 0);
  }

  /** In a settled reachable state, stock is conserved exactly when no order has leaked. */
  lemma ConservedIffNothingLeaked(s: State, initial: map<PartId, int>)
    requires Inv(s, initial) && Settled(s)
    ensures Conserved(s, initial) <==> forall o :: !Leaked(s, o)
  {
    hide Inv, Settled, Sum;
    forall p | p in initial
      ensures p in s.db.parts
      ensures initial[p] - s.db.parts[p].stock == Sum(s.orders.Keys, SoldBy(s, p)) + Sum(s.claims.Keys, LeakedBy(s, p))
    {
      StockIsSoldOrLeaked(s, initial, p);
    }
    if o :| Leaked(s, o) {
      var p := LeakIsOfSomePart(s, initial, o);
      SumAtLeast(s.claims.Keys, LeakedBy(s, p), o);
    } else {
      forall p | p in initial ensures Sum(s.claims.Keys, LeakedBy(s, p)) == 0 {
        forall o | o in s.claims ensures LeakedBy(s, p)(o) == 0 { assert !Leaked(s, o); }
        SumZero(s.claims.Keys, LeakedBy(s, p));
      }
    }
  }

  /**
   The exact condition of global conservation: for every run from the start that ends settled, the
   stock missing from Inventory is what the CONFIRMED orders sold, for every part, if and only if
   no event of the run is one of the two that lose stock.
   */
  lemma ConservationIsExact(s: State, es: seq<Event>)
    requires Initial(s) && Settled(After(s, es))
    ensures Conserved(After(s, es), StockOf(s.db.parts)) <==> forall o :: !LosesIn(s, es, o)
  {
    hide Inv, Next, Leaked, LosesIn, Settled, Conserved;
    var initial := StockOf(s.db.parts);
    InitialOk(s);
    InvariantAlways(s, initial, es);
    ConservedIffNothingLeaked(After(s, es), initial);
    forall o ensures Leaked(After(s, es), o) <==> LosesIn(s, es, o) {
      LossOverRuns(s, initial, es, o);
      assert !Leaked(s, o) by { NothingLeakedAtStart(s, o); }
    }
  }

  lemma NothingLeakedAtStart(s: State, o: OrderId)
    requires Initial(s)
    ensures !Leaked(s, o)
  {
  }

  // ---------- compensation gives the stock back ----------

  /** The key of an order being compensated, or whose compensation has ended with its stock released. */
  ghost predicate Compensated(s: State, k: string) {
    && k in s.keys
    && (s.keys[k].state == Compensating || (s.keys[k].state == Failed && IsReleased(s.db.ledger, s.keys[k].orderId)))
  }

  lemma LedgerOnlyGrows(s: State, e: Event)
    ensures LedgerExtends(s.db.ledger, Next(s, e).db.ledger)
  {
    hide Next, Serve, SameReservation;
    DbStep(s, e);
    LedgerReflexive(s.db.ledger);
    if e.Deliver? && e.rpc < |s.rpcs| { ServeExtends(s.db, CallOf(s.rpcs[e.rpc].msg, e.now)); }
  }

  lemma CompensatingHasRow(s: State, initial: map<PartId, int>, k: string)
    requires k in s.keys && s.keys[k].state == Compensating
    requires Inv(s, initial)
    ensures s.keys[k].orderId in s.db.ledger
  {
    hide HandlerOk, RpcOk, DbInv, HashOf, ValidRequest, IsLowerUuid, ConfirmedOk;
    assert OrderOk(s, s.keys[k].orderId);
  }

  /** A COMPENSATING key becomes FAILED only once its order's stock is released. */
  lemma FailedOnceReleased(s: State, initial: map<PartId, int>, e: Event, k: string)
    requires k in s.keys && s.keys[k].state == Compensating
    requires k in Next(s, e).keys && Next(s, e).keys[k].state == Failed
    requires Inv(s, initial)
    ensures IsReleased(s.db.ledger, s.keys[k].orderId)
  {
    hide Inv, NextAct, NextCommit, NextDeliver, ValidOrderItems, NormalizeItems;
    if e.Act? && Enabled(s, e.h, e.action) {
      ActIs(s, e.h, e.action);
      CompensatingHasRow(s, initial, k);
      if e.action.Commit? {
        CommitRejection(s, initial, e.h, e.action.acked, k);
        if k in s.locks && s.locks[k] == e.h { LockedKeyIsOwn(s, initial, k); }
      } else {
        FailedOnlyByCommit(s, e.h, e.action, k);
      }
    } else {
      KeysOnlyByActs(s, e);
    }
  }

  lemma LockedKeyIsOwn(s: State, initial: map<PartId, int>, k: string)
    requires k in s.locks
    requires Inv(s, initial)
    ensures s.locks[k] < |s.handlers| && s.handlers[s.locks[k]].job.Create? && s.handlers[s.locks[k]].job.key == k
  {
    hide KeysOk, OrderOk, RpcOk, HandlerOk, DbInv;
  }

  lemma KeysOnlyByActs(s: State, e: Event)
    ensures !e.Act? || !Enabled(s, e.h, e.action) ==> Next(s, e).keys == s.keys
  {
    hide Serve, NextAct, ValidOrderItems, NormalizeItems, Enabled;
  }

  lemma CompensationStep(s: State, initial: map<PartId, int>, e: Event, k: string)
    requires Inv(s, initial) && Compensated(s, k)
    ensures Compensated(Next(s, e), k)
  {
    hide Inv, Next;
    KeyStep(s, initial, e, k);
    LedgerOnlyGrows(s, e);
    ReleasedStays(s.db.ledger, Next(s, e).db.ledger, s.keys[k].orderId);
    if s.keys[k].state == Compensating && Next(s, e).keys[k].state == Failed { FailedOnceReleased(s, initial, e, k); }
  }

  /**
   Whatever happens to a key once it is COMPENSATING, late deliveries, crashes and retries included:
   it stays so, or it is FAILED and the stock of its order is released.
   */
  lemma {:induction false} CompensationReleases(s: State, initial: map<PartId, int>, es: seq<Event>, k: string)
    requires Inv(s, initial) && Compensated(s, k)
    ensures Compensated(After(s, es), k)
  {
    hide Inv, Next, Compensated;
    if es != [] {
      var before := es[..|es| - 1];
      CompensationReleases(s, initial, before, k);
      InvariantAlways(s, initial, before);
      CompensationStep(After(s, before), initial, es[|es| - 1], k);
    }
  }
}
