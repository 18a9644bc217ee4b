/**
 From any reachable state, one undisturbed retry settles a create, and one undisturbed
 cancel settles a cancellation, whatever earlier attempts left behind.
 */
module Convergence {
  import opened Identifiers
  import opened Canonical
  import opened Errors
  import opened Stock
  import opened StockRuns
  import opened Saga
  import opened SagaInvariant
  import opened SagaTheorems
  import opened SagaConservation

  /** `Next` for one event after another; an event that is not possible does nothing. */
  lemma AfterSnoc(s: State, es: seq<Event>, e: Event)
    ensures After(s, es + [e]) == Next(After(s, es), e)
  {
    hide Next;
    assert (es + [e])[..|es|] == es;
  }

  lemma {:induction false} AfterConcat(s: State, a: seq<Event>, b: seq<Event>)
    ensures After(s, a + b) == After(After(s, a), b)
  {
    hide Next;
    if b == [] {
      assert a + b == a;
    } else {
      assert (a + b)[..|a + b| - 1] == a + b[..|b| - 1];
      AfterConcat(s, a, b[..|b| - 1]);
    }
  }

  lemma AfterOne(s: State, e: Event)
    ensures After(s, [e]) == Next(s, e)
  {
    hide Next;
    assert [e][..0] == [];
  }

  /** If a dead transaction still holds the key's lock, its timeout comes first. */
  function FreeKey(s: State, key: string): seq<Event> {
    if key in s.locks then [Act(s.locks[key], AbortTx)] else []
  }

  /** A create by handler h whose RPC, if it sends one, is number c and is delivered; nothing fails. */
  function CreateEvents(h: nat, c: nat, freshId: OrderId, now: Time, createdAt: Time, updatedAt: Time): seq<Event> {
    [Act(h, ClaimKey(freshId)), Act(h, BeginTx), Deliver(c, now),
     Act(h, GetReserveAnswer(createdAt, updatedAt)), Act(h, GetReleaseAnswer), Act(h, Commit(true))]
  }

  predicate At(s: State, h: nat, job: Job, pc: Pc) {
    h < |s.handlers| && s.handlers[h] == Handler(job, pc)
  }

  lemma FreeKeyFrees(s: State, initial: map<PartId, int>, key: string)
    requires Inv(s, initial)
    ensures var t := After(s, FreeKey(s, key));
      && key !in t.locks && SameStored(s, t) && |t.handlers| == |s.handlers| && t.rpcs == s.rpcs
  {
    hide KeysOk, RpcOk, OrderOk, HandlerOk, DbInv;
    if key in s.locks {
      AfterOne(s, Act(s.locks[key], AbortTx));
    }
  }

  // ---------- one create, step by step ----------

  /** The create's answer says how its key ended. */
  ghost predicate Settles(t: State, h: nat, key: string, request: Request) {
    && key in t.keys && h < |t.handlers|
    && (t.keys[key].requestHash == HashOf(request) ==>
          && Final(t.keys[key].state) && t.handlers[h].pc.Done?
          && match t.handlers[h].pc.result
             case Success(order, _) =>
               && t.keys[key].state == Confirmed && t.keys[key].orderId in t.originals
               && order == t.originals[t.keys[key].orderId]
             case Error(error) =>
               && t.keys[key].state == Failed
               && error == StoredFailure(t.keys[key].status, t.keys[key].body))
    && (t.keys[key].requestHash != HashOf(request) ==> t.handlers[h].pc == Done(Error(KEY_CONFLICT)))
  }

  lemma CommitSettles(s: State, initial: map<PartId, int>, h: nat)
    requires h < |s.handlers| && s.handlers[h].job.Create? && s.handlers[h].pc.Persisting?
    requires Inv(s, initial)
    ensures Settles(NextCommit(s, h, true), h, s.handlers[h].job.key, s.handlers[h].job.request)
  {
    hide RpcOk, OrderOk, DbInv, HashOf, ValidRequest, KeysOk, LocksOk, SnapshotOf, CreateResponseBody;
    hide StoredFailure, FailedWith;
    assert HandlerOk(s, h);
  }

  /** Once a handler is done, the rest of its create does nothing. */
  lemma DoneStays(s: State, h: nat, c: nat, now: Time, createdAt: Time, updatedAt: Time)
    requires h < |s.handlers| && s.handlers[h].pc.Done? && |s.rpcs| <= c
    ensures After(s, [Deliver(c, now), Act(h, GetReserveAnswer(createdAt, updatedAt)), Act(h, GetReleaseAnswer),
      Act(h, Commit(true))]) == s
  {
    var es := [Deliver(c, now), Act(h, GetReserveAnswer(createdAt, updatedAt)), Act(h, GetReleaseAnswer),
      Act(h, Commit(true))];
    Idle(s, h);
    assert Next(s, es[0]) == s && Next(s, es[1]) == s && Next(s, es[2]) == s && Next(s, es[3]) == s;
    StayPut(s, es);
  }

  lemma Idle(s: State, h: nat)
    requires h < |s.handlers| && s.handlers[h].pc.Done?
    ensures forall createdAt, updatedAt :: !Enabled(s, h, GetReserveAnswer(createdAt, updatedAt))
    ensures !Enabled(s, h, GetReleaseAnswer) && !Enabled(s, h, Commit(true))
  {
  }

  lemma {:induction false} StayPut(s: State, es: seq<Event>)
    requires forall i :: 0 <= i < |es| ==> Next(s, es[i]) == s
    ensures After(s, es) == s
  {
    hide Next;
    if es != [] {
      var before := es[..|es| - 1];
      assert forall i :: 0 <= i < |before| ==> before[i] == es[i];
      StayPut(s, before);
    }
  }

  lemma FourEvents(s: State, e0: Event, e1: Event, e2: Event, e3: Event)
    ensures After(s, [e0, e1, e2, e3]) == Next(Next(Next(Next(s, e0), e1), e2), e3)
  {
    hide Next;
    AfterOne(s, e0);
    AfterSnoc(s, [e0], e1);
    AfterSnoc(s, [e0, e1], e2);
    AfterSnoc(s, [e0, e1, e2], e3);
    assert [e0] + [e1] == [e0, e1] && [e0, e1] + [e2] == [e0, e1, e2] && [e0, e1, e2] + [e3] == [e0, e1, e2, e3];
  }

  /** A handler ready to commit commits. */
  lemma PersistingSettles(
    s: State, initial: map<PartId, int>, h: nat, c: nat, now: Time, createdAt: Time, updatedAt: Time)
    requires h < |s.handlers| && s.handlers[h].job.Create? && s.handlers[h].pc.Persisting? && |s.rpcs| <= c
    requires Inv(s, initial)
    ensures Settles(
      After(s, [Deliver(c, now), Act(h, GetReserveAnswer(createdAt, updatedAt)), Act(h, GetReleaseAnswer),
        Act(h, Commit(true))]),
      h, s.handlers[h].job.key, s.handlers[h].job.request)
  {
    hide Inv, NextCommit, Settles;
    FourEvents(s, Deliver(c, now), Act(h, GetReserveAnswer(createdAt, updatedAt)), Act(h, GetReleaseAnswer),
      Act(h, Commit(true)));
    CommitSettles(s, initial, h);
  }

  lemma ServeReserve(db: Db, o: OrderId, items: seq<Item>, now: Time)
    ensures Serve(db, CallOf(ReserveMsg(o, items), now)) == Reserve(db, o, items, now)
  {
    hide Reserve;
  }

  lemma DeliverIs(s: State, c: nat, now: Time)
    requires c < |s.rpcs| && s.rpcs[c].answer == None
    ensures var t := NextDeliver(s, c, now);
      && t.handlers == s.handlers && t.locks == s.locks && t.keys == s.keys && t.orders == s.orders
      && |t.rpcs| == |s.rpcs|
      && t.db == Serve(s.db, CallOf(s.rpcs[c].msg, now)).0
      && t.customers == s.customers && t.rpcs[c].msg == s.rpcs[c].msg
      && t.rpcs[c].answer == Some(Serve(s.db, CallOf(s.rpcs[c].msg, now)).1)
  {
    hide Serve;
  }

  lemma ServeRelease(db: Db, o: OrderId, now: Time)
    ensures Serve(db, CallOf(ReleaseMsg(o), now)) == Release(db, o, now)
  {
    hide Release;
  }

  lemma DeliveredAnswer(s: State, initial: map<PartId, int>, c: nat, now: Time)
    requires c < |s.rpcs| && s.rpcs[c].answer == None
    requires Inv(s, initial)
    ensures var t := NextDeliver(s, c, now);
      && t.handlers == s.handlers && t.locks == s.locks && t.keys == s.keys
      && |t.rpcs| == |s.rpcs| && t.rpcs[c].msg == s.rpcs[c].msg && t.rpcs[c].answer.Some?
      && (s.rpcs[c].msg.ReleaseMsg? ==> t.rpcs[c].answer.value.Granted?)
      && (t.rpcs[c].answer.value.Granted? || DefiniteRejection(t.rpcs[c].answer.value))
  {
    hide Inv, Serve;
    NoInconsistentAnswer(s, initial, c, now);
    var answer := Serve(s.db, CallOf(s.rpcs[c].msg, now)).1;
    if s.rpcs[c].msg.ReserveMsg? {
      RefusalsOfReserve(s.db, s.rpcs[c].msg.orderId, s.rpcs[c].msg.items, now);
    }
  }

  /** The refusals of a reserve are definite, except that of another order's payload. */
  lemma RefusalsOfReserve(db: Db, o: OrderId, items: seq<Item>, now: Time)
    ensures var answer := Serve(db, ReserveCall(o, items, now)).1;
      answer.Granted? || answer == Refused(OrderIdConflict(o)) || DefiniteRejection(answer)
  {
    hide Fingerprint, Deduct, ReserveResult, NewOperation;
  }

  lemma ReserveSettles(s: State, initial: map<PartId, int>, h: nat, c: nat, now: Time, createdAt: Time, updatedAt: Time)
    requires h < |s.handlers| && s.handlers[h].job.Create? && s.handlers[h].pc == AwaitReserve(c) && Holds(s, h)
    requires |s.rpcs| == c + 1 && s.rpcs[c].answer == None
    requires Inv(s, initial)
    ensures Settles(
      After(s, [Deliver(c, now), Act(h, GetReserveAnswer(createdAt, updatedAt)), Act(h, GetReleaseAnswer),
        Act(h, Commit(true))]),
      h, s.handlers[h].job.key, s.handlers[h].job.request)
  {
    hide Inv, NextCommit, Settles, NextDeliver, NextReserveAnswer, NextReleaseAnswer, DefiniteRejection;
    FourEvents(s, Deliver(c, now), Act(h, GetReserveAnswer(createdAt, updatedAt)), Act(h, GetReleaseAnswer),
      Act(h, Commit(true)));
    WaitingKey(s, initial, h);
    DeliveredAnswer(s, initial, c, now);
    var s1 := NextDeliver(s, c, now);
    NextKeeps(s, initial, Deliver(c, now));
    var a := GetReserveAnswer(createdAt, updatedAt);
    var answer := s1.rpcs[c].answer.value;
    assert Enabled(s1, h, a);
    var s2 := NextReserveAnswer(s1, h, answer, createdAt, updatedAt);
    ActKeeps(s1, initial, h, a);
    GuardsNeverFire(s1, initial, h, s.handlers[h].job.key);
    AnsweredPersists(s1, h, answer, createdAt, updatedAt);
    CommitSettles(s2, initial, h);
  }

  lemma WaitingKey(s: State, initial: map<PartId, int>, h: nat)
    requires h < |s.handlers| && s.handlers[h].job.Create?
      && (s.handlers[h].pc.AwaitReserve? || s.handlers[h].pc.AwaitRelease?)
    requires Inv(s, initial)
    ensures s.handlers[h].job.key in s.keys
    ensures s.handlers[h].pc.rpc < |s.rpcs|
      && (s.handlers[h].pc.AwaitReserve? <==> s.rpcs[s.handlers[h].pc.rpc].msg.ReserveMsg?)
  {
    hide RpcOk, OrderOk, DbInv, HashOf, ValidRequest, KeysOk;
    assert HandlerOk(s, h);
  }

  lemma AnsweredPersists(s: State, h: nat, answer: Answer, createdAt: Time, updatedAt: Time)
    requires h < |s.handlers| && s.handlers[h].job.Create? && s.handlers[h].job.key in s.keys && Holds(s, h)
    requires answer.Granted? || DefiniteRejection(answer)
    requires answer.Granted? ==>
      && ReservationMatches(s.handlers[h].job.request.items, ReservedItems(answer.result))
      && s.keys[s.handlers[h].job.key].orderId !in s.orders
    ensures var t := NextReserveAnswer(s, h, answer, createdAt, updatedAt);
      h < |t.handlers| && t.handlers[h].job == s.handlers[h].job && t.handlers[h].pc.Persisting?
  {
    hide CreateResponseBody, Snapshots, ReservedItems, ReservationMatches, ToApiError;
  }

  lemma ReleaseSettles(s: State, initial: map<PartId, int>, h: nat, c: nat, now: Time, createdAt: Time, updatedAt: Time)
    requires h < |s.handlers| && s.handlers[h].job.Create? && s.handlers[h].pc.AwaitRelease?
      && s.handlers[h].pc.rpc == c && Holds(s, h)
    requires |s.rpcs| == c + 1 && s.rpcs[c].answer == None
    requires Inv(s, initial)
    ensures Settles(
      After(s, [Deliver(c, now), Act(h, GetReserveAnswer(createdAt, updatedAt)), Act(h, GetReleaseAnswer),
        Act(h, Commit(true))]),
      h, s.handlers[h].job.key, s.handlers[h].job.request)
  {
    hide Inv, NextCommit, Settles, NextDeliver, NextReserveAnswer, DefiniteRejection;
    FourEvents(s, Deliver(c, now), Act(h, GetReserveAnswer(createdAt, updatedAt)), Act(h, GetReleaseAnswer),
      Act(h, Commit(true)));
    WaitingKey(s, initial, h);
    DeliveredAnswer(s, initial, c, now);
    var s1 := NextDeliver(s, c, now);
    NextKeeps(s, initial, Deliver(c, now));
    assert Enabled(s1, h, GetReleaseAnswer);
    var s3 := NextReleaseAnswer(s1, h, s1.rpcs[c].answer.value);
    ActKeeps(s1, initial, h, GetReleaseAnswer);
    assert s3.handlers[h].pc.Persisting?;
    CommitSettles(s3, initial, h);
  }

  /** The lock is granted: whatever the key's state, the rest of an undisturbed create settles it. */
  lemma BeginSettles(s: State, initial: map<PartId, int>, h: nat, now: Time, createdAt: Time, updatedAt: Time)
    requires h < |s.handlers| && s.handlers[h].job.Create? && s.handlers[h].pc == WantKey
    requires s.handlers[h].job.key in s.keys && s.handlers[h].job.key !in s.locks
    requires Inv(s, initial)
    ensures var c := |s.rpcs|;
      Settles(
        After(NextBegin(s, h), [Deliver(c, now), Act(h, GetReserveAnswer(createdAt, updatedAt)),
          Act(h, GetReleaseAnswer), Act(h, Commit(true))]),
        h, s.handlers[h].job.key, s.handlers[h].job.request)
  {
    hide Inv, Settles, HashOf, NextBegin, After;
    var c := |s.rpcs|;
    var t := NextBegin(s, h);
    ActKeeps(s, initial, h, BeginTx);
    assert NextAct(s, h, BeginTx) == t;
    BeginDecides(s, h);
    var pc := t.handlers[h].pc;
    if pc.Done? {
      DoneStays(t, h, c, now, createdAt, updatedAt);
      DecidedSettles(s, initial, h);
    } else if pc.Persisting? {
      PersistingSettles(t, initial, h, c, now, createdAt, updatedAt);
    } else if pc.AwaitReserve? {
      ReserveSettles(t, initial, h, c, now, createdAt, updatedAt);
    } else {
      ReleaseSettles(t, initial, h, c, now, createdAt, updatedAt);
    }
  }

  lemma BeginDecides(s: State, h: nat)
    requires h < |s.handlers| && s.handlers[h].job.Create? && s.handlers[h].pc == WantKey
    requires s.handlers[h].job.key in s.keys && s.handlers[h].job.key !in s.locks
    ensures var t := NextBegin(s, h); var c := |s.rpcs|;
      && h < |t.handlers| && t.handlers[h].job == s.handlers[h].job && c <= |t.rpcs|
      && var pc := t.handlers[h].pc;
         && (pc.Done? || pc.Persisting? ==> |t.rpcs| == c)
         && (pc.Done? || pc.Persisting? || pc == AwaitReserve(c) || (pc.AwaitRelease? && pc.rpc == c))
         && (pc.AwaitReserve? || pc.AwaitRelease? ==> Holds(t, h) && |t.rpcs| == c + 1 && t.rpcs[c].answer == None)
  {
    hide HashOf, FailedWith, StoredFailure, Replay, Holds, LockedBy, Send;
    var Create(key, request) := s.handlers[h].job;
    var entry := s.keys[key];
    SendHolds(s, h, ReserveMsg(entry.orderId, request.items), AwaitReserve(|s.rpcs|));
    SendHolds(s, h, ReleaseMsg(entry.orderId), AwaitRelease(|s.rpcs|, StoredFailure(entry.status, entry.body)));
    LockedRpcs(s, h, FailedWith(entry, CUSTOMER_NOT_FOUND), key);
  }

  lemma SendHolds(s: State, h: nat, msg: Message, pc: Pc)
    requires h < |s.handlers| && s.handlers[h].job.Create?
    ensures var t := LockedBy(Send(s, h, msg, pc), h, s.handlers[h].job.key);
      Holds(t, h) && |t.rpcs| == |s.rpcs| + 1 && t.rpcs[|s.rpcs|].answer == None
  {
  }

  lemma LockedRpcs(s: State, h: nat, entry: KeyEntry, key: string)
    requires h < |s.handlers|
    ensures LockedBy(WithPc(s, h, Persisting(entry, None, Error(CUSTOMER_NOT_FOUND))), h, key).rpcs == s.rpcs
  {
  }

  lemma DecidedSettles(s: State, initial: map<PartId, int>, h: nat)
    requires h < |s.handlers| && s.handlers[h].job.Create? && s.handlers[h].pc == WantKey
    requires s.handlers[h].job.key in s.keys && s.handlers[h].job.key !in s.locks
    requires NextBegin(s, h).handlers[h].pc.Done?
    requires Inv(s, initial)
    ensures Settles(NextBegin(s, h), h, s.handlers[h].job.key, s.handlers[h].job.request)
  {
    hide Inv, HashOf, FailedWith, StoredFailure, CreateResponseBody, RestoreCreateResponse;
    var Create(key, request) := s.handlers[h].job;
    if s.keys[key].state == Confirmed { ConfirmedReplay(s, initial, key); }
  }

  /**
   From any reachable state, with any handlers stuck or crashed and any RPC still in flight, one
   undisturbed create leaves its key CONFIRMED or FAILED and answers accordingly; with a payload
   other than the key's it only answers the conflict.
   */
  lemma CreateConverges(
    s: State, initial: map<PartId, int>, key: string, customer: string, items: seq<Item>, freshId: OrderId,
    now: Time, createdAt: Time, updatedAt: Time)
    requires IsUuid(customer) && ValidOrderItems(items) && freshId !in s.claims && IsLowerUuid(freshId)
    requires Inv(s, initial)
    ensures var h, c := |s.handlers|, |s.rpcs|;
      var es := FreeKey(s, key) + [StartCreate(key, customer, items)] + CreateEvents(h, c, freshId, now, createdAt,
        updatedAt);
      Settles(After(s, es), h, key, Request(ToLower(customer), NormalizeItems(items)))
  {
    hide Inv, Settles, IsUuid, IsLowerUuid, ValidOrderItems, NormalizeItems, HashOf;
    var h, c := |s.handlers|, |s.rpcs|;
    var job := Create(key, Request(ToLower(customer), NormalizeItems(items)));
    var s0 := After(s, FreeKey(s, key));
    FreeKeyFrees(s, initial, key);
    InvariantAlways(s, initial, FreeKey(s, key));
    var s1 := Next(s0, StartCreate(key, customer, items));
    NextKeeps(s0, initial, StartCreate(key, customer, items));
    assert At(s1, h, job, Claiming);
    var s2 := NextClaim(s1, h, freshId);
    ActKeeps(s1, initial, h, ClaimKey(freshId));
    assert At(s2, h, job, WantKey) && key in s2.keys && key !in s2.locks
      && |s2.rpcs| == c by { ClaimLeads(s1, h, freshId); }
    BeginSettles(s2, initial, h, now, createdAt, updatedAt);
    ChainOfCreate(s, key, customer, items, h, c, freshId, now, createdAt, updatedAt);
  }

  lemma ClaimLeads(s: State, h: nat, freshId: OrderId)
    requires h < |s.handlers| && s.handlers[h].job.Create? && s.handlers[h].pc == Claiming && freshId !in s.claims
    requires IsLowerUuid(freshId)
    ensures var t := NextClaim(s, h, freshId);
      && At(t, h, s.handlers[h].job, WantKey) && s.handlers[h].job.key in t.keys && t.locks == s.locks
      && t.rpcs == s.rpcs
  {
    hide HashOf, IsLowerUuid;
  }

  lemma ChainOfCreate(
    s: State, key: string, customer: string, items: seq<Item>, h: nat, c: nat, freshId: OrderId,
    now: Time, createdAt: Time, updatedAt: Time)
    ensures var es := FreeKey(s, key) + [StartCreate(key, customer, items)] + CreateEvents(h, c, freshId, now,
      createdAt, updatedAt);
      var s2 := Next(Next(After(s, FreeKey(s, key)), StartCreate(key, customer, items)), Act(h, ClaimKey(freshId)));
      After(s, es) == After(Next(s2, Act(h, BeginTx)),
        [Deliver(c, now), Act(h, GetReserveAnswer(createdAt, updatedAt)), Act(h, GetReleaseAnswer),
          Act(h, Commit(true))])
  {
    hide Next, FreeKey;
    var a := FreeKey(s, key) + [StartCreate(key, customer, items)];
    var rest := [Deliver(c, now), Act(h, GetReserveAnswer(createdAt, updatedAt)), Act(h, GetReleaseAnswer),
      Act(h, Commit(true))];
    assert a + CreateEvents(h, c, freshId, now, createdAt, updatedAt) ==
      (a + [Act(h, ClaimKey(freshId))] + [Act(h, BeginTx)]) + rest;
    AfterSnoc(s, FreeKey(s, key), StartCreate(key, customer, items));
    AfterSnoc(s, a, Act(h, ClaimKey(freshId)));
    AfterSnoc(s, a + [Act(h, ClaimKey(freshId))], Act(h, BeginTx));
    AfterConcat(s, a + [Act(h, ClaimKey(freshId))] + [Act(h, BeginTx)], rest);
  }

  // ---------- recovery after a failure behind a granted reserve ----------

  /** A decided key's answer settles its create. */
  lemma ReplaySettles(s: State, t: State, initial: map<PartId, int>, h: nat, key: string, request: Request)
    requires key in s.keys && Final(s.keys[key].state) && s.keys[key].requestHash == HashOf(request)
    requires SameStored(s, t) && At(t, h, Create(key, request), Done(Replay(s, s.keys[key])))
    requires Inv(s, initial)
    ensures Settles(t, h, key, request)
  {
    hide Inv, HashOf, StoredFailure, RestoreCreateResponse;
    if s.keys[key].state == Confirmed { ConfirmedReplay(s, initial, key); }
  }

  /** A handler past its claim works for the request whose hash its key holds, unless it is still to find out. */
  lemma SameHash(s: State, initial: map<PartId, int>, h: nat)
    requires h < |s.handlers| && s.handlers[h].job.Create?
      && (s.handlers[h].pc.NeedsCompensation? || s.handlers[h].pc.WantUndo?)
    requires Inv(s, initial)
    ensures var Create(key, request) := s.handlers[h].job; key in s.keys && s.keys[key].requestHash == HashOf(request)
    ensures s.handlers[h].pc.WantUndo? ==>
      s.keys[s.handlers[h].job.key].state == Compensating || s.keys[s.handlers[h].job.key].state == Failed
  {
    hide HashOf, RpcOk, OrderOk, DbInv, KeysOk, LocksOk, PersistOk, ValidRequest;
    assert HandlerOk(s, h);
  }

  /** An undisturbed recovery by handler h whose release, if it sends one, is RPC c. */
  function RecoveryEvents(h: nat, c: nat, now: Time): seq<Event> {
    [Act(h, MarkCompensating), Act(h, BeginUndo), Deliver(c, now), Act(h, GetReleaseAnswer), Act(h, Commit(true))]
  }

  lemma MarkLeads(s: State, h: nat)
    requires h < |s.handlers| && s.handlers[h].job.Create? && s.handlers[h].pc == NeedsCompensation
    requires s.handlers[h].job.key in s.keys && s.handlers[h].job.key !in s.locks
    ensures var t := Next(s, Act(h, MarkCompensating)); var Create(key, request) := s.handlers[h].job;
      && t.rpcs == s.rpcs && t.db == s.db && t.claims == s.claims && key in t.keys
      && if Final(s.keys[key].state)
         then SameStored(s, t) && At(t, h, Create(key, request), Done(Replay(s, s.keys[key])))
         else
           && t.keys[key].state == Compensating && t.keys[key].requestHash == s.keys[key].requestHash
           && key !in t.locks && At(t, h, Create(key, request), WantUndo)
           && (s.keys[key].state == InProgress ==>
                 t.keys[key] == FailedWith(s.keys[key], INTERNAL_FAILURE).(state := Compensating))
  {
    hide Replay, StoredFailure, HashOf, FailedWith, WithPc, Finish;
    var entry := s.keys[s.handlers[h].job.key];
    MovesOnlyPc(s, h, WantUndo, Replay(s, entry));
    FailedWithIsFailed(entry, INTERNAL_FAILURE);
    assert Next(s, Act(h, MarkCompensating)) == NextMark(s, h);
  }

  lemma MovesOnlyPc(s: State, h: nat, pc: Pc, outcome: Outcome)
    requires h < |s.handlers|
    ensures WithPc(s, h, pc).rpcs == s.rpcs && WithPc(s, h, pc).locks == s.locks && Finish(s, h, outcome).rpcs == s.rpcs
  {
  }

  lemma UndoLeads(s: State, h: nat)
    requires h < |s.handlers| && s.handlers[h].job.Create? && s.handlers[h].pc == WantUndo
    requires s.handlers[h].job.key in s.keys && s.keys[s.handlers[h].job.key].state == Compensating
    requires s.handlers[h].job.key !in s.locks
    ensures var t := Next(s, Act(h, BeginUndo));
      && h < |t.handlers| && t.handlers[h].job == s.handlers[h].job && t.handlers[h].pc.AwaitRelease?
      && t.handlers[h].pc.rpc == |s.rpcs| && Holds(t, h)
      && |t.rpcs| == |s.rpcs| + 1 && t.rpcs[|s.rpcs|].answer == None
  {
    hide Replay, StoredFailure, HashOf, Holds, LockedBy, Send;
    var entry := s.keys[s.handlers[h].job.key];
    SendHolds(s, h, ReleaseMsg(entry.orderId), AwaitRelease(|s.rpcs|, StoredFailure(entry.status, entry.body)));
    assert Next(s, Act(h, BeginUndo)) == NextUndo(s, h);
  }

  lemma RecoveryIdles(s: State, h: nat, c: nat, now: Time)
    requires h < |s.handlers| && s.handlers[h].pc.Done? && |s.rpcs| <= c
    ensures Next(Next(Next(Next(s, Act(h, BeginUndo)), Deliver(c, now)), Act(h, GetReleaseAnswer)),
      Act(h, Commit(true))) == s
  {
    assert Next(s, Act(h, BeginUndo)) == s && Next(s, Deliver(c, now)) == s;
    Idle(s, h);
    assert Next(s, Act(h, GetReleaseAnswer)) == s && Next(s, Act(h, Commit(true))) == s;
    hide Next;
  }

  /** The release is granted and the key becomes FAILED. */
  lemma ReleaseEnds(s: State, initial: map<PartId, int>, h: nat, c: nat, now: Time)
    requires h < |s.handlers| && s.handlers[h].job.Create? && s.handlers[h].pc.AwaitRelease?
    requires s.handlers[h].pc.rpc == c && Holds(s, h) && |s.rpcs| == c + 1 && s.rpcs[c].answer == None
    requires Inv(s, initial)
    ensures var t := Next(Next(Next(s, Deliver(c, now)), Act(h, GetReleaseAnswer)), Act(h, Commit(true)));
      var Create(key, request) := s.handlers[h].job;
      && Settles(t, h, key, request) && key in t.keys && t.keys[key].state == Failed
  {
    hide Inv, NextCommit, Settles, NextDeliver, NextReserveAnswer, DefiniteRejection;
    WaitingKey(s, initial, h);
    DeliveredAnswer(s, initial, c, now);
    var s1 := NextDeliver(s, c, now);
    NextKeeps(s, initial, Deliver(c, now));
    assert Enabled(s1, h, GetReleaseAnswer);
    var s3 := NextReleaseAnswer(s1, h, s1.rpcs[c].answer.value);
    ActKeeps(s1, initial, h, GetReleaseAnswer);
    assert s3.handlers[h].pc.Persisting?;
    CommitSettles(s3, initial, h);
    CommitWrites(s3, h);
  }

  lemma CommitWrites(s: State, h: nat)
    requires h < |s.handlers| && s.handlers[h].job.Create? && s.handlers[h].pc.Persisting? && Holds(s, h)
    ensures var t := NextCommit(s, h, true); var key := s.handlers[h].job.key;
      key in t.keys && t.keys[key] == s.handlers[h].pc.entry
  {
  }

  /**
   From any reachable state, one undisturbed recovery settles its key. An undecided key ends FAILED
   with its order's stock released. A key already FAILED is only answered: its order's stock stays
   reserved if it was, though this handler was granted it.
   */
  lemma RecoveryIsExact(s: State, initial: map<PartId, int>, h: nat, now: Time)
    requires h < |s.handlers| && s.handlers[h].job.Create? && s.handlers[h].pc == NeedsCompensation
    requires s.handlers[h].job.key in s.keys && s.handlers[h].job.key !in s.locks
    requires Inv(s, initial)
    ensures var t := After(s, RecoveryEvents(h, |s.rpcs|, now));
      var Create(key, request) := s.handlers[h].job; var entry := s.keys[key];
      && Settles(t, h, key, request)
      && (Final(entry.state) ==> t.keys == s.keys && t.db == s.db)
      && (!Final(entry.state) ==>
            key in t.keys && t.keys[key].state == Failed && IsReleased(t.db.ledger, entry.orderId))
      && (entry.state == InProgress ==>
            t.handlers[h].pc.Done? && t.handlers[h].pc.result.Error? && IsInternal(t.handlers[h].pc.result.error))
      && (Leaked(t, entry.orderId) <==> entry.state == Failed && IsReserved(s.db.ledger, entry.orderId))
  {
    hide Inv, Next, Settles, After, HashOf, StoredFailure, Replay, FailedWith, RecoveryEvents;
    var c := |s.rpcs|;
    var Create(key, request) := s.handlers[h].job;
    var o := s.keys[key].orderId;
    SameHash(s, initial, h);
    MarkLeads(s, h);
    var t1 := Next(s, Act(h, MarkCompensating));
    RecoveryChain(s, h, c, now);
    KeyOwnsClaim(s, initial, key);
    if Final(s.keys[key].state) {
      ReplaySettles(s, t1, initial, h, key, request);
      RecoveryIdles(t1, h, c, now);
    } else {
      NextKeeps(s, initial, Act(h, MarkCompensating));
      UndoLeads(t1, h);
      var t2 := Next(t1, Act(h, BeginUndo));
      NextKeeps(t1, initial, Act(h, BeginUndo));
      ReleaseEnds(t2, initial, h, c, now);
      RecoveryReleases(s, t1, initial, h, c, now);
      FailureIsAnswered(After(s, RecoveryEvents(h, c, now)), h, key, request);
      FailedWithIsFailed(s.keys[key], INTERNAL_FAILURE);
      PublicErrors();
    }
  }

  /** A settled create of a FAILED key was answered with the error stored there. */
  lemma FailureIsAnswered(t: State, h: nat, key: string, request: Request)
    requires Settles(t, h, key, request) && key in t.keys && t.keys[key].state == Failed
    requires t.keys[key].requestHash == HashOf(request)
    ensures h < |t.handlers| && t.handlers[h].pc == Done(Error(StoredFailure(t.keys[key].status, t.keys[key].body)))
  {
    hide HashOf, StoredFailure;
  }

  lemma KeyOwnsClaim(s: State, initial: map<PartId, int>, k: string)
    requires Inv(s, initial) && k in s.keys
    ensures s.keys[k].orderId in s.claims && s.claims[s.keys[k].orderId].key == k
  {
    hide HandlerOk, RpcOk, OrderOk, DbInv, HashOf, ValidRequest, IsLowerUuid;
  }

  lemma RecoveryChain(s: State, h: nat, c: nat, now: Time)
    ensures After(s, RecoveryEvents(h, c, now)) ==
      Next(Next(Next(Next(Next(s, Act(h, MarkCompensating)), Act(h, BeginUndo)), Deliver(c, now)),
        Act(h, GetReleaseAnswer)), Act(h, Commit(true)))
  {
    hide Next, After;
    FiveEvents(s, Act(h, MarkCompensating), Act(h, BeginUndo), Deliver(c, now), Act(h, GetReleaseAnswer),
      Act(h, Commit(true)));
  }

  /** A recovery past its mark ends with its order released, and keeps order ids and claims. */
  lemma RecoveryReleases(s: State, t1: State, initial: map<PartId, int>, h: nat, c: nat, now: Time)
    requires h < |s.handlers| && s.handlers[h].job.Create? && s.handlers[h].job.key in s.keys
    requires t1 == Next(s, Act(h, MarkCompensating)) && Compensated(t1, s.handlers[h].job.key)
    requires var t := After(s, RecoveryEvents(h, c, now)); var key := s.handlers[h].job.key;
      key in t.keys && t.keys[key].state == Failed
    requires Inv(s, initial) && Inv(t1, initial)
    ensures var t := After(s, RecoveryEvents(h, c, now)); var o := s.keys[s.handlers[h].job.key].orderId;
      && IsReleased(t.db.ledger, o) && !Leaked(t, o)
      && var key := s.handlers[h].job.key; key in t.keys && t.keys[key] == t1.keys[key].(state := Failed)
  {
    hide Inv, Next, After;
    var key := s.handlers[h].job.key;
    var rest := [Act(h, BeginUndo), Deliver(c, now), Act(h, GetReleaseAnswer), Act(h, Commit(true))];
    RecoveryChain(s, h, c, now);
    FourEvents(t1, Act(h, BeginUndo), Deliver(c, now), Act(h, GetReleaseAnswer), Act(h, Commit(true)));
    CompensationReleases(t1, initial, rest, key);
    KeyLifecycle(t1, initial, rest, key);
    KeyLifecycle(s, initial, RecoveryEvents(h, c, now), key);
  }

  // ---------- cancel ----------

  /** A cancel by handler h whose release, if it sends one, is RPC c. */
  function CancelEvents(h: nat, c: nat, orderId: string, now: Time, at: Time, updatedAt: Time): seq<Event> {
    [StartCancel(orderId), Act(h, ReadOrder), Deliver(c, now), Act(h, GetReleaseAnswer),
      Act(h, SaveCancel(at, updatedAt, true))]
  }

  /** The cancel reads its order: nothing more to do, or a release to wait for. */
  lemma CancelReads(s: State, initial: map<PartId, int>, o: OrderId, orderId: string)
    requires o in s.orders && ToLower(orderId) == o
    requires Inv(s, initial)
    ensures var h, c := |s.handlers|, |s.rpcs|;
      var t := Next(Next(s, StartCancel(orderId)), Act(h, ReadOrder));
      && SameStored(s, t) && Inv(t, initial) && h < |t.handlers|
      && (s.orders[o].status == CANCELLED ==> |t.rpcs| == c && t.handlers[h].pc == Done(Success(s.orders[o], false)))
      && (s.orders[o].status == CONFIRMED ==>
        |t.rpcs| == c + 1 && t.rpcs[c] == Rpc(ReleaseMsg(o), None) && At(t, h, Cancel(o), AwaitCancel(c)))
  {
    hide Inv, ToLower;
    var s1 := Next(s, StartCancel(orderId));
    NextKeeps(s, initial, StartCancel(orderId));
    NextKeeps(s1, initial, Act(|s.handlers|, ReadOrder));
  }

  /** The release is delivered and granted, and the order saved as cancelled. */
  lemma CancelSaves(
    s: State, initial: map<PartId, int>, o: OrderId, h: nat, c: nat, now: Time, at: Time, updatedAt: Time)
    requires o in s.orders && At(s, h, Cancel(o), AwaitCancel(c)) && c < |s.rpcs|
      && s.rpcs[c] == Rpc(ReleaseMsg(o), None)
    requires s.orders[o].status == CONFIRMED
    requires Inv(s, initial)
    ensures var t := Next(Next(Next(s, Deliver(c, now)), Act(h, GetReleaseAnswer)),
      Act(h, SaveCancel(at, updatedAt, true)));
      && o in t.orders && t.orders == s.orders[o := CancelledOrder(s.orders[o], at, updatedAt)]
      && h < |t.handlers| && t.handlers[h].pc == Done(Success(t.orders[o], false)) && Inv(t, initial)
  {
    hide Inv, NextDeliver, ToApiError;
    DeliveredAnswer(s, initial, c, now);
    DeliverKeepsOrders(s, c, now);
    var s3 := NextDeliver(s, c, now);
    NextKeeps(s, initial, Deliver(c, now));
    assert Enabled(s3, h, GetReleaseAnswer);
    var s4 := NextReleaseAnswer(s3, h, s3.rpcs[c].answer.value);
    assert s4 == WithPc(s3, h, CancelGranted);
    ActKeeps(s3, initial, h, GetReleaseAnswer);
    ActKeeps(s4, initial, h, SaveCancel(at, updatedAt, true));
  }

  /** Order ids are generated in lower case. */
  lemma OrderIdsAreLower(s: State, initial: map<PartId, int>, o: OrderId)
    requires Inv(s, initial) && o in s.orders
    ensures ToLower(o) == o
  {
    hide HandlerOk, RpcOk, OrderOk, DbInv, HashOf, ValidRequest, IsUuid;
  }

  /**
   From any reachable state, one undisturbed cancel of an order, its id spelled in either case,
   leaves it CANCELLED with its stock released, and says so.
   */
  lemma CancelConverges(
    s: State, initial: map<PartId, int>, o: OrderId, orderId: string, now: Time, at: Time, updatedAt: Time)
    requires o in s.orders && SameText(orderId, o)
    requires Inv(s, initial)
    ensures var t := After(s, CancelEvents(|s.handlers|, |s.rpcs|, orderId, now, at, updatedAt));
      && o in t.orders && t.orders[o].status == CANCELLED && t.orders[o].cancelledAt.Some? && IsReleased(t.db.ledger, o)
      && |s.handlers| < |t.handlers| && t.handlers[|s.handlers|].pc == Done(Success(t.orders[o], false))
      && (s.orders[o].status == CANCELLED ==> t.orders == s.orders && t.db == s.db)
      && (s.orders[o].status == CONFIRMED ==>
            t.orders == s.orders[o := s.orders[o].(status :=
              CANCELLED, cancelledAt := Some(at), updatedAt := updatedAt)])
  {
    hide Inv, Next, IsReleased, ToLower, SameText;
    SameLowerIffSameText(orderId, o);
    var h, c := |s.handlers|, |s.rpcs|;
    OrderIdsAreLower(s, initial, o);
    FiveEvents(s, StartCancel(orderId), Act(h, ReadOrder), Deliver(c, now), Act(h, GetReleaseAnswer),
      Act(h, SaveCancel(at, updatedAt, true)));
    CancelReads(s, initial, o, orderId);
    var t := Next(Next(s, StartCancel(orderId)), Act(h, ReadOrder));
    if s.orders[o].status == CANCELLED {
      CancelIdles(t, h, c, now, at, updatedAt);
      CancelledFacts(t, initial, o);
    } else {
      CancelSaves(t, initial, o, h, c, now, at, updatedAt);
      CancelledFacts(Next(Next(Next(t, Deliver(c, now)), Act(h, GetReleaseAnswer)),
        Act(h, SaveCancel(at, updatedAt, true))),
        initial, o);
    }
  }

  lemma CancelIdles(s: State, h: nat, c: nat, now: Time, at: Time, updatedAt: Time)
    requires h < |s.handlers| && s.handlers[h].pc.Done? && |s.rpcs| <= c
    ensures Next(Next(Next(s, Deliver(c, now)), Act(h, GetReleaseAnswer)), Act(h, SaveCancel(at, updatedAt, true))) == s
  {
  }

  lemma DeliverKeepsOrders(s: State, c: nat, now: Time)
    ensures NextDeliver(s, c, now).orders == s.orders
  {
    hide Serve;
  }

  lemma FiveEvents(s: State, e0: Event, e1: Event, e2: Event, e3: Event, e4: Event)
    ensures After(s, [e0, e1, e2, e3, e4]) == Next(Next(Next(Next(Next(s, e0), e1), e2), e3), e4)
  {
    hide Next;
    FourEvents(s, e0, e1, e2, e3);
    AfterSnoc(s, [e0, e1, e2, e3], e4);
    assert [e0, e1, e2, e3] + [e4] == [e0, e1, e2, e3, e4];
  }
}
