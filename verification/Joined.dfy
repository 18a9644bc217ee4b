/**
 The two machines together: Sales, and an Inventory that serves the RPCs by interleaved
 transactions. An RPC that arrives starts a transaction; the transactions run statement by
 statement, between each other's and Sales' steps; the RPC is answered when its transaction
 commits, and never if it aborts. Every run is a run of Saga in which each RPC is delivered at
 once, at the moment its transaction ends.
 */
module Joined {
  import opened Identifiers
  import opened Canonical
  import opened Stock
  import opened Saga
  import opened SagaInvariant
  import opened SagaTheorems
  import opened SagaConservation
  import opened Convergence
  import Locking

  /** `rpcOf` says which RPC each stock transaction serves. */
  datatype System = System(saga: State, stock: Locking.State, rpcOf: seq<nat>)

  datatype Move =
    | Sales(e: Event)
    | Arrive(rpc: nat, now: Time)
    | Statement(step: Locking.Step)

  /** Sales' side of a transaction that ended with an answer: the RPC's answer, over the committed database. */
  function Answer(saga: State, c: nat, db: Db, answer: Stock.Answer): State {
    if c < |saga.rpcs| then saga.(db := db, rpcs := saga.rpcs[c := saga.rpcs[c].(answer := Some(answer))]) else saga
  }

  function Moved(j: System, h: Locking.OrderHash, m: Move): System {
    match m
    case Sales(e) => if e.Deliver? then j else j.(saga := Next(j.saga, e))
    case Arrive(c, now) =>
      if c < |j.saga.rpcs| && c !in j.rpcOf && j.saga.rpcs[c].answer == None then
        var tx := Locking.Tx(CallOf(j.saga.rpcs[c].msg, now), Locking.Start, None, map[], map[]);
        j.(stock := j.stock.(txs := j.stock.txs + [tx]), rpcOf := j.rpcOf + [c])
      else j
    case Statement(step) =>
      var stock := Locking.Next(j.stock, h, step);
      if |stock.log| > |j.stock.log| && step.tx < |j.rpcOf|
      then System(Answer(j.saga, j.rpcOf[step.tx], stock.db, stock.log[|stock.log| - 1].answer), stock, j.rpcOf)
      else j.(stock := stock)
  }

  function Run(j: System, h: Locking.OrderHash, ms: seq<Move>): System {
    if ms == [] then j else Moved(Run(j, h, ms[..|ms| - 1]), h, ms[|ms| - 1])
  }

  predicate Starts(j: System) {
    Initial(j.saga) && Locking.Initial(j.stock) && j.stock.txs == [] && j.rpcOf == [] && j.stock.db == j.saga.db
  }

  // ---------- one statement ----------

  /** The transaction of a step ended with an answer, or nothing that is committed changed. */
  ghost predicate EndsOrNot(s: Locking.State, t: Locking.State, i: nat) {
    && |t.txs| == |s.txs|
    && (forall k :: 0 <= k < |s.txs| && k != i ==> t.txs[k] == s.txs[k])
    && (forall k :: 0 <= k < |s.txs| ==> t.txs[k].call == s.txs[k].call)
    && if |t.log| > |s.log| then
         && i < |s.txs| && Locking.Unfinished(s.txs[i]) && t.txs[i].pc.Finished?
         && |t.log| == |s.log| + 1 && t.log[..|s.log|] == s.log
         && t.log[|s.log|].tx == i && t.log[|s.log|].call == s.txs[i].call
       else
         && t.log == s.log && t.db == s.db
         && (i < |s.txs| ==> (t.txs[i].pc.Finished? <==> s.txs[i].pc.Finished?))
  }

  lemma EndShape(s: Locking.State, i: nat, db: Db, answer: Stock.Answer)
    requires i < |s.txs| && Locking.Unfinished(s.txs[i])
    ensures EndsOrNot(s, Locking.End(s, i, db, answer), i)
    ensures EndsOrNot(s, Locking.Unlock(s, i, Locking.Aborted), i)
  {
  }

  /** A statement in the middle of a transaction changes its own row only, and nothing committed. */
  lemma MiddleShape(s: Locking.State, t: Locking.State, i: nat)
    requires i < |s.txs| && |t.txs| == |s.txs| && t.txs == s.txs[i := t.txs[i]] && t.txs[i].call == s.txs[i].call
    requires t.log == s.log && t.db == s.db && (t.txs[i].pc.Finished? <==> s.txs[i].pc.Finished?)
    ensures EndsOrNot(s, t, i)
  {
  }

  lemma LockShape(s: Locking.State, h: Locking.OrderHash, i: nat)
    requires i < |s.txs| && (s.txs[i].pc.Start? || s.txs[i].pc.OrderLocked? || s.txs[i].pc.LockingParts?)
    ensures EndsOrNot(s, Locking.Advanced(s, h, i), i)
  {
    hide Locking.Blocked, Locking.EarlyAnswer, Locking.LinesOf, Locking.Refusal, Locking.NewRow, Locking.ExistingIds;
    hide SortItems, Locking.Lookup, EndsOrNot;
    MiddleShape(s, Locking.Advanced(s, h, i), i);
  }

  lemma WriteShape(s: Locking.State, h: Locking.OrderHash, i: nat)
    requires i < |s.txs| && !s.txs[i].pc.Start? && !s.txs[i].pc.OrderLocked? && !s.txs[i].pc.LockingParts?
    ensures EndsOrNot(s, Locking.Advanced(s, h, i), i)
  {
    hide Locking.Blocked, Locking.LinesOf, Locking.Apply, Locking.FinalAnswer, Locking.NewStock, Locking.End;
    hide Locking.Unlock, EndsOrNot;
    var t := s.txs[i];
    MiddleShape(s, s, i);
    match t.pc
    case Writing(n, operation) =>
      if n < |Locking.LinesOf(t.call, t.row)| { MiddleShape(s, Locking.Advanced(s, h, i), i); }
      EndShape(s, i, Db(Locking.Apply(s.db.parts, t.writes), s.db.ledger[t.call.orderId := operation]),
        Locking.FinalAnswer(t.call, operation));
    case Answering(answer) => EndShape(s, i, s.db, answer);
    case _ =>
  }

  lemma StatementShape(s: Locking.State, h: Locking.OrderHash, step: Locking.Step)
    ensures EndsOrNot(s, Locking.Next(s, h, step), step.tx)
  {
    hide Locking.Advanced, Locking.Unlock;
    if step.tx < |s.txs| {
      if step.Advance? {
        if s.txs[step.tx].pc.Start? || s.txs[step.tx].pc.OrderLocked? || s.txs[step.tx].pc.LockingParts? {
          LockShape(s, h, step.tx);
        } else {
          WriteShape(s, h, step.tx);
        }
      } else if Locking.Unfinished(s.txs[step.tx]) {
        EndShape(s, step.tx, s.db, Threw);
      }
    }
  }

  /** A transaction that ends serves its call in one piece, on the database of that moment. */
  lemma EndIsServe(s: Locking.State, h: Locking.OrderHash, start: Db, initial: map<PartId, int>, step: Locking.Step)
    requires Locking.Inv(s, h, start, initial)
    ensures var t := Locking.Next(s, h, step);
      && Locking.Inv(t, h, start, initial)
      && (|t.log| == |s.log| + 1 && t.log[..|s.log|] == s.log ==>
            Serve(s.db, t.log[|s.log|].call) == (t.db, t.log[|s.log|].answer))
  {
    hide Locking.Next, Locking.Inv, Serve, Exec, Locking.SerialAnswers;
    Locking.NextKeeps(s, h, start, initial, step);
    var t := Locking.Next(s, h, step);
    if |t.log| == |s.log| + 1 && t.log[..|s.log|] == s.log {
      LastLogged(s, t, h, start, initial);
    }
  }

  lemma LastLogged(s: Locking.State, t: Locking.State, h: Locking.OrderHash, start: Db, initial: map<PartId, int>)
    requires |t.log| == |s.log| + 1 && t.log[..|s.log|] == s.log
    requires Locking.Inv(s, h, start, initial) && Locking.Inv(t, h, start, initial)
    ensures Serve(s.db, t.log[|s.log|].call) == (t.db, t.log[|s.log|].answer)
  {
    hide Serve, DbInv, Locking.TxOk, Locking.LocksOk, Locking.LogOk;
    var calls := Locking.CallsOf(t.log);
    assert calls[..|s.log|] == Locking.CallsOf(s.log) && calls[|s.log|] == t.log[|s.log|].call;
  }

  // ---------- the two machines agree ----------

  /** Transactions serve different RPCs, each the call of its message, and exactly the finished ones have answered. */
  ghost predicate Serves(j: System) {
    && |j.rpcOf| == |j.stock.txs|
    && (forall i, k :: 0 <= i < k < |j.rpcOf| ==> j.rpcOf[i] != j.rpcOf[k])
    && (forall i :: 0 <= i < |j.rpcOf| ==>
          && j.rpcOf[i] < |j.saga.rpcs|
          && j.stock.txs[i].call == CallOf(j.saga.rpcs[j.rpcOf[i]].msg, j.stock.txs[i].call.now)
          && (j.saga.rpcs[j.rpcOf[i]].answer == None <==> !j.stock.txs[i].pc.Finished?))
  }

  ghost predicate JoinedInv(j: System, h: Locking.OrderHash, start: Db, initial: map<PartId, int>) {
    j.stock.db == j.saga.db && Serves(j) && Inv(j.saga, initial) && Locking.Inv(j.stock, h, start, initial)
  }

  /** What the move is for the machine of Sales: its own event, a delivery, or nothing. */
  function SagaEvents(j: System, h: Locking.OrderHash, m: Move): seq<Event> {
    match m
    case Sales(e) => if e.Deliver? then [] else [e]
    case Arrive(_, _) => []
    case Statement(step) =>
      if |Locking.Next(j.stock, h, step).log| > |j.stock.log| && step.tx < |j.rpcOf| && step.tx < |j.stock.txs|
      then [Deliver(j.rpcOf[step.tx], j.stock.txs[step.tx].call.now)]
      else []
  }

  lemma SalesKeepsRpcs(s: State, e: Event)
    requires !e.Deliver?
    ensures var t := Next(s, e);
      t.db == s.db && |s.rpcs| <= |t.rpcs| && forall c :: 0 <= c < |s.rpcs| ==> t.rpcs[c] == s.rpcs[c]
  {
    hide NextAct, ValidOrderItems, NormalizeItems, IsUuid, ToLower, Enabled;
    if e.Act? && Enabled(s, e.h, e.action) {
      OnlyWritersWrite(s, e.h, e.action);
      ActFrame(s, e.h, e.action);
    }
  }

  lemma ArriveKeeps(s: Locking.State, h: Locking.OrderHash, start: Db, initial: map<PartId, int>, call: StockCall)
    requires Locking.Inv(s, h, start, initial) && ValidCall(call)
    ensures Locking.Inv(
      s.(txs := s.txs + [Locking.Tx(call, Locking.Start, None, map[], map[])]), h, start, initial)
  {
    hide DbInv, Exec, Locking.SerialAnswers, ValidCall, Locking.TxOk;
    var tx := Locking.Tx(call, Locking.Start, None, map[], map[]);
    var t := s.(txs := s.txs + [tx]);
    forall i | 0 <= i < |t.txs| ensures Locking.TxOk(t, h, i) {
      if i < |s.txs| { SameTx(s, t, h, i); } else { NewTx(t, h, i); }
    }
  }

  lemma SameTx(s: Locking.State, t: Locking.State, h: Locking.OrderHash, i: nat)
    requires i < |s.txs| && i < |t.txs| && t.txs[i] == s.txs[i] && Locking.TxOk(s, h, i)
    requires t.db == s.db && t.orderLocks == s.orderLocks && t.partLocks == s.partLocks
    ensures Locking.TxOk(t, h, i)
  {
  }

  lemma NewTx(t: Locking.State, h: Locking.OrderHash, i: nat)
    requires i < |t.txs| && ValidCall(t.txs[i].call)
    requires t.txs[i] == Locking.Tx(t.txs[i].call, Locking.Start, None, map[], map[])
    ensures Locking.TxOk(t, h, i)
  {
    hide ValidCall;
  }

  lemma MoveRefines(j: System, h: Locking.OrderHash, start: Db, initial: map<PartId, int>, m: Move)
    requires JoinedInv(j, h, start, initial)
    ensures var u := Moved(j, h, m);
      && u.saga == After(j.saga, SagaEvents(j, h, m))
      && JoinedInv(u, h, start, initial)
  {
    hide Inv, Next, Locking.Inv, Locking.Next, After;
    match m
    case Sales(e) =>
      AfterNone(j.saga);
      if !e.Deliver? {
        AfterOne(j.saga, e);
        NextKeeps(j.saga, initial, e);
        SalesKeepsRpcs(j.saga, e);
      }
    case Arrive(c, now) =>
      AfterNone(j.saga);
      if c < |j.saga.rpcs| {
        DeliveredCallIsValid(j.saga, initial, c, now);
        ArriveKeeps(j.stock, h, start, initial, CallOf(j.saga.rpcs[c].msg, now));
      }
    case Statement(step) => StatementRefines(j, h, start, initial, step);
  }

  lemma AfterNone(s: State)
    ensures After(s, []) == s
  {
  }

  lemma StatementRefines(j: System, h: Locking.OrderHash, start: Db, initial: map<PartId, int>, step: Locking.Step)
    requires JoinedInv(j, h, start, initial)
    ensures var u := Moved(j, h, Statement(step));
      && u.saga == After(j.saga, SagaEvents(j, h, Statement(step)))
      && JoinedInv(u, h, start, initial)
  {
    hide Inv, Next, Locking.Inv, Locking.Next, After, Serve;
    StatementShape(j.stock, h, step);
    EndIsServe(j.stock, h, start, initial, step);
    AfterNone(j.saga);
    var t := Locking.Next(j.stock, h, step);
    if |t.log| > |j.stock.log| {
      var c, now := j.rpcOf[step.tx], j.stock.txs[step.tx].call.now;
      AfterOne(j.saga, Deliver(c, now));
      NextKeeps(j.saga, initial, Deliver(c, now));
      assert Next(j.saga, Deliver(c, now)) == Moved(j, h, Statement(step)).saga by { DeliveredAtOnce(j, h, step); }
    }
  }

  lemma DeliveredAtOnce(j: System, h: Locking.OrderHash, step: Locking.Step)
    requires Serves(j) && step.tx < |j.stock.txs| && Locking.Unfinished(j.stock.txs[step.tx]) && j.stock.db == j.saga.db
    requires var t := Locking.Next(j.stock, h, step);
      && |t.log| == |j.stock.log| + 1
      && Serve(j.stock.db, j.stock.txs[step.tx].call) == (t.db, t.log[|j.stock.log|].answer)
    ensures Next(j.saga, Deliver(j.rpcOf[step.tx], j.stock.txs[step.tx].call.now)) == Moved(j, h, Statement(step)).saga
  {
    hide Serve, Locking.Next;
  }

  // ---------- runs ----------

  /** The events of Saga that a run amounts to. */
  function Events(j: System, h: Locking.OrderHash, ms: seq<Move>): seq<Event> {
    if ms == [] then []
    else
      var before := ms[..|ms| - 1];
      Events(j, h, before) + SagaEvents(Run(j, h, before), h, ms[|ms| - 1])
  }

  lemma StartOk(j: System, h: Locking.OrderHash)
    requires Starts(j)
    ensures JoinedInv(j, h, j.saga.db, StockOf(j.saga.db.parts))
  {
    hide Inv, Initial, DbInv;
    InitialOk(j.saga);
    InvDb(j.saga, StockOf(j.saga.db.parts));
    Locking.RunKeeps(j.stock, h, StockOf(j.saga.db.parts), []);
  }

  /**
   However the statements of Inventory's transactions interleave with each other and with every
   step of Sales, the run is one of Saga, with the same database: each RPC is delivered in one
   piece when its transaction ends. All that holds of Saga's runs holds of these.
   */
  lemma {:induction false} JoinedRunsAreSagaRuns(j: System, h: Locking.OrderHash, ms: seq<Move>)
    requires Starts(j)
    ensures var u := Run(j, h, ms);
      && u.saga == After(j.saga, Events(j, h, ms)) && u.stock.db == u.saga.db
      && JoinedInv(u, h, j.saga.db, StockOf(j.saga.db.parts))
  {
    hide Moved, JoinedInv, SagaEvents, After, Starts;
    var initial := StockOf(j.saga.db.parts);
    if ms == [] {
      StartOk(j, h);
      AfterNone(j.saga);
      SameDb(j, h, j.saga.db, initial);
    } else {
      var before := ms[..|ms| - 1];
      JoinedRunsAreSagaRuns(j, h, before);
      var u := Run(j, h, before);
      MoveRefines(u, h, j.saga.db, initial, ms[|ms| - 1]);
      AfterConcat(j.saga, Events(j, h, before), SagaEvents(u, h, ms[|ms| - 1]));
      SameDb(Run(j, h, ms), h, j.saga.db, initial);
    }
  }

  lemma SameDb(j: System, h: Locking.OrderHash, start: Db, initial: map<PartId, int>)
    requires JoinedInv(j, h, start, initial)
    ensures j.stock.db == j.saga.db
  {
  }

  /** The deliveries among some events. */
  function Deliveries(es: seq<Event>): seq<Event> {
    if es == [] then []
    else Deliveries(es[..|es| - 1]) + if es[|es| - 1].Deliver? then [es[|es| - 1]] else []
  }

  /** The transactions that ended with an answer, in order, as deliveries of the RPCs they served. */
  function Logged(log: seq<Locking.Entry>, rpcOf: seq<nat>): (r: seq<Event>)
    ensures |r| == |log|
  {
    seq(|log|, k requires 0 <= k < |log| =>
      Deliver(if log[k].tx < |rpcOf| then rpcOf[log[k].tx] else 0, log[k].call.now))
  }

  lemma DeliveriesSnoc(es: seq<Event>, e: Event)
    ensures Deliveries(es + [e]) == Deliveries(es) + if e.Deliver? then [e] else []
  {
    assert (es + [e])[..|es|] == es;
  }

  lemma MoveLogs(j: System, h: Locking.OrderHash, start: Db, initial: map<PartId, int>, m: Move, es: seq<Event>)
    requires JoinedInv(j, h, start, initial) && Deliveries(es) == Logged(j.stock.log, j.rpcOf)
    ensures var u := Moved(j, h, m); Deliveries(es + SagaEvents(j, h, m)) == Logged(u.stock.log, u.rpcOf)
  {
    hide Inv, Next, Locking.Inv, Locking.Next, Deliveries;
    assert es + [] == es;
    match m
    case Sales(e) => DeliveriesSnoc(es, e);
    case Arrive(c, _) => LogBelow(j, h, start, initial);
    case Statement(step) => StatementLogs(j, h, start, initial, step, es);
  }

  lemma StatementLogs(
    j: System, h: Locking.OrderHash, start: Db, initial: map<PartId, int>, step: Locking.Step, es: seq<Event>)
    requires JoinedInv(j, h, start, initial) && Deliveries(es) == Logged(j.stock.log, j.rpcOf)
    ensures var m := Statement(step); var u := Moved(j, h, m);
      Deliveries(es + SagaEvents(j, h, m)) == Logged(u.stock.log, u.rpcOf)
  {
    hide Inv, Next, Locking.Inv, Locking.Next, Deliveries, Logged;
    assert es + [] == es;
    StatementShape(j.stock, h, step);
    var t := Locking.Next(j.stock, h, step);
    if |t.log| > |j.stock.log| {
      DeliveriesSnoc(es, Deliver(j.rpcOf[step.tx], j.stock.txs[step.tx].call.now));
      assert t.log == j.stock.log + [t.log[|j.stock.log|]];
      LoggedSnoc(j.stock.log, j.rpcOf, t.log[|j.stock.log|]);
    }
  }

  lemma LoggedSnoc(log: seq<Locking.Entry>, rpcOf: seq<nat>, e: Locking.Entry)
    requires e.tx < |rpcOf|
    ensures Logged(log + [e], rpcOf) == Logged(log, rpcOf) + [Deliver(rpcOf[e.tx], e.call.now)]
  {
  }

  lemma LogBelow(j: System, h: Locking.OrderHash, start: Db, initial: map<PartId, int>)
    requires JoinedInv(j, h, start, initial)
    ensures forall k :: 0 <= k < |j.stock.log| ==> j.stock.log[k].tx < |j.rpcOf|
  {
    hide Inv, DbInv, Locking.TxOk, Locking.LocksOk, Locking.SerialAnswers;
  }

  /** The RPCs are delivered in the order in which their transactions end. */
  lemma {:induction false} DeliveredInLogOrder(j: System, h: Locking.OrderHash, ms: seq<Move>)
    requires Starts(j)
    ensures var u := Run(j, h, ms); Deliveries(Events(j, h, ms)) == Logged(u.stock.log, u.rpcOf)
  {
    hide Moved, JoinedInv, SagaEvents, After, Deliveries;
    if ms == [] {
      assert Deliveries([]) == [] by { NoDeliveries(); }
    } else {
      var before := ms[..|ms| - 1];
      DeliveredInLogOrder(j, h, before);
      JoinedRunsAreSagaRuns(j, h, before);
      MoveLogs(Run(j, h, before), h, j.saga.db, StockOf(j.saga.db.parts), ms[|ms| - 1], Events(j, h, before));
    }
  }

  lemma NoDeliveries()
    ensures Deliveries([]) == []
  {
  }

  /** The exact condition of global conservation, with Inventory's transactions interleaved. */
  lemma JoinedConservation(j: System, h: Locking.OrderHash, ms: seq<Move>)
    requires Starts(j) && Settled(Run(j, h, ms).saga)
    ensures Conserved(Run(j, h, ms).saga, StockOf(j.saga.db.parts)) <==>
      forall o :: !LosesIn(j.saga, Events(j, h, ms), o)
  {
    hide Inv, Run, After, Settled, Conserved, LosesIn, Initial;
    JoinedRunsAreSagaRuns(j, h, ms);
    ConservationIsExact(j.saga, Events(j, h, ms));
  }
}
