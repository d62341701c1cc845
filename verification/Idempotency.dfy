/** Repeated and concurrent checkouts with one idempotency key create one order. */
module Idempotency {
  import opened Measures
  import opened Database
  import opened Inventory
  import opened Conservation
  import opened LayerOne

  predicate Succeeded(p: Proc) {
    p.Replied? && (p.reply.Created? || p.reply.Existing?)
  }

  predicate CreatedOrder(p: Proc) {
    p.Replied? && p.reply.Created?
  }

  /** At most one order per key, and every successful reply for that key names it. */
  lemma SameKeySameOrder(w: World, actions: seq<Action>, i: nat, j: nat)
    requires Initial(w)
    requires var procs := Run(w, actions).procs;
      && i < |procs| && j < |procs| && Succeeded(procs[i]) && Succeeded(procs[j])
      && procs[i].r.user == procs[j].r.user && procs[i].r.key == procs[j].r.key
    ensures Run(w, actions).procs[i].reply.id == Run(w, actions).procs[j].reply.id < |Run(w, actions).db.orders|
  {
    Conserved(w, actions);
    var now := Run(w, actions);
    assert ProcOk(now, now.procs[i]) && ProcOk(now, now.procs[j]);
  }

  // ---------- One reply says "created" ----------

  ghost predicate CreatedOnce(w: World) {
    forall i, j :: 0 <= i < j < |w.procs| && CreatedOrder(w.procs[i]) && CreatedOrder(w.procs[j]) ==>
      w.procs[i].reply.id != w.procs[j].reply.id
  }

  lemma MoveCreatedOnce(w: World, i: nat, env: Env)
    requires Shape(w) && i < |w.procs| && CreatedOnce(w)
    ensures CreatedOnce(Advance(w, i, env))
  {
    var after := Advance(w, i, env);
    if CreatedOrder(after.procs[i]) && !CreatedOrder(w.procs[i]) {
      FreshId(w, i, env);
      forall j | 0 <= j < |w.procs| && j != i && CreatedOrder(w.procs[j])
        ensures w.procs[j].reply.id < |w.db.orders|
      {
        assert ProcOk(w, w.procs[j]);
      }
    }
  }

  /** Only the INSERT answers "created", and it names an order that was not there before. */
  lemma FreshId(w: World, i: nat, env: Env)
    requires i < |w.procs| && !CreatedOrder(w.procs[i]) && CreatedOrder(Advance(w, i, env).procs[i])
    ensures w.procs[i].Inserting? && Advance(w, i, env).procs[i].reply.id == |w.db.orders|
  {
    hide Advance, Total, Held, FindKey, CanHold;
    InsertingStep(w, i, env);
  }

  lemma NobodyCreates(w: World, a: Action)
    requires !a.Move?
    ensures forall j :: 0 <= j < |Do(w, a).procs| && CreatedOrder(Do(w, a).procs[j]) ==>
      j < |w.procs| && Do(w, a).procs[j] == w.procs[j]
  {
    hide Total, Advance;
  }

  lemma DoCreatedOnce(w: World, a: Action)
    requires Shape(w) && CreatedOnce(w)
    ensures CreatedOnce(Do(w, a))
  {
    hide Total, Advance;
    match a
    case Move(i, env) => if i < |w.procs| { MoveCreatedOnce(w, i, env); }
    case _ => NobodyCreates(w, a);
  }

  lemma {:induction false} AlwaysCreatedOnce(w: World, actions: seq<Action>)
    requires Initial(w)
    ensures CreatedOnce(Run(w, actions))
  {
    if actions != [] {
      AlwaysCreatedOnce(w, actions[..|actions| - 1]);
      Conserved(w, actions[..|actions| - 1]);
      DoCreatedOnce(Run(w, actions[..|actions| - 1]), actions[|actions| - 1]);
    }
  }

  // ---------- Twins take their units once ----------

  /** A checkout of user u under key k, at any of its steps. */
  predicate TwinProc(p: Proc, u: UserId, k: Key) {
    (p.Arrived? || p.Reserving? || p.Inserting? || p.Compensating? || p.Rechecking? || p.Replied?) &&
    p.r.user == u && p.r.key == k
  }

  /** Only checkouts of u under k arrive, and processes take steps; nobody crashes. */
  predicate TwinAction(a: Action, u: UserId, k: Key) {
    a.Move? || (a.Arrive? && a.r.user == u && a.r.key == k)
  }

  ghost predicate SameOffer(a: Db, b: Db) {
    |a.categories| == |b.categories| &&
    forall c :: 0 <= c < |a.categories| ==> a.categories[c].quota == b.categories[c].quota
  }

  ghost predicate TwinInv(w0: World, w: World, u: UserId, k: Key) {
    Inv(w) && w.drift == w0.drift && SameOffer(w0.db, w.db) &&
    |w0.procs| <= |w.procs| && w.procs[..|w0.procs|] == w0.procs &&
    (forall i :: |w0.procs| <= i < |w.procs| ==> TwinProc(w.procs[i], u, k)) &&
    (w.db.orders == w0.db.orders ||
     (|w.db.orders| == |w0.db.orders| + 1 && w.db.orders[..|w0.db.orders|] == w0.db.orders &&
      FindKey(w0.db.orders, u, k).None? &&
      w.db.orders[|w0.db.orders|].user == u && w.db.orders[|w0.db.orders|].key == k &&
      w.db.orders[|w0.db.orders|].status == Pending))
  }

  lemma TwinInsert(w0: World, w: World, i: nat, env: Env, u: UserId, k: Key)
    requires TwinInv(w0, w, u, k) && |w0.procs| <= i < |w.procs| && w.procs[i].Inserting?
    ensures var after := StepInserting(w, i, env);
      after.drift == w0.drift && SameOffer(w0.db, after.db) && TwinProc(after.procs[i], u, k) &&
      (after.db.orders == w.db.orders ||
       (w.db.orders == w0.db.orders && FindKey(w0.db.orders, u, k).None? && |after.db.orders| == |w.db.orders| + 1 &&
        after.db.orders[..|w.db.orders|] == w.db.orders &&
        after.db.orders[|w.db.orders|].user == u && after.db.orders[|w.db.orders|].key == k &&
        after.db.orders[|w.db.orders|].status == Pending))
  {
    hide Total;
    assert TwinProc(w.procs[i], u, k);
    if |w.db.orders| > |w0.db.orders| {
      assert w.db.orders[|w0.db.orders|].user == u && w.db.orders[|w0.db.orders|].key == k;
      assert FindKey(w.db.orders, u, k).Some?;
    }
  }

  lemma TwinOther(w: World, i: nat, env: Env, u: UserId, k: Key)
    requires i < |w.procs| && TwinProc(w.procs[i], u, k) && !w.procs[i].Inserting?
    ensures Advance(w, i, env).db == w.db && TwinProc(Advance(w, i, env).procs[i], u, k)
  {
    hide Total;
  }

  lemma TwinStep(w0: World, w: World, a: Action, u: UserId, k: Key)
    requires Idle(w0) && TwinInv(w0, w, u, k) && TwinAction(a, u, k)
    ensures TwinInv(w0, Do(w, a), u, k)
  {
    hide Total, Advance;
    DoKeeps(w, a);
    if a.Move? && a.i < |w.procs| {
      if a.i < |w0.procs| {
        assert w.procs[a.i] == w0.procs[a.i];
      } else if w.procs[a.i].Inserting? {
        TwinInsert(w0, w, a.i, a.env, u, k);
        assert Advance(w, a.i, a.env) == StepInserting(w, a.i, a.env) by { InsertingStep(w, a.i, a.env); }
      } else {
        TwinOther(w, a.i, a.env, u, k);
      }
    }
  }

  lemma InsertingStep(w: World, i: nat, env: Env)
    requires i < |w.procs|
    ensures w.procs[i].Inserting? ==> Advance(w, i, env) == StepInserting(w, i, env)
  {
    hide StepInserting;
  }

  lemma {:induction false} TwinRun(w0: World, actions: seq<Action>, u: UserId, k: Key)
    requires Inv(w0) && Idle(w0)
    requires forall i :: 0 <= i < |actions| ==> TwinAction(actions[i], u, k)
    ensures TwinInv(w0, Run(w0, actions), u, k)
  {
    if actions != [] {
      TwinRun(w0, actions[..|actions| - 1], u, k);
      TwinStep(w0, Run(w0, actions[..|actions| - 1]), actions[|actions| - 1], u, k);
    }
  }

  /**
    However many checkouts of one user with one key run interleaved, once all have replied
    either no order was created and no stock moved, or exactly one was and every category's
    stock has dropped by that order's units. A twin that passed reserve.lua and lost the race
    for the key has given everything back.
  */
  lemma TwinsTakeOnce(w0: World, actions: seq<Action>, u: UserId, k: Key, c: CategoryId)
    requires Inv(w0) && Idle(w0) && c < |w0.db.categories|
    requires forall i :: 0 <= i < |actions| ==> TwinAction(actions[i], u, k)
    requires Idle(Run(w0, actions))
    ensures var w := Run(w0, actions); var n := |w0.db.orders|;
      || (w.db.orders == w0.db.orders && CounterOf(w.redis.stock, c) == CounterOf(w0.redis.stock, c))
      || (FindKey(w0.db.orders, u, k).None? && |w.db.orders| == n + 1 && w.db.orders[..n] == w0.db.orders &&
          w.db.orders[n].user == u && w.db.orders[n].key == k &&
          CounterOf(w.redis.stock, c) == CounterOf(w0.redis.stock, c) - UnitsIn(w.db.orders[n].items, c))
  {
    hide Run;
    TwinRun(w0, actions, u, k);
    var w := Run(w0, actions);
    assert StockBalanced(w0, c) && StockBalanced(w, c) && Balanced(w0.db, c) && Balanced(w.db, c);
    IdleCarriesNothing(w0.procs, c, 0, 0);
    IdleCarriesNothing(w.procs, c, 0, 0);
    if |w.db.orders| > |w0.db.orders| {
      var o := w.db.orders[|w0.db.orders|];
      TotalAppend(w0.db.orders, PendingIn(c), o);
      TotalAppend(w0.db.orders, PaidIn(c), o);
    }
  }

  // ---------- The loser of the race ----------

  lemma CheckoutMoves(w: World, i: nat, env: Env)
    requires i < |w.procs| && Checkout(w.procs[i])
    ensures var p := Advance(w, i, env).procs[i]; Checkout(p) && p.r == w.procs[i].r
  {
    hide Total, FindKey, ReserveOrder, ReserveLua, ReleaseLua, StepReleasing, StepCrediting, StepNotified,
      StepRefunding, StepPaying, StepReconciling, StepAdjusting;
  }

  /** A checkout goes on with its own request until it replies or dies. */
  lemma RequestKept(w: World, a: Action, i: nat)
    requires i < |w.procs| && Checkout(w.procs[i])
    ensures i < |Do(w, a).procs|
    ensures Do(w, a).procs[i].Dead? || (Checkout(Do(w, a).procs[i]) && Do(w, a).procs[i].r == w.procs[i].r)
  {
    hide Total, Advance;
    if a.Move? && a.i == i { CheckoutMoves(w, i, a.env); }
  }

  lemma DeadStays(w: World, a: Action, i: nat)
    requires i < |w.procs| && w.procs[i].Dead?
    ensures i < |Do(w, a).procs| && Do(w, a).procs[i].Dead?
  {
    hide Total;
  }

  /** An idempotency key once stored is never lost. */
  lemma KeyStays(w: World, a: Action, u: UserId, k: Key)
    requires Inv(w) && FindKey(w.db.orders, u, k).Some?
    ensures FindKey(Do(w, a).db.orders, u, k).Some?
  {
    hide Total;
    var id := FindKey(w.db.orders, u, k).value;
    OrdersStay(w, a, id);
  }

  lemma OrdersStay(w: World, a: Action, id: OrderId)
    requires id < |w.db.orders|
    ensures id < |Do(w, a).db.orders|
    ensures Do(w, a).db.orders[id].user == w.db.orders[id].user && Do(w, a).db.orders[id].key == w.db.orders[id].key
  {
    hide Do, Apply, StatementOf;
    DbMoves(w, a);
    ApplyExtends(w.db, StatementOf(w, a));
  }

  lemma {:induction false} OverRun(w: World, actions: seq<Action>, i: nat, u: UserId, k: Key)
    requires Inv(w) && i < |w.procs| && Checkout(w.procs[i]) && FindKey(w.db.orders, u, k).Some?
    ensures Inv(Run(w, actions)) && i < |Run(w, actions).procs| && FindKey(Run(w, actions).db.orders, u, k).Some?
    ensures var p := Run(w, actions).procs[i]; p.Dead? || (Checkout(p) && p.r == w.procs[i].r)
  {
    if actions != [] {
      var init, last := actions[..|actions| - 1], actions[|actions| - 1];
      var before := Run(w, init);
      OverRun(w, init, i, u, k);
      DoKeeps(before, last);
      KeyStays(before, last, u, k);
      if before.procs[i].Dead? { DeadStays(before, last, i); } else { RequestKept(before, last, i); }
    }
  }

  /**
    A twin that passed reserve.lua but comes second at the unique index is never told of a
    stock or limit error: it compensates, and whenever it then looks the key up, whatever has
    run meanwhile, it answers with the order that won.
  */
  lemma LoserAnswersWithTheOrder(start: World, actions: seq<Action>, i: nat, env: Env, more: seq<Action>)
    requires Initial(start) && CalmRun(start, actions) && !env.fail
    requires var w := Run(start, actions);
      i < |w.procs| && w.procs[i].Inserting? && FindKey(w.db.orders, w.procs[i].r.user, w.procs[i].r.key).Some?
    requires var now := Run(Do(Run(start, actions), Move(i, env)), more); i < |now.procs| && now.procs[i].Rechecking?
    ensures var w := Run(start, actions); var r := w.procs[i].r;
      && Do(w, Move(i, env)) == Goto(w, i, Compensating(r, OtherError))
      && var now := Run(Do(w, Move(i, env)), more);
         var p := StepRechecking(now, i).procs[i];
         p.Replied? && p.r == r && p.reply.Existing? && Names(now.db, p.reply.id, r)
  {
    hide Total, Advance, Held, CanHold;
    var w := Run(start, actions);
    var r := w.procs[i].r;
    AcceptedIsHonoured(start, actions, i, env.expiresAt);
    InsertingStep(w, i, env);
    assert Do(w, Move(i, env)) == StepInserting(w, i, env);
    Conserved(start, actions);
    DoKeeps(w, Move(i, env));
    OverRun(Do(w, Move(i, env)), more, i, r.user, r.key);
  }

  // ---------- The same beside all other traffic ----------

  /** What the steps of process i have taken out of the stock of c, less what they have given back. */
  ghost function TakenBy(w: World, actions: seq<Action>, i: nat, c: CategoryId): int {
    if actions == [] then 0
    else
      var before, last := Run(w, actions[..|actions| - 1]), actions[|actions| - 1];
      TakenBy(w, actions[..|actions| - 1], i, c) +
      (if last.Move? && last.i == i
       then CounterOf(before.redis.stock, c) - CounterOf(Do(before, last).redis.stock, c) else 0)
  }

  /** What a checkout owes the stock of c at the step where it stands. */
  function Ledger(p: Proc, c: CategoryId): int {
    if (p.Inserting? || p.Compensating? || CreatedOrder(p)) && p.r.category == c then p.r.qty else 0
  }

  /** The two scripts of a checkout. */
  lemma ScriptTakes(w: World, i: nat, c: CategoryId)
    requires i < |w.procs|
    ensures w.procs[i].Reserving? ==> var after := StepReserving(w, i);
      CounterOf(w.redis.stock, c) - CounterOf(after.redis.stock, c) == Ledger(after.procs[i], c)
    ensures w.procs[i].Compensating? ==> var after := StepCompensating(w, i);
      CounterOf(after.redis.stock, c) - CounterOf(w.redis.stock, c) == Ledger(w.procs[i], c) &&
        Ledger(after.procs[i], c) == 0
  {
  }

  /** The INSERT, and the steps that only read. */
  lemma StatementTakes(w: World, i: nat, env: Env, c: CategoryId)
    requires i < |w.procs|
    ensures w.procs[i].Inserting? ==> var after := StepInserting(w, i, env);
      after.redis == w.redis && Ledger(after.procs[i], c) == Ledger(w.procs[i], c)
    ensures w.procs[i].Arrived? ==> var after := StepArrived(w, i);
      after.redis == w.redis && Ledger(after.procs[i], c) == 0
    ensures w.procs[i].Rechecking? ==> var after := StepRechecking(w, i);
      after.redis == w.redis && Ledger(after.procs[i], c) == 0
  {
    hide Total, Held, FindKey;
  }

  lemma MoveTakes(w: World, i: nat, env: Env, c: CategoryId)
    requires i < |w.procs| && Checkout(w.procs[i])
    ensures var after := Advance(w, i, env);
      CounterOf(w.redis.stock, c) - CounterOf(after.redis.stock, c) == Ledger(after.procs[i], c) - Ledger(w.procs[i], c)
  {
    hide Total, StepArrived, StepReserving, StepInserting, StepCompensating, StepRechecking, StepReleasing,
      StepCrediting, StepNotified, StepRefunding, StepPaying, StepReconciling, StepAdjusting;
    ScriptTakes(w, i, c);
    StatementTakes(w, i, env, c);
  }

  lemma OthersTakeNothing(w: World, a: Action, i: nat, c: CategoryId)
    requires i < |w.procs| && !(a.Move? && a.i == i)
    ensures var after := Do(w, a);
      i < |after.procs| && (after.procs[i] == w.procs[i] || after.procs[i].Dead?)
  {
    hide Total, Advance;
  }

  lemma NoCheckoutAgain(w: World, a: Action, i: nat)
    requires i < |w.procs| && i < |Do(w, a).procs| && Checkout(Do(w, a).procs[i])
    ensures Checkout(w.procs[i])
  {
    hide Total, Advance;
  }

  /** A process that arrives has taken nothing. */
  lemma NewcomerTakesNothing(w: World, a: Action, i: nat, c: CategoryId)
    requires |w.procs| <= i < |Do(w, a).procs|
    ensures Ledger(Do(w, a).procs[i], c) == 0 && !a.Move?
  {
    hide Total, Advance;
  }

  lemma MoveOfNobody(w: World, a: Action)
    requires a.Move? && a.i >= |w.procs|
    ensures Do(w, a) == w
  {
  }

  /**
    The ledger is right at every moment of every run: a checkout has taken its quantity iff it
    stands where it should hold it.
  */
  lemma {:induction false} LedgerIsRight(w: World, actions: seq<Action>, i: nat, c: CategoryId)
    requires w.procs == []
    ensures i >= |Run(w, actions).procs| ==> TakenBy(w, actions, i, c) == 0
    ensures i < |Run(w, actions).procs| && Checkout(Run(w, actions).procs[i]) ==>
      TakenBy(w, actions, i, c) == Ledger(Run(w, actions).procs[i], c)
  {
    hide Total, Do, Ledger, Checkout;
    if actions != [] {
      var before, last := Run(w, actions[..|actions| - 1]), actions[|actions| - 1];
      LedgerIsRight(w, actions[..|actions| - 1], i, c);
      LedgerStep(before, last, i, c);
    }
  }

  lemma LedgerStep(w: World, a: Action, i: nat, c: CategoryId)
    ensures var after := Do(w, a);
      var taken := if a.Move? && a.i == i then CounterOf(w.redis.stock, c) - CounterOf(after.redis.stock, c) else 0;
      && |w.procs| <= |after.procs|
      && (i >= |w.procs| ==> taken == 0)
      && (|w.procs| <= i < |after.procs| ==> Ledger(after.procs[i], c) == 0)
      && (i < |w.procs| && Checkout(after.procs[i]) ==>
           Checkout(w.procs[i]) && taken == Ledger(after.procs[i], c) - Ledger(w.procs[i], c))
  {
    hide Total, Do, Ledger, Checkout;
    ProcsGrow(w, a);
    if i < |w.procs| {
      if Checkout(Do(w, a).procs[i]) {
        NoCheckoutAgain(w, a, i);
        if a.Move? && a.i == i {
          MoveTakes(w, i, a.env, c);
          MoveIs(w, a);
        } else {
          OthersTakeNothing(w, a, i, c);
          DeadIsNoCheckout(Do(w, a).procs[i]);
        }
      }
    } else {
      if i < |Do(w, a).procs| { NewcomerTakesNothing(w, a, i, c); }
      if a.Move? && a.i == i { MoveOfNobody(w, a); }
    }
  }

  lemma DeadIsNoCheckout(p: Proc)
    ensures p.Dead? ==> !Checkout(p)
  {
  }

  lemma MoveIs(w: World, a: Action)
    requires a.Move? && a.i < |w.procs|
    ensures Do(w, a) == Advance(w, a.i, a.env)
  {
  }

  lemma ProcsGrow(w: World, a: Action)
    ensures |w.procs| <= |Do(w, a).procs|
  {
    hide Total, Advance;
  }

  // ---------- Every order has been announced ----------

  ghost predicate AnnouncedAt(w: World, id: OrderId) {
    exists j :: 0 <= j < |w.procs| && CreatedOrder(w.procs[j]) && w.procs[j].reply.id == id
  }

  ghost predicate Announced(w: World) {
    forall id :: 0 <= id < |w.db.orders| ==> AnnouncedAt(w, id)
  }

  lemma RepliedForGood(w: World, a: Action, j: nat)
    requires j < |w.procs| && w.procs[j].Replied?
    ensures j < |Do(w, a).procs| && Do(w, a).procs[j] == w.procs[j]
  {
    hide Total;
  }

  lemma SizeAfter(db: Db, op: DbOp)
    ensures |Apply(db, op).orders| != |db.orders| ==>
      op.OpReserve? && ReserveOrder(db, op.r, op.expiresAt).1 == Ok(|db.orders|) &&
        |Apply(db, op).orders| == |db.orders| + 1
  {
    hide Held, FindKey, CanHold, CodesFresh, IssueTickets;
  }

  /** An order is born in the step that announces it. */
  lemma OrderBorn(w: World, a: Action)
    requires |Do(w, a).db.orders| != |w.db.orders|
    ensures |Do(w, a).db.orders| == |w.db.orders| + 1
    ensures a.Move? && a.i < |Do(w, a).procs| && CreatedOrder(Do(w, a).procs[a.i])
    ensures Do(w, a).procs[a.i].reply.id == |w.db.orders|
  {
    hide Do, Advance, Total, Held, FindKey, CanHold;
    DbMoves(w, a);
    SizeAfter(w.db, StatementOf(w, a));
    MoveIs(w, a);
    InsertingStep(w, a.i, a.env);
  }

  lemma {:induction false} AlwaysAnnounced(w: World, actions: seq<Action>)
    requires w.db.orders == []
    ensures Announced(Run(w, actions))
  {
    hide Do;
    if actions != [] {
      var before, last := Run(w, actions[..|actions| - 1]), actions[|actions| - 1];
      AlwaysAnnounced(w, actions[..|actions| - 1]);
      var after := Do(before, last);
      if |after.db.orders| != |before.db.orders| {
        OrderBorn(before, last);
        assert AnnouncedAt(after, |before.db.orders|);
      }
      forall id | 0 <= id < |before.db.orders| ensures AnnouncedAt(after, id) {
        assert AnnouncedAt(before, id);
        var j :| 0 <= j < |before.procs| && CreatedOrder(before.procs[j]) && before.procs[j].reply.id == id;
        RepliedForGood(before, last, j);
      }
    }
  }

  /** What the checkouts of u under k among the first n processes have taken out of the stock of c. */
  ghost function TakenByTwins(w: World, actions: seq<Action>, n: nat, u: UserId, k: Key, c: CategoryId): int
    requires n <= |Run(w, actions).procs|
  {
    if n == 0 then 0
    else
      TakenByTwins(w, actions, n - 1, u, k, c) +
      (if TwinProc(Run(w, actions).procs[n - 1], u, k) then TakenBy(w, actions, n - 1, c) else 0)
  }

  function TwinLedger(u: UserId, k: Key, c: CategoryId): Proc -> int {
    (p: Proc) => if TwinProc(p, u, k) then Ledger(p, c) else 0
  }

  lemma {:induction false} TwinsByLedger(w: World, actions: seq<Action>, n: nat, u: UserId, k: Key, c: CategoryId)
    requires w.procs == [] && n <= |Run(w, actions).procs|
    ensures TakenByTwins(w, actions, n, u, k, c) == Total(Run(w, actions).procs[..n], TwinLedger(u, k, c))
  {
    hide Run, TakenBy, Ledger;
    if n > 0 {
      TwinsByLedger(w, actions, n - 1, u, k, c);
      LedgerIsRight(w, actions, n - 1, c);
      assert Run(w, actions).procs[..n][..n - 1] == Run(w, actions).procs[..n - 1];
    }
  }

  /**
    Over every run, with any other users' checkouts, releases, payments, heals, edits and
    crashes between their steps: once no checkout of user u under key k is under way, those
    that have replied have together taken out of the stock exactly the units of the one order
    under that key, and nothing if there is none.
  */
  lemma TwinsTakeOnceAmongOthers(w: World, actions: seq<Action>, u: UserId, k: Key, c: CategoryId)
    requires Initial(w)
    requires var procs := Run(w, actions).procs;
      forall i :: 0 <= i < |procs| && TwinProc(procs[i], u, k) ==> procs[i].Replied?
    ensures var now := Run(w, actions);
      TakenByTwins(w, actions, |now.procs|, u, k, c) ==
        match FindKey(now.db.orders, u, k)
        case None => 0
        case Some(id) => UnitsIn(now.db.orders[id].items, c)
  {
    hide Total, Run, Do, Inv, TakenBy, TakenByTwins;
    var now := Run(w, actions);
    Conserved(w, actions);
    AlwaysCreatedOnce(w, actions);
    AlwaysAnnounced(w, actions);
    TwinsByLedger(w, actions, |now.procs|, u, k, c);
    assert now.procs[..|now.procs|] == now.procs;
    RepliesAddUp(now, u, k, c);
  }

  lemma RepliesAddUp(w: World, u: UserId, k: Key, c: CategoryId)
    requires Inv(w) && CreatedOnce(w) && Announced(w)
    requires forall i :: 0 <= i < |w.procs| && TwinProc(w.procs[i], u, k) ==> w.procs[i].Replied?
    ensures Total(w.procs, TwinLedger(u, k, c)) ==
      match FindKey(w.db.orders, u, k)
      case None => 0
      case Some(id) => UnitsIn(w.db.orders[id].items, c)
  {
    hide Total;
    match FindKey(w.db.orders, u, k)
    case None =>
      forall i | 0 <= i < |w.procs| ensures TwinLedger(u, k, c)(w.procs[i]) == 0 {
        assert ProcOk(w, w.procs[i]);
      }
      TotalZero(w.procs, TwinLedger(u, k, c));
    case Some(id) =>
      assert AnnouncedAt(w, id);
      var j :| 0 <= j < |w.procs| && CreatedOrder(w.procs[j]) && w.procs[j].reply.id == id;
      assert ProcOk(w, w.procs[j]);
      forall i | 0 <= i < |w.procs| && i != j ensures TwinLedger(u, k, c)(w.procs[i]) == 0 {
        assert ProcOk(w, w.procs[i]);
      }
      TotalOne(w.procs, TwinLedger(u, k, c), j);
      OneItem(w.db.orders[id].items, c);
  }
}
