/** Every order is settled exactly once, however many expiries, cancellations and webhooks race for it. */
module Settlement {
  import opened Measures
  import opened Database
  import opened StatementLaws
  import opened Inventory
  import opened Conservation

  /** A process that has won the release of order `id` and has not yet credited Redis. */
  function Owes(id: OrderId): Proc -> int {
    (p: Proc) => if p.Crediting? && p.id == id then 1 else 0
  }

  /** A notification of order `id` answered with `outcome`. */
  function Says(id: OrderId, outcome: Outcome): Proc -> int {
    (p: Proc) => if p.Settled? && p.id == id && p.outcome == outcome then 1 else 0
  }

  predicate LeftUnpaid(status: OrderStatus) {
    status == Expired || status == Cancelled || status == Refunded
  }

  function Indicator(b: bool): int {
    if b then 1 else 0
  }

  /**
    The account of one order: the credits given, owed and dropped by a crash add up to one
    exactly when the order left PENDING unpaid; the notifications answered PAID (REFUNDED) add
    up to one exactly when the order is PAID (REFUNDED). An order that does not exist has none.
  */
  ghost predicate SettledOnce(w: World, id: OrderId) {
    var known := id < |w.db.orders|;
    Total(w.procs, Owes(id))
      + (if id < |w.credited| then w.credited[id] else 0) + (if id < |w.dropped| then w.dropped[id] else 0)
      == Indicator(known && LeftUnpaid(w.db.orders[id].status)) &&
    Total(w.procs, Says(id, PaidOut)) == Indicator(known && w.db.orders[id].status == Paid) &&
    Total(w.procs, Says(id, RefundedOut)) == Indicator(known && w.db.orders[id].status == Refunded) &&
    (id < |w.credited| ==> w.credited[id] >= 0) && (id < |w.dropped| ==> w.dropped[id] >= 0)
  }

  lemma CountsShift(w: World, i: nat, p: Proc, id: OrderId)
    requires i < |w.procs|
    ensures Total(w.procs[i := p], Owes(id)) == Total(w.procs, Owes(id)) - Owes(id)(w.procs[i]) + Owes(id)(p)
    ensures Total(w.procs[i := p], Says(id, PaidOut))
         == Total(w.procs, Says(id, PaidOut)) - Says(id, PaidOut)(w.procs[i]) + Says(id, PaidOut)(p)
    ensures Total(w.procs[i := p], Says(id, RefundedOut))
         == Total(w.procs, Says(id, RefundedOut)) - Says(id, RefundedOut)(w.procs[i]) + Says(id, RefundedOut)(p)
  {
    TotalUpdate(w.procs, Owes(id), i, p);
    TotalUpdate(w.procs, Says(id, PaidOut), i, p);
    TotalUpdate(w.procs, Says(id, RefundedOut), i, p);
  }

  lemma CountsGrow(w: World, p: Proc, id: OrderId)
    requires !p.Crediting? && !p.Settled?
    ensures Total(w.procs + [p], Owes(id)) == Total(w.procs, Owes(id))
    ensures Total(w.procs + [p], Says(id, PaidOut)) == Total(w.procs, Says(id, PaidOut))
    ensures Total(w.procs + [p], Says(id, RefundedOut)) == Total(w.procs, Says(id, RefundedOut))
  {
    TotalAppend(w.procs, Owes(id), p);
    TotalAppend(w.procs, Says(id, PaidOut), p);
    TotalAppend(w.procs, Says(id, RefundedOut), p);
  }

  lemma ReleasingSettles(w: World, i: nat, env: Env, id: OrderId)
    requires i < |w.procs| && w.procs[i].Releasing? && SettledOnce(w, id)
    requires w.procs[i].id < |w.db.orders| ==> w.db.orders[w.procs[i].id].items != []
    ensures SettledOnce(StepReleasing(w, i, env), id)
  {
    hide Total;
    CountsShift(w, i, StepReleasing(w, i, env).procs[i], id);
  }

  lemma CreditingSettles(w: World, i: nat, id: OrderId)
    requires i < |w.procs| && w.procs[i].Crediting? && SettledOnce(w, id)
    requires |w.procs[i].rows| == 1 && w.procs[i].id < |w.credited|
    ensures SettledOnce(StepCrediting(w, i), id)
  {
    hide Total;
    CountsShift(w, i, StepCrediting(w, i).procs[i], id);
  }

  lemma PayingSettles(w: World, i: nat, env: Env, id: OrderId)
    requires i < |w.procs| && w.procs[i].Paying? && SettledOnce(w, id)
    ensures SettledOnce(StepPaying(w, i, env), id)
  {
    hide Total;
    CountsShift(w, i, StepPaying(w, i, env).procs[i], id);
  }

  lemma RefundingSettles(w: World, i: nat, id: OrderId)
    requires i < |w.procs| && w.procs[i].Refunding? && SettledOnce(w, id)
    ensures SettledOnce(StepRefunding(w, i), id)
  {
    hide Total;
    CountsShift(w, i, StepRefunding(w, i).procs[i], id);
  }

  lemma InsertingSettles(w: World, i: nat, env: Env, id: OrderId)
    requires i < |w.procs| && w.procs[i].Inserting? && SettledOnce(w, id)
    requires |w.credited| == |w.dropped| == |w.db.orders|
    ensures SettledOnce(StepInserting(w, i, env), id)
  {
    hide Total;
    CountsShift(w, i, StepInserting(w, i, env).procs[i], id);
  }

  /** Every other step neither wins, owes nor answers anything. */
  lemma OtherSettles(w: World, after: World, i: nat, id: OrderId)
    requires i < |w.procs| && SettledOnce(w, id) && OneMoves(w, i, after)
    requires after.db == w.db && after.credited == w.credited && after.dropped == w.dropped
    requires forall p | p == w.procs[i] || p == after.procs[i] ::
      !p.Crediting? && (p.Settled? ==> p.outcome != PaidOut && p.outcome != RefundedOut)
    ensures SettledOnce(after, id)
  {
    hide Total;
    CountsShift(w, i, after.procs[i], id);
  }

  lemma MoveSettles(w: World, i: nat, env: Env, id: OrderId)
    requires Inv(w) && i < |w.procs| && SettledOnce(w, id)
    ensures SettledOnce(Advance(w, i, env), id)
  {
    hide Total, SettledOnce, FindKey, ReserveLua, ReleaseLua, ReserveOrder, PayOrder, ReleaseOrder, RefundOrder;
    AlwaysReady(w, i);
    match w.procs[i]
    case Releasing(_, _) => ReleasingSettles(w, i, env, id);
    case Crediting(_, _, _, _) => CreditingSettles(w, i, id);
    case Paying(_, _, _) => PayingSettles(w, i, env, id);
    case Refunding(_, _) => RefundingSettles(w, i, id);
    case Inserting(_) => InsertingSettles(w, i, env, id);
    case Arrived(_, _) => OtherSettles(w, StepArrived(w, i), i, id);
    case Reserving(_) => OtherSettles(w, StepReserving(w, i), i, id);
    case Compensating(_, _) => OtherSettles(w, StepCompensating(w, i), i, id);
    case Rechecking(_) => OtherSettles(w, StepRechecking(w, i), i, id);
    case Notified(_, _, _) => OtherSettles(w, StepNotified(w, i), i, id);
    case Reconciling(_, _) => OtherSettles(w, StepReconciling(w, i, env), i, id);
    case Adjusting(_, _) => OtherSettles(w, StepAdjusting(w, i), i, id);
    case _ =>
  }

  lemma DoSettles(w: World, a: Action, id: OrderId)
    requires Inv(w) && SettledOnce(w, id)
    ensures SettledOnce(Do(w, a), id)
  {
    hide Total, Advance, DbInv;
    match a
    case Move(i, env) => if i < |w.procs| { MoveSettles(w, i, env, id); }
    case Fall(i) =>
      if i < |w.procs| && !Done(w.procs[i]) {
        assert ProcOk(w, w.procs[i]);
        CountsShift(w, i, Dead, id);
      }
    case Arrive(r, listed) => CountsGrow(w, Arrived(r, listed), id);
    case AskRelease(o, reason) => CountsGrow(w, Releasing(o, reason), id);
    case Notify(o, pay) => CountsGrow(w, Notified(o, pay, 0), id);
    case Compare(c) =>
      if c < |w.db.categories| { CountsGrow(w, Reconciling(c, Comparing(Available(w.db.categories[c]))), id); }
    case Edit(c, _, quota) =>
      if c < |w.db.categories| { CountsGrow(w, Adjusting(c, quota - w.db.categories[c].quota), id); }
    case Add(_, _, _) =>
  }

  /** The account of every order balances after every run. */
  lemma {:induction false} AlwaysSettledOnce(w: World, actions: seq<Action>, id: OrderId)
    requires Initial(w)
    ensures SettledOnce(Run(w, actions), id)
  {
    if actions != [] {
      AlwaysSettledOnce(w, actions[..|actions| - 1], id);
      Conserved(w, actions[..|actions| - 1]);
      DoSettles(Run(w, actions[..|actions| - 1]), actions[|actions| - 1], id);
    }
  }

  lemma {:induction false} NobodyOwes(procs: seq<Proc>, id: OrderId)
    requires forall i :: 0 <= i < |procs| ==> !procs[i].Crediting?
    ensures Total(procs, Owes(id)) == 0
  {
    if procs != [] {
      NobodyOwes(procs[..|procs| - 1], id);
    }
  }

  lemma {:induction false} OwesNonNegative(procs: seq<Proc>, id: OrderId)
    ensures Total(procs, Owes(id)) >= 0
  {
    if procs != [] {
      OwesNonNegative(procs[..|procs| - 1], id);
    }
  }

  /**
    Credited at most once, and only if the order left PENDING unpaid; and when no release is
    under way and none crashed, exactly then.
  */
  lemma CreditedExactlyOnce(w: World, actions: seq<Action>, id: OrderId)
    requires Initial(w) && id < |Run(w, actions).db.orders|
    ensures var now := Run(w, actions);
      && id < |now.credited| && id < |now.dropped|
      && 0 <= now.credited[id] <= 1
      && (now.credited[id] == 1 ==> LeftUnpaid(now.db.orders[id].status))
      && ((forall i :: 0 <= i < |now.procs| ==> !now.procs[i].Crediting?) && now.dropped[id] == 0 ==>
           (now.credited[id] == 1 <==> LeftUnpaid(now.db.orders[id].status)))
  {
    var now := Run(w, actions);
    AlwaysSettledOnce(w, actions, id);
    Conserved(w, actions);
    OwesNonNegative(now.procs, id);
    if forall i :: 0 <= i < |now.procs| ==> !now.procs[i].Crediting? {
      NobodyOwes(now.procs, id);
    }
  }

  /**
    An order has one ticket per unit iff it is PAID and none otherwise; per category the tickets
    add up to sold; no two tickets share a code; and every order's total is what its items cost.
  */
  lemma TicketsMatchSales(w: World, actions: seq<Action>)
    requires Initial(w)
    ensures var db := Run(w, actions).db;
      && (forall id :: 0 <= id < |db.orders| ==>
           |db.orders[id].tickets| == if db.orders[id].status == Paid then Units(db.orders[id].items) else 0)
      && (forall c :: 0 <= c < |db.categories| ==> Total(db.orders, TicketsIn(c)) == db.categories[c].sold)
      && CodesUnique(db.orders) && Priced(db.orders)
  {
    Conserved(w, actions);
    var db := Run(w, actions).db;
    DatabaseOfRun(w, actions);
    NoCodeTwice(w.db, Statements(w, actions));
    AlwaysPriced(w.db, Statements(w, actions));
    forall id | 0 <= id < |db.orders|
      ensures |db.orders[id].tickets| == if db.orders[id].status == Paid then Units(db.orders[id].items) else 0
    {
      assert WellFormed(db.categories, db.orders[id]);
      OneItem(db.orders[id].items, 0);
    }
    forall c | 0 <= c < |db.categories| ensures Total(db.orders, TicketsIn(c)) == db.categories[c].sold {
      assert Balanced(db, c);
    }
  }

  /** A notification re-enters its handler at most once, and never to pay again. */
  lemma OneReentry(w: World, actions: seq<Action>, i: nat)
    requires Initial(w) && i < |Run(w, actions).procs|
    ensures var p := Run(w, actions).procs[i];
      (p.Notified? ==> p.retries <= 1) && (p.Paying? ==> p.retries == 0)
  {
    Conserved(w, actions);
    assert ProcOk(Run(w, actions), Run(w, actions).procs[i]);
  }
}
