/**
  What each SQL statement does, in full and in its own terms: who is refused and why, which
  rows change and how. Then what no run of statements can break: prices and ticket codes.
*/
module StatementLaws {
  import opened Measures
  import opened Database

  // ---------- What counts as held ----------

  /** Only the account's own PENDING and PAID orders of the event count, each with all its units. */
  lemma HeldGrows(orders: seq<Order>, o: Order, u: UserId, e: EventId)
    requires |o.items| == 1
    ensures Held([], u, e) == 0
    ensures Held(orders + [o], u, e) == Held(orders, u, e) +
      (if o.user == u && o.event == e && (o.status == Pending || o.status == Paid) then o.items[0].qty else 0)
  {
    TotalAppend(orders, HeldBy(u, e), o);
    OneItem(o.items, 0);
  }

  // ---------- antretix_reserve_order ----------

  ghost predicate KeyTaken(orders: seq<Order>, u: UserId, k: Key) {
    exists i :: 0 <= i < |orders| && orders[i].user == u && orders[i].key == k
  }

  ghost predicate Fits(db: Db, r: Request) {
    r.category < |db.categories| && db.categories[r.category].event == r.event &&
    r.qty <= db.categories[r.category].quota - db.categories[r.category].sold - db.categories[r.category].reserved
  }

  lemma KeyFound(orders: seq<Order>, u: UserId, k: Key)
    ensures FindKey(orders, u, k).Some? <==> KeyTaken(orders, u, k)
  {
    var found := FindKey(orders, u, k);
    if found.Some? { assert orders[found.value].user == u; }
  }

  /**
    A checkout is refused for the limit first, then for stock, then for a key that is taken;
    a refusal changes nothing. Otherwise one order appears with the price of the moment, for
    every unit, and its category holds that much more.
  */
  lemma ReserveExactly(db: Db, r: Request, expiresAt: int)
    requires r.qty >= 1
    ensures var (after, v) := ReserveOrder(db, r, expiresAt);
      && (v.LimitExceeded? <==> Held(db.orders, r.user, r.event) + r.qty > r.max)
      && (v.OutOfStock? <==> Held(db.orders, r.user, r.event) + r.qty <= r.max && !Fits(db, r))
      && (v.Violation? <==>
           (Held(db.orders, r.user, r.event) + r.qty <= r.max && Fits(db, r) && KeyTaken(db.orders, r.user, r.key)))
      && (!v.Ok? ==> after == db)
      && (v.Ok? ==> v.id == |db.orders| && OrderAdded(db, r, expiresAt, after))
  {
    hide Held;
    KeyFound(db.orders, r.user, r.key);
  }

  /** `after` is `db` with one new order for r, at the price of the moment, and its units held. */
  ghost predicate OrderAdded(db: Db, r: Request, expiresAt: int, after: Db) {
    && r.category < |db.categories| == |after.categories| && |after.orders| == |db.orders| + 1
    && (forall i :: 0 <= i < |db.orders| ==> after.orders[i] == db.orders[i])
    && (var o, price := after.orders[|db.orders|], db.categories[r.category].price;
        && o.user == r.user && o.event == r.event && o.key == r.key && o.status == Pending && o.expiresAt == expiresAt
        && o.total == r.qty * price && o.tickets == []
        && |o.items| == 1
        && o.items[0].category == r.category && o.items[0].qty == r.qty && o.items[0].unitPrice == price)
    && (forall c :: 0 <= c < |db.categories| ==>
         var a, b := db.categories[c], after.categories[c];
         && b.event == a.event && b.price == a.price && b.quota == a.quota && b.sold == a.sold
         && b.reserved == a.reserved + (if c == r.category then r.qty else 0))
  }

  // ---------- antretix_pay_order ----------

  /** Every category but the order's own is as before, and there the units move as told. */
  ghost predicate CategoryMoved(before: seq<Category>, after: seq<Category>, item: Item, reserved: int, sold: int) {
    |after| == |before| &&
    forall c :: 0 <= c < |before| ==>
      var a, b := before[c], after[c];
      && b.event == a.event && b.price == a.price && b.quota == a.quota
      && b.reserved == a.reserved + (if c == item.category then reserved else 0)
      && b.sold == a.sold + (if c == item.category then sold else 0)
  }

  ghost predicate OnSomeTicket(orders: seq<Order>, code: Code) {
    exists i, j :: 0 <= i < |orders| && 0 <= j < |orders[i].tickets| && orders[i].tickets[j].code == code
  }

  /**
    A payment of a PENDING order goes through if and only if there is a code for every unit,
    those are pairwise distinct, and none of them stands on any ticket. Then the order is PAID
    and its tickets carry those codes in order, its units are sold and no longer held, and
    nothing else changes; otherwise nothing changes at all.
  */
  lemma PayExactly(db: Db, id: OrderId, codes: seq<Code>)
    requires DbInv(db)
    ensures var (after, result) := PayOrder(db, id, codes);
      && (result.NotPending? <==> id >= |db.orders| || db.orders[id].status != Pending)
      && (result.PaidNow? <==>
           (&& id < |db.orders| && db.orders[id].status == Pending
            && |codes| >= db.orders[id].items[0].qty
            && (forall i, j :: 0 <= i < j < db.orders[id].items[0].qty ==> codes[i] != codes[j])
            && (forall i :: 0 <= i < db.orders[id].items[0].qty ==> !OnSomeTicket(db.orders, codes[i]))))
      && (!result.PaidNow? ==> after == db)
      && (result.PaidNow? ==> OrderPaid(db, id, codes, after))
  {
    if id < |db.orders| && db.orders[id].status == Pending {
      var o := db.orders[id];
      assert WellFormed(db.categories, o);
      OneItem(o.items, 0);
      assert o.items == [o.items[0]];
      assert forall code :: CodeUsed(db.orders, code) <==> OnSomeTicket(db.orders, code);
      if PayOrder(db, id, codes).1.PaidNow? {
        IssuedTickets(o.items[0], codes);
        forall c | 0 <= c < |db.categories|
          ensures FirstQty(o.items, c) == if c == o.items[0].category then o.items[0].qty else 0
        {
          OneItem(o.items, c);
        }
      }
    }
  }

  ghost predicate OrderPaid(db: Db, id: OrderId, codes: seq<Code>, after: Db)
    requires id < |db.orders| && |db.orders[id].items| == 1 && |codes| >= db.orders[id].items[0].qty
  {
    var a, item := db.orders[id], db.orders[id].items[0];
    && |after.orders| == |db.orders|
    && (forall k :: 0 <= k < |db.orders| && k != id ==> after.orders[k] == db.orders[k])
    && (var b := after.orders[id];
        && b.status == Paid && b.(status := a.status, tickets := a.tickets) == a
        && |b.tickets| == item.qty
        && (forall n :: 0 <= n < |b.tickets| ==>
             b.tickets[n].category == item.category && b.tickets[n].code == codes[n]))
    && CategoryMoved(db.categories, after.categories, item, -item.qty, item.qty)
  }

  // ---------- antretix_release_order ----------

  /**
    A release wins if and only if the order is PENDING and, to expire it, past its hold: a
    cancellation does not look at the clock. The winner gets the order's rows, the order takes
    the status of the reason, and its units are held no longer; anyone else changes nothing.
  */
  lemma ReleaseExactly(db: Db, id: OrderId, reason: Reason, now: int)
    requires DbInv(db)
    ensures var (after, rows) := ReleaseOrder(db, id, reason, now);
      && (rows != [] <==>
           id < |db.orders| && db.orders[id].status == Pending &&
           (reason == ToExpired ==> db.orders[id].expiresAt < now))
      && (rows == [] ==> after == db)
      && (rows != [] ==>
           && rows == db.orders[id].items && |after.orders| == |db.orders|
           && (forall k :: 0 <= k < |db.orders| && k != id ==> after.orders[k] == db.orders[k])
           && after.orders[id].status == (match reason case ToExpired => Expired case ToCancelled => Cancelled)
           && after.orders[id].(status := Pending) == db.orders[id]
           && CategoryMoved(db.categories, after.categories, rows[0], -rows[0].qty, 0))
  {
    if id < |db.orders| {
      assert WellFormed(db.categories, db.orders[id]);
      forall c | 0 <= c < |db.categories|
        ensures FirstQty(db.orders[id].items, c) ==
          if c == db.orders[id].items[0].category then db.orders[id].items[0].qty else 0
      {
        OneItem(db.orders[id].items, c);
      }
    }
  }

  // ---------- The refund and the admin statements ----------

  lemma RefundExactly(db: Db, id: OrderId, seen: OrderStatus)
    ensures var (after, won) := RefundOrder(db, id, seen);
      && (won <==> id < |db.orders| && db.orders[id].status == seen && seen in {Expired, Cancelled})
      && after.categories == db.categories && |after.orders| == |db.orders|
      && (forall k :: 0 <= k < |db.orders| ==>
           after.orders[k] == if won && k == id then db.orders[k].(status := Refunded) else db.orders[k])
  {
  }

  /** A quota goes as low as what is sold and held, and no lower; nothing but price and quota is edited. */
  lemma AdminExactly(db: Db, c: CategoryId, e: EventId, price: int, quota: int)
    requires DbInv(db)
    ensures var after := EditCategory(db, c, price, quota);
      && after.orders == db.orders && |after.categories| == |db.categories|
      && (forall d :: 0 <= d < |db.categories| ==>
           after.categories[d] ==
             if d == c && quota >= db.categories[c].sold + db.categories[c].reserved
             then db.categories[d].(price := price, quota := quota) else db.categories[d])
    ensures var after := AddCategory(db, e, price, quota);
      && after.orders == db.orders
      && |after.categories| == |db.categories| + (if quota >= 0 then 1 else 0)
      && (forall d :: 0 <= d < |db.categories| ==> after.categories[d] == db.categories[d])
      && (quota >= 0 ==> after.categories[|db.categories|] == Category(e, price, quota, 0, 0))
  {
  }

  // ---------- Prices over every run ----------

  /** What an order's items cost at the prices noted in them. */
  function Cost(items: seq<Item>): int {
    if items == [] then 0 else items[0].qty * items[0].unitPrice + Cost(items[1..])
  }

  ghost predicate Priced(orders: seq<Order>) {
    forall i :: 0 <= i < |orders| ==> orders[i].total == Cost(orders[i].items)
  }

  lemma PricedStep(db: Db, op: DbOp)
    requires Priced(db.orders)
    ensures Priced(Apply(db, op).orders)
  {
    hide Cost;
    forall i | 0 <= i < |Apply(db, op).orders|
      ensures Apply(db, op).orders[i].total == Cost(Apply(db, op).orders[i].items)
    {
      if i < |db.orders| { StatusAfter(db, op, i); } else { NewcomerPriced(db, op); }
    }
  }

  lemma NewcomerPriced(db: Db, op: DbOp)
    requires |Apply(db, op).orders| > |db.orders|
    ensures |Apply(db, op).orders| == |db.orders| + 1
    ensures var o := Apply(db, op).orders[|db.orders|]; o.total == Cost(o.items) && o.tickets == []
  {
    assert op.OpReserve?;
    var o := Apply(db, op).orders[|db.orders|];
    assert o.items[1..] == [];
  }

  /**
    Over every run each order's total is the sum of quantity times price over its items, whatever
    prices are edited later.
  */
  lemma {:induction false} AlwaysPriced(db: Db, ops: seq<DbOp>)
    requires db.orders == []
    ensures Priced(ApplyAll(db, ops).orders)
  {
    if ops != [] {
      AlwaysPriced(db, ops[..|ops| - 1]);
      PricedStep(ApplyAll(db, ops[..|ops| - 1]), ops[|ops| - 1]);
    }
  }

  // ---------- Ticket codes over every run ----------

  /** No two tickets, of one order or of two, carry the same code. */
  ghost predicate CodesUnique(orders: seq<Order>) {
    (forall i, m, n :: 0 <= i < |orders| && 0 <= m < n < |orders[i].tickets| ==>
      orders[i].tickets[m].code != orders[i].tickets[n].code) &&
    (forall i, j, m, n :: 0 <= i < j < |orders| && 0 <= m < |orders[i].tickets| && 0 <= n < |orders[j].tickets| ==>
      orders[i].tickets[m].code != orders[j].tickets[n].code)
  }

  lemma CodesStep(db: Db, op: DbOp)
    requires DbInv(db) && CodesUnique(db.orders)
    ensures CodesUnique(Apply(db, op).orders)
  {
    hide Total, Units, IssueTickets, CodesFresh, FindKey, Held, CanHold, MoveToSold, GiveBack, Balanced, KeysUnique;
    var after := Apply(db, op);
    if op.OpPay? {
      PayExactly(db, op.id, op.codes);
      if PayOrder(db, op.id, op.codes).1.PaidNow? { PaidCodes(db, op.id, op.codes, after); }
    } else if |after.orders| > |db.orders| {
      NewcomerPriced(db, op);
      forall i | 0 <= i < |db.orders| ensures after.orders[i].tickets == db.orders[i].tickets {
        StatusAfter(db, op, i);
      }
    } else {
      forall i | 0 <= i < |db.orders|
        ensures |after.orders| == |db.orders| && after.orders[i].tickets == db.orders[i].tickets
      {
        StatusAfter(db, op, i);
      }
    }
  }

  lemma PaidCodes(db: Db, id: OrderId, codes: seq<Code>, after: Db)
    requires CodesUnique(db.orders) && id < |db.orders| && |db.orders[id].items| == 1
    requires |codes| >= db.orders[id].items[0].qty && OrderPaid(db, id, codes, after)
    requires forall i, j :: 0 <= i < j < db.orders[id].items[0].qty ==> codes[i] != codes[j]
    requires forall i :: 0 <= i < db.orders[id].items[0].qty ==> !OnSomeTicket(db.orders, codes[i])
    ensures CodesUnique(after.orders)
  {
    hide CategoryMoved;
    assert forall k, m :: 0 <= k < |db.orders| && 0 <= m < |db.orders[k].tickets| ==>
      OnSomeTicket(db.orders, db.orders[k].tickets[m].code);
  }

  /** Over every run no two tickets share a code. */
  lemma {:induction false} NoCodeTwice(db: Db, ops: seq<DbOp>)
    requires EmptyDb(db)
    ensures CodesUnique(ApplyAll(db, ops).orders)
  {
    if ops != [] {
      NoCodeTwice(db, ops[..|ops| - 1]);
      NeverOversold(db, ops[..|ops| - 1]);
      CodesStep(ApplyAll(db, ops[..|ops| - 1]), ops[|ops| - 1]);
    }
  }
}
