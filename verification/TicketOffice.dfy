/**
  The same operations as they run: one caller against the two stores, statement by statement.
  Each Lua script and SQL function is proved against its specification; createOrder,
  releaseOrder, handlePaymentNotification, the expiry job and reconcileStock are proved
  against what they promise to both layers at once.
*/
module TicketOffice {
  import opened Measures
  import opened Database
  import opened Inventory
  import opened SingleCaller
  import opened Reconcile

  const EXPIRY_BATCH := 500

  datatype ReconcileRow = ReconcileRow(category: CategoryId, available: int, stock: int, diff: int, healed: bool)

  // ---------- Orders past their hold ----------

  predicate Due(o: Order, now: int) {
    o.status == Pending && o.expiresAt < now
  }

  function DueWeight(now: int): Order -> int {
    (o: Order) => if Due(o, now) then 1 else 0
  }

  /** Releasing an order that is due: it alone turns EXPIRED, one order fewer is due, and no gap moves. */
  lemma ReleaseDue(redis: Redis, db: Db, id: OrderId, now: int)
    requires DbInv(db) && id < |db.orders| && Due(db.orders[id], now)
    ensures Releasable(db, id, ToExpired, now)
    ensures var o := db.orders[id];
      var db' := Database.ReleaseOrder(db, id, ToExpired, now).0;
      var redis' := ReleaseLua(redis, o.event, o.user, o.items[0].category, o.items[0].qty).0;
      && db'.orders == db.orders[id := o.(status := Expired)]
      && Total(db'.orders, DueWeight(now)) == Total(db.orders, DueWeight(now)) - 1
      && |db'.categories| == |db.categories|
      && forall c :: 0 <= c < |db.categories| ==> GapOf(redis', db', c) == GapOf(redis, db, c)
  {
    var o := db.orders[id];
    var db' := Database.ReleaseOrder(db, id, ToExpired, now).0;
    var redis' := ReleaseLua(redis, o.event, o.user, o.items[0].category, o.items[0].qty).0;
    TotalUpdate(db.orders, DueWeight(now), id, o.(status := Expired));
    forall c | 0 <= c < |db.categories| ensures GapOf(redis', db', c) == GapOf(redis, db, c) {
      ReleaseKeepsGap(redis, db, id, ToExpired, now, c);
    }
  }

  // ---------- Oldest first ----------

  /** Distinct order ids, by increasing end of hold. */
  predicate OldestFirst(orders: seq<Order>, ids: seq<OrderId>) {
    (forall k :: 0 <= k < |ids| ==> ids[k] < |orders|) &&
    (forall j, k :: 0 <= j < k < |ids| ==> ids[j] != ids[k] && orders[ids[j]].expiresAt <= orders[ids[k]].expiresAt)
  }

  /** Insertion of order i into an oldest-first list. */
  function Place(orders: seq<Order>, ids: seq<OrderId>, i: OrderId): seq<OrderId>
    requires (forall k :: 0 <= k < |ids| ==> ids[k] < |orders|) && i < |orders|
  {
    var n := |ids| - 1;
    if ids == [] || orders[ids[n]].expiresAt <= orders[i].expiresAt then ids + [i]
    else Place(orders, ids[..n], i) + [ids[n]]
  }

  lemma {:induction false} PlaceMembers(orders: seq<Order>, ids: seq<OrderId>, i: OrderId)
    requires (forall k :: 0 <= k < |ids| ==> ids[k] < |orders|) && i < |orders|
    ensures |Place(orders, ids, i)| == |ids| + 1
    ensures forall id :: id in Place(orders, ids, i) <==> id in ids || id == i
  {
    var n := |ids| - 1;
    if n >= 0 && orders[ids[n]].expiresAt > orders[i].expiresAt {
      PlaceMembers(orders, ids[..n], i);
      assert ids == ids[..n] + [ids[n]];
    }
  }

  lemma AppendLast(orders: seq<Order>, ids: seq<OrderId>, x: OrderId)
    requires OldestFirst(orders, ids) && x < |orders|
    requires forall id :: id in ids ==> id < |orders| && id != x && orders[id].expiresAt <= orders[x].expiresAt
    ensures OldestFirst(orders, ids + [x])
  {
    assert forall k :: 0 <= k < |ids| ==> ids[k] in ids;
  }

  /** Everything in an oldest-first list but its last entry. */
  lemma WithoutLast(orders: seq<Order>, ids: seq<OrderId>)
    requires OldestFirst(orders, ids) && ids != []
    ensures var n := |ids| - 1;
      && OldestFirst(orders, ids[..n]) && ids[n] < |orders|
      && (forall id :: id in ids <==> id in ids[..n] || id == ids[n])
      && (forall id :: id in ids[..n] ==>
        id < |orders| && id != ids[n] && orders[id].expiresAt <= orders[ids[n]].expiresAt)
  {
    assert ids == ids[..|ids| - 1] + [ids[|ids| - 1]];
  }

  lemma {:induction false} PlaceKeepsOrder(orders: seq<Order>, ids: seq<OrderId>, i: OrderId)
    requires OldestFirst(orders, ids) && i < |orders| && i !in ids
    requires forall k :: 0 <= k < |ids| ==> ids[k] < |orders|
    ensures OldestFirst(orders, Place(orders, ids, i))
  {
    hide OldestFirst;
    var n := |ids| - 1;
    if ids == [] {
      AppendLast(orders, ids, i);
    } else {
      WithoutLast(orders, ids);
      if orders[ids[n]].expiresAt <= orders[i].expiresAt {
        AppendLast(orders, ids, i);
      } else {
        PlaceKeepsOrder(orders, ids[..n], i);
        PlaceMembers(orders, ids[..n], i);
        AppendLast(orders, Place(orders, ids[..n], i), ids[n]);
      }
    }
  }

  lemma FirstAreOldest(orders: seq<Order>, ids: seq<OrderId>, n: nat)
    requires OldestFirst(orders, ids) && n <= |ids|
    ensures forall x, y :: x in ids[..n] && y in ids && y !in ids[..n] ==> orders[x].expiresAt <= orders[y].expiresAt
  {
    forall x, y | x in ids[..n] && y in ids && y !in ids[..n] ensures orders[x].expiresAt <= orders[y].expiresAt {
      var j :| 0 <= j < n && ids[..n][j] == x;
      var k :| 0 <= k < |ids| && ids[k] == y;
      assert k >= n;
    }
  }

  // ---------- The expiry job ----------

  lemma DueNonNegative(orders: seq<Order>, now: int)
    ensures Total(orders, DueWeight(now)) >= 0
  {
    TotalNonNegative(orders, DueWeight(now));
  }

  lemma OneMoreDue(orders: seq<Order>, now: int, i: nat)
    requires i < |orders|
    ensures Total(orders[..i + 1], DueWeight(now)) ==
      Total(orders[..i], DueWeight(now)) + (if Due(orders[i], now) then 1 else 0)
  {
    assert orders[..i + 1][..i] == orders[..i];
  }

  lemma NoneDue(orders: seq<Order>, now: int)
    requires Total(orders, DueWeight(now)) == 0
    ensures forall i :: 0 <= i < |orders| ==> !Due(orders[i], now)
  {
    forall i | 0 <= i < |orders| ensures !Due(orders[i], now) {
      TotalAtLeast(orders, DueWeight(now), i);
    }
  }

  /** Some of the orders that were due are now EXPIRED; every other order is as it was. */
  predicate ExpiredSome(before: seq<Order>, after: seq<Order>, now: int) {
    |after| == |before| &&
    forall i :: 0 <= i < |before| ==>
      after[i] == before[i] || (Due(before[i], now) && after[i] == before[i].(status := Expired))
  }

  // ---------- reconcileStock and upsertEvent ----------

  /** What reconcileStock reports for a category. */
  function RowFor(c: CategoryId, cell: Cell, available: int, now: int): ReconcileRow {
    ReconcileRow(c, available, cell.stock, cell.stock - available, Reconciled(cell, available, now).1)
  }

  /** A report is true: what was read, how far the stock is off, and whether the run has put it right. */
  lemma ReportIsTrue(c: CategoryId, cell: Cell, available: int, now: int)
    ensures var row := RowFor(c, cell, available, now);
      && row.category == c && row.available == available && row.stock == cell.stock
      && row.diff == row.stock - row.available
      && (row.healed <==> row.diff != 0 && Reconciled(cell, available, now).0.stock == available)
  {
  }

  datatype CategoryInput = CategoryInput(id: Option<CategoryId>, price: int, quota: int)

  function DeltaOf(c: CategoryId): ((CategoryId, int)) -> int {
    (d: (CategoryId, int)) => if d.0 == c then d.1 else 0
  }

  /** Existing rows changed only in price and, by the listed deltas, in quota; new rows are empty rows of the event. */
  ghost predicate Edited(e: EventId, before: seq<Category>, after: seq<Category>, deltas: seq<(CategoryId, int)>) {
    |before| <= |after| &&
    (forall c :: 0 <= c < |before| ==>
      after[c].quota == before[c].quota + Total(deltas, DeltaOf(c)) &&
      after[c].(price := before[c].price, quota := before[c].quota) == before[c]) &&
    (forall c :: |before| <= c < |after| ==>
      after[c].event == e && after[c].sold == after[c].reserved == 0 && after[c].quota >= 0) &&
    (forall d :: d in deltas ==> d.0 < |before|)
  }

  /**
    May the database take this input? A named category must be of the event and keep room for
    what is sold and held.
  */
  predicate Acceptable(e: EventId, rows: seq<Category>, input: CategoryInput) {
    match input.id
    case None => input.quota >= 0
    case Some(c) => c < |rows| && rows[c].event == e && rows[c].sold + rows[c].reserved <= input.quota
  }

  /** How many of the first n inputs create a category. */
  function NewUpTo(inputs: seq<CategoryInput>, n: nat): nat
    requires n <= |inputs|
  {
    if n == 0 then 0 else NewUpTo(inputs, n - 1) + (if inputs[n - 1].id.None? then 1 else 0)
  }

  /** Of the first n inputs, the k-th is the last to name category c. */
  predicate LastFor(inputs: seq<CategoryInput>, n: nat, k: int, c: CategoryId)
    requires n <= |inputs|
  {
    0 <= k < n && inputs[k].id == Some(c) && forall j :: k < j < n ==> inputs[j].id != Some(c)
  }

  /**
    The rows after the first n inputs: a category that none of them names is as it was, one that
    some name has the price and quota of the last of them and nothing else changed, and each
    input without an id has one new, empty row of the event, in order.
  */
  ghost predicate RowsEdited(e: EventId, before: seq<Category>, after: seq<Category>,
                             inputs: seq<CategoryInput>, n: nat)
    requires n <= |inputs|
  {
    && |after| == |before| + NewUpTo(inputs, n)
    && (forall c :: 0 <= c < |before| && (forall k :: 0 <= k < n ==> inputs[k].id != Some(c)) ==> after[c] == before[c])
    && (forall c, k :: 0 <= c < |before| && LastFor(inputs, n, k, c) ==>
         after[c] == before[c].(price := inputs[k].price, quota := inputs[k].quota))
    && (forall k :: 0 <= k < n && inputs[k].id.None? ==>
         |before| + NewUpTo(inputs, k) < |after| &&
         after[|before| + NewUpTo(inputs, k)] == Category(e, inputs[k].price, inputs[k].quota, 0, 0))
  }

  lemma NothingEdited(e: EventId, rows: seq<Category>, inputs: seq<CategoryInput>)
    ensures RowsEdited(e, rows, rows, inputs, 0) && Edited(e, rows, rows, [])
  {
  }

  lemma OneMoreRow(e: EventId, before: seq<Category>, after: seq<Category>, inputs: seq<CategoryInput>, n: nat)
    requires n < |inputs| && RowsEdited(e, before, after, inputs, n)
    ensures inputs[n].id.None? ==>
      RowsEdited(e, before, after + [Category(e, inputs[n].price, inputs[n].quota, 0, 0)], inputs, n + 1)
    ensures inputs[n].id.Some? && inputs[n].id.value < |before| ==>
      var c := inputs[n].id.value;
      RowsEdited(e, before, after[c := after[c].(price := inputs[n].price, quota := inputs[n].quota)], inputs, n + 1)
  {
    forall c, k | 0 <= c < |before| && LastFor(inputs, n + 1, k, c) ensures k == n || LastFor(inputs, n, k, c) {}
    forall c | 0 <= c < |before|
      ensures after[c].(price := before[c].price, quota := before[c].quota) == before[c]
    {
      var _ := SomeLast(inputs, n, c);
    }
    forall k | 0 <= k < n && inputs[k].id.None? ensures NewUpTo(inputs, k) < NewUpTo(inputs, n) {
      NewGrows(inputs, k, n);
    }
  }

  /** The last of the first n inputs to name c, if any does. */
  lemma {:induction false} SomeLast(inputs: seq<CategoryInput>, n: nat, c: CategoryId) returns (k: int)
    requires n <= |inputs|
    ensures (forall j :: 0 <= j < n ==> inputs[j].id != Some(c)) || LastFor(inputs, n, k, c)
  {
    k := n - 1;
    if n > 0 && inputs[n - 1].id != Some(c) { k := SomeLast(inputs, n - 1, c); }
  }

  lemma {:induction false} NewGrows(inputs: seq<CategoryInput>, k: nat, n: nat)
    requires k < n <= |inputs| && inputs[k].id.None?
    ensures NewUpTo(inputs, k) < NewUpTo(inputs, n)
  {
    if k < n - 1 { NewGrows(inputs, k, n - 1); }
  }

  class Office {
    var stock: map<CategoryId, int>
    var bought: map<(EventId, UserId), int>
    var categories: seq<Category>
    var orders: seq<Order>
    var trackers: map<CategoryId, Tracker>

    ghost function RedisView(): Redis
      reads this
    {
      Redis(stock, bought)
    }

    ghost function DbView(): Db
      reads this
    {
      Db(categories, orders)
    }

    /** The database is consistent, and no counter is ever stored at or below zero. */
    ghost predicate Valid()
      reads this
    {
      DbInv(DbView()) && forall k :: k in bought ==> bought[k] > 0
    }

    ghost predicate SameGaps(redis: Redis, db: Db)
      reads this
    {
      |categories| == |db.categories| &&
      forall c :: 0 <= c < |categories| ==> GapOf(RedisView(), DbView(), c) == GapOf(redis, db, c)
    }

    // ---------- Lua ----------

    method Reserve(e: EventId, u: UserId, c: CategoryId, qty: int, max: int) returns (reply: LuaReply)
      modifies this`stock, this`bought
      ensures (RedisView(), reply) == ReserveLua(old(RedisView()), e, u, c, qty, max)
    {
      if c !in stock { return NotReady; }
      var left := stock[c];
      var mine := if (e, u) in bought then bought[(e, u)] else 0;
      if mine + qty > max { return OverLimit; }
      if left < qty { return NoStock; }
      stock := stock[c := left - qty];
      bought := bought[(e, u) := mine + qty];
      reply := Granted(left - qty);
    }

    method Release(e: EventId, u: UserId, c: CategoryId, qty: int) returns (left: int)
      modifies this`stock, this`bought
      ensures (RedisView(), left) == ReleaseLua(old(RedisView()), e, u, c, qty)
    {
      left := (if c in stock then stock[c] else 0) + qty;
      stock := stock[c := left];
      var mine := if (e, u) in bought then bought[(e, u)] else 0;
      var next := mine - qty;
      if next <= 0 {
        bought := bought - {(e, u)};
      } else {
        bought := bought[(e, u) := next];
      }
    }

    // ---------- SQL ----------

    method SumHeld(u: UserId, e: EventId) returns (held: int)
      ensures held == Held(orders, u, e)
    {
      held := 0;
      for i := 0 to |orders|
        invariant held == Held(orders[..i], u, e)
      {
        assert orders[..i + 1][..i] == orders[..i];
        var o := orders[i];
        if o.user == u && o.event == e && (o.status == Pending || o.status == Paid) {
          held := held + Units(o.items);
        }
      }
      assert orders[..|orders|] == orders;
    }

    method ReserveInDatabase(r: Request, expiresAt: int) returns (v: Verdict)
      modifies this`categories, this`orders
      ensures (DbView(), v) == ReserveOrder(old(DbView()), r, expiresAt)
    {
      var held := SumHeld(r.user, r.event);
      if held + r.qty > r.max { return LimitExceeded; }
      if !CanHold(categories, r.category, r.event, r.qty) { return OutOfStock; }
      var before := categories;
      var row := categories[r.category];
      categories := categories[r.category := row.(reserved := row.reserved + r.qty)];
      if FindKey(orders, r.user, r.key).Some? || r.qty <= 0 {
        categories := before;
        return Violation;
      }
      orders := orders + [NewOrder(r, row.price, expiresAt)];
      v := Ok(|orders| - 1);
    }

    method PayInDatabase(id: OrderId, codes: seq<Code>) returns (result: PayResult)
      modifies this`categories, this`orders
      ensures (DbView(), result) == PayOrder(old(DbView()), id, codes)
    {
      if id >= |orders| || orders[id].status != Pending { return NotPending; }
      var before := orders;
      var o := orders[id];
      orders := orders[id := o.(status := Paid)];
      if !CodesFresh(before, o.items, codes) {
        orders := before;
        return PayViolation;
      }
      orders := orders[id := orders[id].(tickets := o.tickets + IssueTickets(o.items, codes))];
      assert orders == before[id := o.(status := Paid, tickets := o.tickets + IssueTickets(o.items, codes))];
      categories := MoveToSold(categories, o.items);
      result := PaidNow;
    }

    method ReleaseInDatabase(id: OrderId, reason: Reason, now: int) returns (rows: seq<Item>)
      modifies this`categories, this`orders
      ensures (DbView(), rows) == Database.ReleaseOrder(old(DbView()), id, reason, now)
    {
      if id >= |orders| || orders[id].status != Pending || (reason == ToExpired && orders[id].expiresAt >= now) {
        return [];
      }
      orders := orders[id := orders[id].(status := StatusOf(reason))];
      categories := GiveBack(categories, orders[id].items);
      rows := orders[id].items;
    }

    // ---------- createOrder ----------

    /** createOrder without interference; `fail` is a database failure with nothing committed. */
    method CreateOrder(r: Request, listed: bool, fail: bool, expiresAt: int) returns (reply: CreateReply)
      modifies this`stock, this`bought, this`categories, this`orders
      ensures (RedisView(), DbView(), reply) == CreateAlone(old(RedisView()), old(DbView()), r, listed, fail, expiresAt)
    {
      var existing := FindKey(orders, r.user, r.key);
      if existing.Some? { return Existing(existing.value); }
      if !listed { return Refused(NotFound); }
      if r.qty > r.max { return Refused(LimitError); }
      var lua := Reserve(r.event, r.user, r.category, r.qty, r.max);
      match lua {
        case NoStock => return Refused(StockError);
        case OverLimit => return Refused(LimitError);
        case NotReady => return Refused(NotReadyError);
        case Granted(_) =>
      }
      var cause := OtherError;
      if !fail {
        var v := ReserveInDatabase(r, expiresAt);
        if v.Ok? { return Created(v.id); }
        cause := CauseOf(v);
      }
      var left := Release(r.event, r.user, r.category, r.qty);
      if cause.AppError? { return Refused(cause.error); }
      match FindKey(orders, r.user, r.key) {
        case Some(id) => reply := Existing(id);
        case None => reply := Refused(Failed);
      }
    }

    // ---------- releaseOrder ----------

    /**
      Exactly the caller that finds the order PENDING (and past its hold, for EXPIRED) releases
      it, and gives its units back to both layers; any other caller changes nothing.
    */
    method ReleaseOrder(id: OrderId, reason: Reason, now: int) returns (won: bool)
      requires Valid()
      modifies this`stock, this`bought, this`categories, this`orders
      ensures Valid()
      ensures won <==> id < |old(orders)| && old(orders)[id].status == Pending &&
                       (reason == ToExpired ==> old(orders)[id].expiresAt < now)
      ensures DbView() == Database.ReleaseOrder(old(DbView()), id, reason, now).0
      ensures !won ==> RedisView() == old(RedisView())
      ensures won ==> var o := old(orders)[id];
        RedisView() == ReleaseLua(old(RedisView()), o.event, o.user, o.items[0].category, o.items[0].qty).0
    {
      ghost var db := DbView();
      ReleaseKeeps(DbView(), id, reason, now);
      var rows := ReleaseInDatabase(id, reason, now);
      assert rows != [] ==> WellFormed(db.categories, db.orders[id]) && rows == db.orders[id].items;
      ghost var redis := RedisView();
      for i := 0 to |rows|
        invariant categories == old(categories) || Releasable(db, id, reason, now)
        invariant DbView() == Database.ReleaseOrder(db, id, reason, now).0
        invariant i == 0 ==> RedisView() == redis
        invariant i == 1 ==>
          RedisView() == ReleaseLua(redis, orders[id].event, orders[id].user, rows[0].category, rows[0].qty).0
        invariant forall k :: k in bought ==> bought[k] > 0
      {
        var left := Release(orders[id].event, orders[id].user, rows[i].category, rows[i].qty);
      }
      won := |rows| > 0;
    }

    // ---------- handlePaymentNotification ----------

    /**
      `seen` is the status the handler read, which other callers may since have moved on. The
      reply and the effect depend only on the status the order really has: a stale read costs
      at most one re-entry.
    */
    method HandlePaymentNotification(id: OrderId, seen: OrderStatus, pay: Payment, codes: seq<Code>, now: int)
      returns (reply: PaymentReply)
      requires Valid()
      requires id < |orders| ==> Reaches(seen, orders[id].status)
      modifies this`stock, this`bought, this`categories, this`orders
      ensures Valid()
      ensures (RedisView(), DbView(), reply) == PaymentAlone(old(RedisView()), old(DbView()), id, pay, codes, now)
      decreases if seen == Pending then 1 else 0
    {
      if id >= |orders| { return RNotFound; }
      if !pay.success {
        var released := ReleaseOrder(id, ToCancelled, now);
        return if released then RCancelled else RIgnored;
      }
      if pay.amount != orders[id].total { return RWrongAmount; }
      if seen == Paid { return RAlreadyPaid; }
      if seen == Expired || seen == Cancelled {
        RefundKeeps(DbView(), id, seen);
        if orders[id].status == seen {
          orders := orders[id := orders[id].(status := Refunded)];
          return RRefunded;
        }
        return RIgnored;
      }
      if seen != Pending { return RIgnored; }
      PayKeeps(DbView(), id, codes);
      var result := PayInDatabase(id, codes);
      if result.NotPending? {
        reply := HandlePaymentNotification(id, orders[id].status, pay, codes, now);
      } else {
        reply := if result.PaidNow? then RPaid else RFailed;
      }
    }

    // ---------- The expiry job ----------

    /** The query of the job: the PENDING orders past their hold, oldest first, at most `batch` of them. */
    method SelectDue(now: int, batch: nat) returns (ids: seq<OrderId>)
      ensures |ids| == if Total(orders, DueWeight(now)) < batch then Total(orders, DueWeight(now)) else batch
      ensures OldestFirst(orders, ids) && forall id :: id in ids ==> Due(orders[id], now)
      ensures forall id :: id in ids ==> orders[id].status == Pending && orders[id].expiresAt < now
      ensures forall i, id :: 0 <= i < |orders| && Due(orders[i], now) && i !in ids && id in ids ==>
        orders[id].expiresAt <= orders[i].expiresAt
    {
      hide Place, Total;
      var all: seq<OrderId> := [];
      TotalZero<Order>([], DueWeight(now));
      for i := 0 to |orders|
        invariant |all| == Total(orders[..i], DueWeight(now))
        invariant OldestFirst(orders, all)
        invariant forall id :: id in all <==> 0 <= id < i && Due(orders[id], now)
      {
        OneMoreDue(orders, now, i);
        if Due(orders[i], now) {
          PlaceMembers(orders, all, i);
          PlaceKeepsOrder(orders, all, i);
          all := Place(orders, all, i);
        }
      }
      assert orders[..|orders|] == orders;
      ids := if |all| < batch then all else all[..batch];
      FirstAreOldest(orders, all, |ids|);
    }

    /** One order of the batch. */
    method ExpireOne(id: OrderId, now: int) returns (won: bool)
      requires Valid() && id < |orders| && Due(orders[id], now)
      modifies this`stock, this`bought, this`categories, this`orders
      ensures Valid() && won
      ensures orders == old(orders)[id := old(orders)[id].(status := Expired)]
      ensures Total(orders, DueWeight(now)) == Total(old(orders), DueWeight(now)) - 1
      ensures SameGaps(old(RedisView()), old(DbView()))
    {
      ReleaseDue(RedisView(), DbView(), id, now);
      won := ReleaseOrder(id, ToExpired, now);
    }

    /** expireDueOrders: every selected order is released, and each release moves both layers alike. */
    method ExpireDueOrders(now: int, batch: nat) returns (released: nat)
      requires Valid()
      modifies this`stock, this`bought, this`categories, this`orders
      ensures Valid()
      ensures released == if Total(old(orders), DueWeight(now)) < batch then Total(old(orders), DueWeight(now))
        else batch
      ensures Total(orders, DueWeight(now)) == Total(old(orders), DueWeight(now)) - released
      ensures ExpiredSome(old(orders), orders, now)
      ensures SameGaps(old(RedisView()), old(DbView()))
    {
      hide DbInv, Total, Due, GapOf;
      var due := SelectDue(now, batch);
      assert forall j :: 0 <= j < |due| ==> due[j] in due;
      released := 0;
      for k := 0 to |due|
        invariant Valid() && released == k
        invariant ExpiredSome(old(orders), orders, now)
        invariant forall j :: k <= j < |due| ==> orders[due[j]] == old(orders)[due[j]] && Due(orders[due[j]], now)
        invariant Total(orders, DueWeight(now)) == Total(old(orders), DueWeight(now)) - k
        invariant SameGaps(old(RedisView()), old(DbView()))
      {
        var won := ExpireOne(due[k], now);
        if won {
          released := released + 1;
        }
      }
    }

    /** The job's loop: it ends, and with no PENDING order past its hold. */
    method ExpiryTick(now: int) returns (total: nat)
      requires Valid()
      modifies this`stock, this`bought, this`categories, this`orders
      ensures Valid()
      ensures total == Total(old(orders), DueWeight(now))
      ensures |orders| == |old(orders)|
      ensures forall i :: 0 <= i < |orders| ==>
        orders[i] == if old(orders)[i].status == Pending && old(orders)[i].expiresAt < now
                     then old(orders)[i].(status := Expired) else old(orders)[i]
      ensures SameGaps(old(RedisView()), old(DbView()))
    {
      total := 0;
      var batch := EXPIRY_BATCH;
      DueNonNegative(orders, now);
      while batch == EXPIRY_BATCH
        invariant Valid()
        invariant 0 <= Total(orders, DueWeight(now)) == Total(old(orders), DueWeight(now)) - total
        invariant batch < EXPIRY_BATCH ==> Total(orders, DueWeight(now)) == 0
        invariant batch <= EXPIRY_BATCH
        invariant ExpiredSome(old(orders), orders, now)
        invariant SameGaps(old(RedisView()), old(DbView()))
        decreases Total(orders, DueWeight(now)), batch
      {
        batch := ExpireDueOrders(now, EXPIRY_BATCH);
        total := total + batch;
        DueNonNegative(orders, now);
      }
      NoneDue(orders, now);
    }

    // ---------- reconcileStock ----------

    ghost function CellAt(c: CategoryId): Cell
      reads this
    {
      Cell(CounterOf(stock, c), if c in trackers then Some(trackers[c]) else None)
    }

    /** One category of a run: read, compare, and heal or remember. */
    method ReconcileOne(c: CategoryId, now: int) returns (row: ReconcileRow)
      requires c < |categories| && c in stock
      modifies this`stock, this`trackers
      ensures stock.Keys == old(stock).Keys
      ensures CellAt(c) == Reconciled(old(CellAt(c)), Available(categories[c]), now).0
      ensures row == RowFor(c, old(CellAt(c)), Available(categories[c]), now)
      ensures forall d: CategoryId :: d != c ==> CellAt(d) == old(CellAt(d))
    {
      var available := Available(categories[c]);
      var read := stock[c];
      var diff := read - available;
      var healed := false;
      if diff == 0 {
        trackers := trackers - {c};
      } else {
        var seen := c in trackers && now <= trackers[c].expiresAt && trackers[c].diff == diff;
        var runs := if seen then trackers[c].runs + 1 else 1;
        if runs >= HEAL_AFTER_RUNS {
          stock := stock[c := stock[c] - diff];
          trackers := trackers - {c};
          healed := true;
        } else {
          trackers := trackers[c := Tracker(diff, runs, now + TRACKER_TTL)];
        }
      }
      row := ReconcileRow(c, available, read, diff, healed);
    }

    /**
      reconcileStock: every category of the event with a stock key takes one run of the healing
      rule; nothing else moves.
    */
    method ReconcileStock(e: EventId, now: int) returns (rows: seq<ReconcileRow>)
      modifies this`stock, this`trackers
      ensures stock.Keys == old(stock).Keys
      ensures forall c: CategoryId ::
        if c < |categories| && categories[c].event == e && c in old(stock)
        then CellAt(c) == Reconciled(old(CellAt(c)), Available(categories[c]), now).0 &&
             RowFor(c, old(CellAt(c)), Available(categories[c]), now) in rows
        else CellAt(c) == old(CellAt(c))
      ensures forall row :: row in rows ==>
        row.category < |categories| && row.category in old(stock) &&
        row == RowFor(row.category, old(CellAt(row.category)), Available(categories[row.category]), now)
    {
      rows := [];
      for c := 0 to |categories|
        invariant stock.Keys == old(stock).Keys
        invariant forall d: CategoryId ::
          if d < c && categories[d].event == e && d in old(stock)
          then CellAt(d) == Reconciled(old(CellAt(d)), Available(categories[d]), now).0 &&
               RowFor(d, old(CellAt(d)), Available(categories[d]), now) in rows
          else CellAt(d) == old(CellAt(d))
        invariant forall row :: row in rows ==>
          row.category < c && row.category in old(stock) &&
          row == RowFor(row.category, old(CellAt(row.category)), Available(categories[row.category]), now)
      {
        if categories[c].event == e && c in stock {
          var row := ReconcileOne(c, now);
          rows := rows + [row];
        }
      }
    }

    // ---------- upsertEvent ----------

    /** The transaction: every category row edited or created, or none; `deltas` are the quota changes. */
    method UpsertRows(e: EventId, inputs: seq<CategoryInput>) returns (ok: bool, deltas: seq<(CategoryId, int)>)
      modifies this`categories
      ensures ok <==> forall k :: 0 <= k < |inputs| ==> Acceptable(e, old(categories), inputs[k])
      ensures !ok ==> categories == old(categories)
      ensures ok ==> Edited(e, old(categories), categories, deltas)
      ensures ok ==> RowsEdited(e, old(categories), categories, inputs, |inputs|)
    {
      hide RowsEdited, Total;
      var before := categories;
      deltas := [];
      NothingEdited(e, before, inputs);
      for k := 0 to |inputs|
        invariant Edited(e, before, categories, deltas) && RowsEdited(e, before, categories, inputs, k)
        invariant forall j :: 0 <= j < k ==> Acceptable(e, before, inputs[j])
      {
        OneMoreRow(e, before, categories, inputs, k);
        var input := inputs[k];
        match input.id {
          case None =>
            if input.quota < 0 {
              categories := before;
              return false, [];
            }
            categories := categories + [Category(e, input.price, input.quota, 0, 0)];
          case Some(c) =>
            if c >= |before| || categories[c].event != e || categories[c].sold + categories[c].reserved > input.quota {
              categories := before;
              return false, [];
            }
            var delta := input.quota - categories[c].quota;
            categories := categories[c := categories[c].(price := input.price, quota := input.quota)];
            forall d: CategoryId ensures Total(deltas + [(c, delta)], DeltaOf(d)) ==
              Total(deltas, DeltaOf(d)) + DeltaOf(d)((c, delta)) {
              TotalAppend(deltas, DeltaOf(d), (c, delta));
            }
            if delta != 0 {
              deltas := deltas + [(c, delta)];
            }
        }
      }
      ok := true;
    }

    /** After the commit: each quota change is added to the stock key as a delta. */
    method PassOn(deltas: seq<(CategoryId, int)>)
      modifies this`stock
      ensures forall c: CategoryId :: CounterOf(stock, c) == CounterOf(old(stock), c) + Total(deltas, DeltaOf(c))
      ensures old(stock).Keys <= stock.Keys
      ensures forall c :: c in stock ==> c in old(stock) || exists d :: d in deltas && d.0 == c
    {
      for j := 0 to |deltas|
        invariant forall c: CategoryId ::
          CounterOf(stock, c) == CounterOf(old(stock), c) + Total(deltas[..j], DeltaOf(c))
        invariant old(stock).Keys <= stock.Keys
        invariant forall c :: c in stock ==> c in old(stock) || exists d :: d in deltas && d.0 == c
      {
        var (c, delta) := deltas[j];
        assert deltas[j] in deltas && deltas[..j + 1][..j] == deltas[..j];
        stock := stock[c := (if c in stock then stock[c] else 0) + delta];
      }
      assert deltas[..|deltas|] == deltas;
    }

    /** syncEventToRedis: a missing stock key is initialised from the database, an existing one is left alone. */
    method SyncStock(e: EventId)
      modifies this`stock
      ensures forall c :: c in old(stock) ==> c in stock && stock[c] == old(stock)[c]
      ensures forall c :: 0 <= c < |categories| && categories[c].event == e && c !in old(stock) ==>
        c in stock && stock[c] == if Available(categories[c]) > 0 then Available(categories[c]) else 0
    {
      for c := 0 to |categories|
        invariant forall d :: d in old(stock) ==> d in stock && stock[d] == old(stock)[d]
        invariant forall d :: 0 <= d < c && categories[d].event == e && d !in old(stock) ==>
          d in stock && stock[d] == if Available(categories[d]) > 0 then Available(categories[d]) else 0
        invariant forall d :: d in stock ==> d in old(stock) || d < c
      {
        if categories[c].event == e && c !in stock {
          var available := Available(categories[c]);
          stock := stock[c := if available > 0 then available else 0];
        }
      }
    }

    /**
      The categories of an admin edit: refused as a whole, or no existing gap moves and every new
      category starts level.
    */
    method UpsertCategories(e: EventId, inputs: seq<CategoryInput>) returns (ok: bool)
      requires forall c :: c in stock ==> c < |categories|
      modifies this`stock, this`categories
      ensures ok <==> forall k :: 0 <= k < |inputs| ==> Acceptable(e, old(categories), inputs[k])
      ensures !ok ==> categories == old(categories) && stock == old(stock)
      ensures ok ==> |categories| >= |old(categories)| && RowsEdited(e, old(categories), categories, inputs, |inputs|)
      ensures ok ==> forall c :: 0 <= c < |old(categories)| && c in old(stock) ==>
        c in stock && GapOf(RedisView(), DbView(), c) == GapOf(old(RedisView()), old(DbView()), c)
      ensures ok ==> forall c :: |old(categories)| <= c < |categories| ==>
        c in stock && GapOf(RedisView(), DbView(), c) == 0
    {
      var deltas;
      ok, deltas := UpsertRows(e, inputs);
      if !ok { return; }
      PassOn(deltas);
      ghost var passed := stock;
      SyncStock(e);
      forall c | 0 <= c < |old(categories)| && c in old(stock)
        ensures c in stock && GapOf(RedisView(), DbView(), c) == GapOf(old(RedisView()), old(DbView()), c)
      {
        assert CounterOf(passed, c) == CounterOf(old(stock), c) + Total(deltas, DeltaOf(c));
      }
    }
  }
}
