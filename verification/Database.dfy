/**
  The PostgreSQL side: the tables, the three order functions of the order_functions
  migration as single atomic statements, the refund update of the payment handler and
  the admin edits, and what every sequence of them keeps.
  Rows are never deleted, so a row's id is its position in its table.
 */
module Database {
  import opened Measures

  type UserId = nat
  type EventId = nat
  type CategoryId = nat
  type OrderId = nat
  type Key = nat   // the idempotency key sent by the client
  type Code = nat  // the unique code of one ticket

  datatype OrderStatus = Pending | Paid | Expired | Cancelled | Refunded

  datatype Category = Category(event: EventId, price: int, quota: int, sold: int, reserved: int)

  datatype Item = Item(category: CategoryId, qty: int, unitPrice: int)

  datatype Ticket = Ticket(category: CategoryId, code: Code)

  datatype Order = Order(user: UserId, event: EventId, key: Key, status: OrderStatus,
                         total: int, expiresAt: int, items: seq<Item>, tickets: seq<Ticket>)

  datatype Db = Db(categories: seq<Category>, orders: seq<Order>)

  /** A checkout request; `max` is the event's limit per account. */
  datatype Request = Request(user: UserId, event: EventId, category: CategoryId, qty: int, key: Key, max: int)

  /** What a category still offers. */
  function Available(row: Category): int {
    row.quota - row.sold - row.reserved
  }

  // ---------- Weights ----------

  function Units(items: seq<Item>): int {
    if items == [] then 0 else items[0].qty + Units(items[1..])
  }

  function UnitsIn(items: seq<Item>, c: CategoryId): int {
    if items == [] then 0
    else (if items[0].category == c then items[0].qty else 0) + UnitsIn(items[1..], c)
  }

  function TicketCount(tickets: seq<Ticket>, c: CategoryId): int {
    if tickets == [] then 0
    else (if tickets[0].category == c then 1 else 0) + TicketCount(tickets[1..], c)
  }

  function PendingIn(c: CategoryId): Order -> int {
    (o: Order) => if o.status == Pending then UnitsIn(o.items, c) else 0
  }

  function PaidIn(c: CategoryId): Order -> int {
    (o: Order) => if o.status == Paid then UnitsIn(o.items, c) else 0
  }

  function TicketsIn(c: CategoryId): Order -> int {
    (o: Order) => TicketCount(o.tickets, c)
  }

  function HeldBy(u: UserId, e: EventId): Order -> int {
    (o: Order) => if o.user == u && o.event == e && (o.status == Pending || o.status == Paid) then Units(o.items) else 0
  }

  /** Units an account holds in an event, over its PENDING and PAID orders. */
  function Held(orders: seq<Order>, u: UserId, e: EventId): int {
    Total(orders, HeldBy(u, e))
  }

  // ---------- The order functions ----------

  function FindKey(orders: seq<Order>, u: UserId, k: Key): (r: Option<OrderId>)
    ensures r.Some? ==> r.value < |orders| && orders[r.value].user == u && orders[r.value].key == k
    ensures r.None? ==> forall i :: 0 <= i < |orders| ==> orders[i].user != u || orders[i].key != k
  {
    if orders == [] then None
    else
      var last := |orders| - 1;
      if orders[last].user == u && orders[last].key == k then Some(last) else FindKey(orders[..last], u, k)
  }

  datatype Verdict = Ok(id: OrderId) | LimitExceeded | OutOfStock | Violation

  predicate CanHold(categories: seq<Category>, c: CategoryId, e: EventId, qty: int) {
    c < |categories| && categories[c].event == e &&
    categories[c].sold + categories[c].reserved + qty <= categories[c].quota
  }

  function NewOrder(r: Request, price: int, expiresAt: int): Order {
    Order(r.user, r.event, r.key, Pending, price * r.qty, expiresAt, [Item(r.category, r.qty, price)], [])
  }

  /** antretix_reserve_order; `Violation` is an exception of the statement, which rolls everything back. */
  function ReserveOrder(db: Db, r: Request, expiresAt: int): (Db, Verdict) {
    if Held(db.orders, r.user, r.event) + r.qty > r.max then (db, LimitExceeded)
    else if !CanHold(db.categories, r.category, r.event, r.qty) then (db, OutOfStock)
    else if FindKey(db.orders, r.user, r.key).Some? || r.qty <= 0 then (db, Violation)
    else
      var row := db.categories[r.category];
      (Db(db.categories[r.category := row.(reserved := row.reserved + r.qty)],
          db.orders + [NewOrder(r, row.price, expiresAt)]),
       Ok(|db.orders|))
  }

  /** The quantity that `UPDATE ... FROM "OrderItem"` applies to a category: a target row is updated at most once. */
  function FirstQty(items: seq<Item>, c: CategoryId): int {
    if items == [] then 0 else if items[0].category == c then items[0].qty else FirstQty(items[1..], c)
  }

  function MoveToSold(categories: seq<Category>, items: seq<Item>): (r: seq<Category>)
    ensures |r| == |categories|
  {
    seq(|categories|, c requires 0 <= c < |categories| =>
      var row := categories[c];
      row.(reserved := row.reserved - FirstQty(items, c), sold := row.sold + FirstQty(items, c)))
  }

  function GiveBack(categories: seq<Category>, items: seq<Item>): (r: seq<Category>)
    ensures |r| == |categories|
  {
    seq(|categories|, c requires 0 <= c < |categories| =>
      var row := categories[c];
      row.(reserved := row.reserved - FirstQty(items, c)))
  }

  /** One ticket per unit, in item order; the n-th ticket takes the n-th code. */
  function IssueTickets(items: seq<Item>, codes: seq<Code>): seq<Ticket> {
    if items == [] then []
    else if items[0].qty < 0 || |codes| < items[0].qty then []
    else
      seq(items[0].qty, i requires 0 <= i < items[0].qty => Ticket(items[0].category, codes[i]))
      + IssueTickets(items[1..], codes[items[0].qty..])
  }

  predicate CodeUsed(orders: seq<Order>, code: Code) {
    exists i, j :: 0 <= i < |orders| && 0 <= j < |orders[i].tickets| && orders[i].tickets[j].code == code
  }

  /** There is a code for every unit; those taken are distinct, and not yet on any ticket. */
  predicate CodesFresh(orders: seq<Order>, items: seq<Item>, codes: seq<Code>) {
    |codes| >= Units(items) &&
    (forall i, j :: 0 <= i < j < Units(items) && j < |codes| ==> codes[i] != codes[j]) &&
    (forall i :: 0 <= i < Units(items) && i < |codes| ==> !CodeUsed(orders, codes[i]))
  }

  datatype PayResult = PaidNow | NotPending | PayViolation

  /** antretix_pay_order; the unique index on ticket codes makes a bad code list an exception. */
  function PayOrder(db: Db, id: OrderId, codes: seq<Code>): (Db, PayResult) {
    if id >= |db.orders| || db.orders[id].status != Pending then (db, NotPending)
    else
      var o := db.orders[id];
      if !CodesFresh(db.orders, o.items, codes) then (db, PayViolation)
      else
        (Db(MoveToSold(db.categories, o.items),
            db.orders[id := o.(status := Paid, tickets := o.tickets + IssueTickets(o.items, codes))]),
         PaidNow)
  }

  datatype Reason = ToExpired | ToCancelled

  function StatusOf(reason: Reason): OrderStatus {
    if reason == ToExpired then Expired else Cancelled
  }

  predicate Releasable(db: Db, id: OrderId, reason: Reason, now: int) {
    id < |db.orders| && db.orders[id].status == Pending &&
    (reason == ToExpired ==> db.orders[id].expiresAt < now)
  }

  /**
    antretix_release_order, called with p_require_expired exactly for EXPIRED; the rows returned
    are the order's items.
  */
  function ReleaseOrder(db: Db, id: OrderId, reason: Reason, now: int): (Db, seq<Item>) {
    if !Releasable(db, id, reason, now) then (db, [])
    else
      var o := db.orders[id];
      (Db(GiveBack(db.categories, o.items), db.orders[id := o.(status := StatusOf(reason))]), o.items)
  }

  /** The conditional refund update: only the status that was read may become REFUNDED. */
  function RefundOrder(db: Db, id: OrderId, seen: OrderStatus): (Db, bool) {
    if id < |db.orders| && db.orders[id].status == seen && (seen == Expired || seen == Cancelled)
    then (db.(orders := db.orders[id := db.orders[id].(status := Refunded)]), true)
    else (db, false)
  }

  /** An admin edit of one category; the CHECK constraints refuse a quota below what is sold and held. */
  function EditCategory(db: Db, c: CategoryId, price: int, quota: int): Db {
    if c < |db.categories| && db.categories[c].sold + db.categories[c].reserved <= quota
    then db.(categories := db.categories[c := db.categories[c].(price := price, quota := quota)])
    else db
  }

  function AddCategory(db: Db, e: EventId, price: int, quota: int): Db {
    if quota >= 0 then db.(categories := db.categories + [Category(e, price, quota, 0, 0)]) else db
  }

  // ---------- Runs ----------

  datatype DbOp =
    | OpReserve(r: Request, expiresAt: int)
    | OpPay(id: OrderId, codes: seq<Code>)
    | OpRelease(id: OrderId, reason: Reason, now: int)
    | OpRefund(id: OrderId, seen: OrderStatus)
    | OpEdit(c: CategoryId, price: int, quota: int)
    | OpAdd(event: EventId, price: int, quota: int)

  function Apply(db: Db, op: DbOp): Db {
    match op
    case OpReserve(r, expiresAt) => ReserveOrder(db, r, expiresAt).0
    case OpPay(id, codes) => PayOrder(db, id, codes).0
    case OpRelease(id, reason, now) => ReleaseOrder(db, id, reason, now).0
    case OpRefund(id, seen) => RefundOrder(db, id, seen).0
    case OpEdit(c, price, quota) => EditCategory(db, c, price, quota)
    case OpAdd(e, price, quota) => AddCategory(db, e, price, quota)
  }

  function ApplyAll(db: Db, ops: seq<DbOp>): Db {
    if ops == [] then db else Apply(ApplyAll(db, ops[..|ops| - 1]), ops[|ops| - 1])
  }

  // ---------- What every run keeps ----------

  /** The books of one category: reserved and sold are exactly the PENDING and PAID units, and fit in the quota. */
  ghost predicate Balanced(db: Db, c: CategoryId)
    requires c < |db.categories|
  {
    var row := db.categories[c];
    row.reserved == Total(db.orders, PendingIn(c)) &&
    row.sold == Total(db.orders, PaidIn(c)) &&
    row.sold == Total(db.orders, TicketsIn(c)) &&
    0 <= row.reserved && 0 <= row.sold && row.sold + row.reserved <= row.quota
  }

  /** One positive item, in a category of the order's own event; one ticket per unit iff PAID. */
  ghost predicate WellFormed(categories: seq<Category>, o: Order) {
    |o.items| == 1 && o.items[0].qty >= 1 &&
    o.items[0].category < |categories| && categories[o.items[0].category].event == o.event &&
    |o.tickets| == (if o.status == Paid then o.items[0].qty else 0) &&
    (forall j :: 0 <= j < |o.tickets| ==> o.tickets[j].category == o.items[0].category)
  }

  ghost predicate KeysUnique(orders: seq<Order>) {
    forall i, j :: 0 <= i < j < |orders| ==> orders[i].user != orders[j].user || orders[i].key != orders[j].key
  }

  ghost predicate DbInv(db: Db) {
    (forall i :: 0 <= i < |db.orders| ==> WellFormed(db.categories, db.orders[i])) &&
    (forall c :: 0 <= c < |db.categories| ==> Balanced(db, c)) &&
    KeysUnique(db.orders)
  }

  ghost predicate EmptyDb(db: Db) {
    db.orders == [] && forall c :: 0 <= c < |db.categories| ==>
      db.categories[c].sold == 0 && db.categories[c].reserved == 0 && db.categories[c].quota >= 0
  }

  lemma EmptyDbInv(db: Db)
    requires EmptyDb(db)
    ensures DbInv(db)
  {
  }

  lemma {:induction false} TicketCountUniform(tickets: seq<Ticket>, c: CategoryId, d: CategoryId)
    requires forall j :: 0 <= j < |tickets| ==> tickets[j].category == d
    ensures TicketCount(tickets, c) == if c == d then |tickets| else 0
  {
    if tickets != [] {
      TicketCountUniform(tickets[1..], c, d);
    }
  }

  /** With one item, every per-item quantity is that item's quantity, and updating a row once loses nothing. */
  lemma OneItem(items: seq<Item>, c: CategoryId)
    requires |items| == 1
    ensures Units(items) == items[0].qty
    ensures UnitsIn(items, c) == FirstQty(items, c) == if items[0].category == c then items[0].qty else 0
  {
    assert items[1..] == [];
  }

  lemma ReserveKeeps(db: Db, r: Request, expiresAt: int)
    requires DbInv(db)
    ensures DbInv(ReserveOrder(db, r, expiresAt).0)
  {
    var (after, v) := ReserveOrder(db, r, expiresAt);
    if v.Ok? {
      var o := NewOrder(r, db.categories[r.category].price, expiresAt);
      forall c | 0 <= c < |after.categories| ensures Balanced(after, c) {
        assert Balanced(db, c);
        OneItem(o.items, c);
        TotalAppend(db.orders, PendingIn(c), o);
        TotalAppend(db.orders, PaidIn(c), o);
        TotalAppend(db.orders, TicketsIn(c), o);
      }
    }
  }

  lemma IssuedTickets(item: Item, codes: seq<Code>)
    requires item.qty >= 1 && |codes| >= item.qty
    ensures |IssueTickets([item], codes)| == item.qty
    ensures forall j :: 0 <= j < item.qty ==> IssueTickets([item], codes)[j] == Ticket(item.category, codes[j])
  {
    assert [item][1..] == [];
  }

  /** Replacing one well-formed order moves each total by that order's own units. */
  lemma OrderChanges(db: Db, id: OrderId, o: Order, c: CategoryId)
    requires id < |db.orders|
    requires WellFormed(db.categories, db.orders[id]) && WellFormed(db.categories, o)
    ensures var after := db.orders[id := o];
      && Total(after, PendingIn(c)) == Total(db.orders, PendingIn(c)) - PendingIn(c)(db.orders[id]) + PendingIn(c)(o)
      && Total(after, PaidIn(c)) == Total(db.orders, PaidIn(c)) - PaidIn(c)(db.orders[id]) + PaidIn(c)(o)
      && Total(after, TicketsIn(c)) == Total(db.orders, TicketsIn(c)) - PaidIn(c)(db.orders[id]) + PaidIn(c)(o)
  {
    TotalUpdate(db.orders, PendingIn(c), id, o);
    TotalUpdate(db.orders, PaidIn(c), id, o);
    TotalUpdate(db.orders, TicketsIn(c), id, o);
    TicketCountUniform(db.orders[id].tickets, c, db.orders[id].items[0].category);
    TicketCountUniform(o.tickets, c, o.items[0].category);
    OneItem(db.orders[id].items, c);
    OneItem(o.items, c);
  }

  lemma PayKeeps(db: Db, id: OrderId, codes: seq<Code>)
    requires DbInv(db)
    ensures DbInv(PayOrder(db, id, codes).0)
  {
    var (after, v) := PayOrder(db, id, codes);
    if v.PaidNow? {
      var o := db.orders[id];
      OneItem(o.items, 0);
      assert o.items == [o.items[0]];
      IssuedTickets(o.items[0], codes);
      forall c | 0 <= c < |after.categories| ensures Balanced(after, c) {
        assert Balanced(db, c);
        OrderChanges(db, id, after.orders[id], c);
        OneItem(o.items, c);
        PendingCovered(db, id, c);
      }
    }
  }

  /** A PENDING order's units are part of what its category holds. */
  lemma PendingCovered(db: Db, id: OrderId, c: CategoryId)
    requires DbInv(db) && id < |db.orders| && c < |db.categories|
    ensures 0 <= PendingIn(c)(db.orders[id]) <= db.categories[c].reserved
  {
    assert Balanced(db, c);
    forall k | 0 <= k < |db.orders| ensures PendingIn(c)(db.orders[k]) >= 0 {
      OneItem(db.orders[k].items, c);
    }
    TotalAtLeast(db.orders, PendingIn(c), id);
  }

  lemma ReleaseKeeps(db: Db, id: OrderId, reason: Reason, now: int)
    requires DbInv(db)
    ensures DbInv(ReleaseOrder(db, id, reason, now).0)
  {
    var (after, rows) := ReleaseOrder(db, id, reason, now);
    if Releasable(db, id, reason, now) {
      forall c | 0 <= c < |after.categories| ensures Balanced(after, c) {
        assert Balanced(db, c);
        OrderChanges(db, id, after.orders[id], c);
        OneItem(db.orders[id].items, c);
        PendingCovered(db, id, c);
      }
    }
  }

  lemma RefundKeeps(db: Db, id: OrderId, seen: OrderStatus)
    requires DbInv(db)
    ensures DbInv(RefundOrder(db, id, seen).0)
  {
    var (after, won) := RefundOrder(db, id, seen);
    if won {
      forall c | 0 <= c < |after.categories| ensures Balanced(after, c) {
        assert Balanced(db, c);
        OrderChanges(db, id, after.orders[id], c);
      }
    }
  }

  lemma {:induction false} NoUnits(orders: seq<Order>, categories: seq<Category>, c: CategoryId)
    requires forall i :: 0 <= i < |orders| ==> WellFormed(categories, orders[i])
    requires c >= |categories|
    ensures Total(orders, PendingIn(c)) == Total(orders, PaidIn(c)) == Total(orders, TicketsIn(c)) == 0
  {
    if orders != [] {
      var o := orders[|orders| - 1];
      assert WellFormed(categories, o);
      OneItem(o.items, c);
      TicketCountUniform(o.tickets, c, o.items[0].category);
      NoUnits(orders[..|orders| - 1], categories, c);
    }
  }

  lemma AddKeeps(db: Db, e: EventId, price: int, quota: int)
    requires DbInv(db)
    ensures DbInv(AddCategory(db, e, price, quota))
  {
    var after := AddCategory(db, e, price, quota);
    forall i | 0 <= i < |after.orders| ensures WellFormed(after.categories, after.orders[i]) {
      assert WellFormed(db.categories, db.orders[i]);
    }
    NoUnits(db.orders, db.categories, |db.categories|);
    forall c | 0 <= c < |after.categories| ensures Balanced(after, c) {
      if c < |db.categories| { assert Balanced(db, c); }
    }
  }

  lemma EditKeeps(db: Db, c: CategoryId, price: int, quota: int)
    requires DbInv(db)
    ensures DbInv(EditCategory(db, c, price, quota))
  {
    var after := EditCategory(db, c, price, quota);
    forall i | 0 <= i < |after.orders| ensures WellFormed(after.categories, after.orders[i]) {
      assert WellFormed(db.categories, db.orders[i]);
    }
    forall d | 0 <= d < |after.categories| ensures Balanced(after, d) {
      assert Balanced(db, d);
    }
  }

  lemma ApplyKeeps(db: Db, op: DbOp)
    requires DbInv(db)
    ensures DbInv(Apply(db, op))
  {
    match op
    case OpReserve(r, expiresAt) => ReserveKeeps(db, r, expiresAt);
    case OpPay(id, codes) => PayKeeps(db, id, codes);
    case OpRelease(id, reason, now) => ReleaseKeeps(db, id, reason, now);
    case OpRefund(id, seen) => RefundKeeps(db, id, seen);
    case OpEdit(c, price, quota) => EditKeeps(db, c, price, quota);
    case OpAdd(e, price, quota) => AddKeeps(db, e, price, quota);
  }

  /**
    No oversell, whatever Redis contains: the statements never read Redis, so every run of
    them from an empty order table keeps the books balanced and every category within its quota.
  */
  lemma {:induction false} NeverOversold(db: Db, ops: seq<DbOp>)
    requires EmptyDb(db)
    ensures DbInv(ApplyAll(db, ops))
  {
    if ops == [] {
      EmptyDbInv(db);
    } else {
      NeverOversold(db, ops[..|ops| - 1]);
      ApplyKeeps(ApplyAll(db, ops[..|ops| - 1]), ops[|ops| - 1]);
    }
  }

  // ---------- The limit per account ----------

  ghost predicate WithinLimits(orders: seq<Order>, limit: EventId -> int) {
    forall u, e :: Held(orders, u, e) <= limit(e)
  }

  /** Every checkout of an event carries the event's own limit. */
  predicate UsesLimit(op: DbOp, limit: EventId -> int) {
    op.OpReserve? ==> op.r.max == limit(op.r.event)
  }

  /** What one statement does to what an account holds: only a successful checkout of that account adds to it. */
  lemma HeldAfter(db: Db, op: DbOp, u: UserId, e: EventId)
    requires DbInv(db)
    ensures
      var after := Held(Apply(db, op).orders, u, e);
      if op.OpReserve? && ReserveOrder(db, op.r, op.expiresAt).1.Ok? && op.r.user == u && op.r.event == e
      then after == Held(db.orders, u, e) + op.r.qty
      else after <= Held(db.orders, u, e)
  {
    hide Total;
    match op
    case OpReserve(r, expiresAt) =>
      if ReserveOrder(db, r, expiresAt).1.Ok? {
        var o := NewOrder(r, db.categories[r.category].price, expiresAt);
        OneItem(o.items, r.category);
        TotalAppend(db.orders, HeldBy(u, e), o);
      }
    case OpPay(id, codes) =>
      if PayOrder(db, id, codes).1.PaidNow? {
        TotalUpdate(db.orders, HeldBy(u, e), id, PayOrder(db, id, codes).0.orders[id]);
      }
    case OpRelease(id, reason, now) =>
      if Releasable(db, id, reason, now) {
        OneItem(db.orders[id].items, 0);
        TotalUpdate(db.orders, HeldBy(u, e), id, ReleaseOrder(db, id, reason, now).0.orders[id]);
      }
    case OpRefund(id, seen) =>
      if RefundOrder(db, id, seen).1 {
        TotalUpdate(db.orders, HeldBy(u, e), id, RefundOrder(db, id, seen).0.orders[id]);
      }
    case OpEdit(_, _, _) =>
    case OpAdd(_, _, _) =>
  }

  lemma {:induction false} NeverOverLimit(db: Db, ops: seq<DbOp>, limit: EventId -> int)
    requires EmptyDb(db)
    requires forall e :: limit(e) >= 0
    requires forall i :: 0 <= i < |ops| ==> UsesLimit(ops[i], limit)
    ensures WithinLimits(ApplyAll(db, ops).orders, limit)
  {
    if ops != [] {
      var before := ApplyAll(db, ops[..|ops| - 1]);
      var op := ops[|ops| - 1];
      NeverOverLimit(db, ops[..|ops| - 1], limit);
      NeverOversold(db, ops[..|ops| - 1]);
      assert UsesLimit(op, limit);
      forall u, e ensures Held(Apply(before, op).orders, u, e) <= limit(e) {
        HeldAfter(before, op, u, e);
      }
    }
  }

  // ---------- The status relation ----------

  /** The moves that the code performs. */
  predicate Moves(a: OrderStatus, b: OrderStatus) {
    match a
    case Pending => b == Paid || b == Expired || b == Cancelled
    case Expired => b == Refunded
    case Cancelled => b == Refunded
    case Paid => false
    case Refunded => false
  }

  /** The table of the shared policy module. */
  predicate PolicyTable(a: OrderStatus, b: OrderStatus) {
    match a
    case Pending => b == Paid || b == Expired || b == Cancelled
    case Paid => b == Refunded
    case Expired => b == Refunded
    case Cancelled => false
    case Refunded => false
  }

  predicate Reaches(a: OrderStatus, b: OrderStatus) {
    a == b || Moves(a, b) || (a == Pending && b == Refunded)
  }

  /** One statement keeps every existing order and moves its status along the relation or not at all. */
  lemma StatusAfter(db: Db, op: DbOp, id: OrderId)
    requires id < |db.orders|
    ensures |Apply(db, op).orders| >= |db.orders|
    ensures var a, b := db.orders[id], Apply(db, op).orders[id];
      && (a.status == b.status || Moves(a.status, b.status))
      && b.(status := a.status, tickets := a.tickets) == a
      && (a.status == b.status ==> a == b)
  {
  }

  /**
    Over any run: an order keeps everything but its status and tickets, the price it was made at
    included; PAID and REFUNDED are final, and no status returns to PENDING.
  */
  lemma {:induction false} StatusOverRun(db: Db, ops: seq<DbOp>, id: OrderId)
    requires id < |db.orders|
    ensures id < |ApplyAll(db, ops).orders|
    ensures Reaches(db.orders[id].status, ApplyAll(db, ops).orders[id].status)
    ensures var a, b := db.orders[id], ApplyAll(db, ops).orders[id];
      && b.user == a.user && b.event == a.event && b.key == a.key
      && b.total == a.total && b.expiresAt == a.expiresAt && b.items == a.items
  {
    if ops != [] {
      StatusOverRun(db, ops[..|ops| - 1], id);
      StatusAfter(ApplyAll(db, ops[..|ops| - 1]), ops[|ops| - 1], id);
    }
  }

  /** The policy table differs from the code in exactly two entries: CANCELLED to REFUNDED and PAID to REFUNDED. */
  lemma PolicyTableDiffers(a: OrderStatus, b: OrderStatus)
    ensures (Moves(a, b) != PolicyTable(a, b)) <==> (b == Refunded && (a == Cancelled || a == Paid))
  {
  }
}
