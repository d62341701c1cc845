/**
  Conservation of units between the two layers, over every run of the inventory system.
*/
module Conservation {
  import opened Measures
  import opened Database
  import opened Inventory

  // ---------- The invariant ----------

  ghost predicate RequestOk(w: World, r: Request) {
    r.qty >= 1 && r.max == w.limit(r.event)
  }

  ghost predicate Listed(db: Db, r: Request) {
    r.category < |db.categories| && db.categories[r.category].event == r.event
  }

  predicate Names(db: Db, id: OrderId, r: Request) {
    id < |db.orders| && db.orders[id].user == r.user && db.orders[id].key == r.key
  }

  /** Order id holds just what r asked for. */
  predicate AskedFor(db: Db, id: OrderId, r: Request) {
    id < |db.orders| && |db.orders[id].items| == 1 &&
    db.orders[id].items[0].category == r.category && db.orders[id].items[0].qty == r.qty
  }

  /** What is known about each process at the step it stands before. */
  ghost predicate ProcOk(w: World, p: Proc) {
    match p
    case Arrived(r, listed) => RequestOk(w, r) && (listed ==> Listed(w.db, r))
    case Reserving(r) => RequestOk(w, r) && Listed(w.db, r)
    case Inserting(r) => RequestOk(w, r) && Listed(w.db, r)
    case Compensating(r, _) => RequestOk(w, r) && Listed(w.db, r)
    case Rechecking(r) => true
    case Replied(r, reply) =>
      (reply.Created? ==> Names(w.db, reply.id, r) && AskedFor(w.db, reply.id, r)) &&
      (reply.Existing? ==> Names(w.db, reply.id, r))
    case Crediting(id, e, u, rows) =>
      id < |w.db.orders| && rows == w.db.orders[id].items && e == w.db.orders[id].event && u == w.db.orders[id].user &&
      w.db.orders[id].status != Pending && w.db.orders[id].status != Paid
    case Notified(id, _, retries) =>
      retries <= 1 && (retries == 1 ==> id < |w.db.orders| && w.db.orders[id].status != Pending)
    case Paying(id, _, retries) => id < |w.db.orders| && retries == 0
    case Refunding(id, seen) => id < |w.db.orders| && (seen == Expired || seen == Cancelled)
    case Settled(id, outcome) => outcome == PaidOut || outcome == RefundedOut ==> id < |w.db.orders|
    case Reconciling(c, _) => c < |w.db.categories|
    case Adjusting(c, _) => c < |w.db.categories|
    case _ => true
  }

  ghost predicate Shape(w: World) {
    DbInv(w.db) && |w.drift| == |w.db.categories| &&
    |w.credited| == |w.db.orders| && |w.dropped| == |w.db.orders| &&
    (forall i :: 0 <= i < |w.procs| ==> ProcOk(w, w.procs[i]))
  }

  /** Redis stock is what the database still offers, less what is in flight, plus the drift. */
  ghost predicate StockBalanced(w: World, c: CategoryId)
    requires c < |w.db.categories| && c < |w.drift|
  {
    c in w.redis.stock &&
    w.redis.stock[c] == Available(w.db.categories[c]) - Total(w.procs, InFlight(c)) + w.drift[c]
  }

  /** An account's counter is what it holds, plus what is in flight for it, plus what crashes have lost. */
  ghost predicate AccountBalanced(w: World, e: EventId, u: UserId) {
    Bought(w.redis, e, u) == Held(w.db.orders, u, e) + Total(w.procs, InFlightBy(e, u)) + CounterOf(w.lost, (e, u)) &&
    CounterOf(w.lost, (e, u)) >= 0 &&
    Bought(w.redis, e, u) <= w.limit(e)
  }

  ghost predicate Inv(w: World) {
    Shape(w) && (forall c :: 0 <= c < |w.db.categories| ==> StockBalanced(w, c)) &&
    (forall e, u :: AccountBalanced(w, e, u))
  }

  // ---------- Frames ----------

  /** The database only grows, and an order keeps everything but its status and tickets. */
  ghost predicate Extends(a: Db, b: Db) {
    |a.categories| <= |b.categories| &&
    (forall c :: 0 <= c < |a.categories| ==> a.categories[c].event == b.categories[c].event) &&
    |a.orders| <= |b.orders| &&
    (forall i :: 0 <= i < |a.orders| ==>
      b.orders[i].(status := a.orders[i].status, tickets := a.orders[i].tickets) == a.orders[i] &&
      Reaches(a.orders[i].status, b.orders[i].status))
  }

  lemma ApplyExtends(db: Db, op: DbOp)
    ensures Extends(db, Apply(db, op))
  {
    forall i | 0 <= i < |db.orders|
      ensures Apply(db, op).orders[i].(status := db.orders[i].status, tickets := db.orders[i].tickets) == db.orders[i]
      ensures Reaches(db.orders[i].status, Apply(db, op).orders[i].status)
    {
      StatusAfter(db, op, i);
    }
  }

  lemma ProcOkStays(w: World, after: World, p: Proc)
    requires ProcOk(w, p) && Extends(w.db, after.db) && after.limit == w.limit
    ensures ProcOk(after, p)
  {
  }

  lemma ShapeStays(w: World, after: World, i: nat, p: Proc)
    requires Shape(w) && i < |w.procs| && after.procs == w.procs[i := p] && after.limit == w.limit
    requires DbInv(after.db) && Extends(w.db, after.db) && ProcOk(after, p)
    requires |after.drift| == |after.db.categories|
    requires |after.credited| == |after.db.orders| && |after.dropped| == |after.db.orders|
    ensures Shape(after)
  {
    forall j | 0 <= j < |after.procs| ensures ProcOk(after, after.procs[j]) {
      if j != i { ProcOkStays(w, after, w.procs[j]); }
    }
  }

  /** The same for a step that leaves the database alone. */
  lemma ShapeKept(w: World, after: World, i: nat, p: Proc)
    requires Shape(w) && i < |w.procs| && after.procs == w.procs[i := p] && after.limit == w.limit
    requires after.db == w.db && ProcOk(w, p)
    requires |after.drift| == |w.drift| && |after.credited| == |w.credited| && |after.dropped| == |w.dropped|
    ensures Shape(after)
  {
    forall j | 0 <= j < |after.procs| ensures ProcOk(after, after.procs[j]) {
      assert j != i ==> after.procs[j] == w.procs[j];
      assert ProcOk(w, after.procs[j]);
    }
  }

  /** What a checkout carries while its units are out of Redis only. */
  lemma CarriedByRequest(p: Proc, c: CategoryId, e: EventId, u: UserId)
    requires p.Inserting? || p.Compensating?
    ensures InFlight(c)(p) == (if p.r.category == c then p.r.qty else 0)
    ensures InFlightBy(e, u)(p) == (if p.r.event == e && p.r.user == u then p.r.qty else 0)
  {
    OneItem(UnitsCarried(p), c);
  }

  /** What a release carries until Redis is credited. */
  lemma CarriedByRows(p: Proc, c: CategoryId, e: EventId, u: UserId)
    requires p.Crediting? && |p.rows| == 1
    ensures InFlight(c)(p) == (if p.rows[0].category == c then p.rows[0].qty else 0)
    ensures InFlightBy(e, u)(p) == (if p.event == e && p.user == u then p.rows[0].qty else 0)
  {
    OneItem(p.rows, c);
  }

  /** Nothing but a quota cut is ever carried negatively. */
  lemma CarriedNonNegative(w: World, p: Proc, c: CategoryId, e: EventId, u: UserId)
    requires DbInv(w.db) && ProcOk(w, p)
    ensures p.Crediting? ==> |p.rows| == 1 && p.rows[0].qty >= 1 && p.rows[0].category < |w.db.categories|
    ensures InFlightBy(e, u)(p) >= 0
    ensures !p.Adjusting? ==> InFlight(c)(p) >= 0
  {
    if p.Crediting? {
      assert WellFormed(w.db.categories, w.db.orders[p.id]);
      CarriedByRows(p, c, e, u);
    } else if p.Inserting? || p.Compensating? {
      CarriedByRequest(p, c, e, u);
    }
  }

  // ---------- Each step keeps the shape ----------

  lemma MoveShape(w: World, i: nat, env: Env)
    requires Inv(w) && i < |w.procs|
    ensures Shape(Advance(w, i, env))
  {
    match w.procs[i]
    case Inserting(_) => InsertingShape(w, i, env);
    case Releasing(_, _) => ReleasingShape(w, i, env);
    case Refunding(_, _) => RefundingShape(w, i);
    case Paying(_, _, _) => PayingShape(w, i, env);
    case Arrived(_, _) => ReadingShape(w, i);
    case Rechecking(_) => ReadingShape(w, i);
    case Notified(_, _, _) => NotifiedShape(w, i);
    case Reserving(_) => RedisShape(w, StepReserving(w, i), i);
    case Compensating(_, _) => RedisShape(w, StepCompensating(w, i), i);
    case Crediting(_, _, _, _) => CreditingShape(w, i);
    case Reconciling(_, _) => ReconcilingShape(w, i, env);
    case Adjusting(_, _) => RedisShape(w, StepAdjusting(w, i), i);
    case _ =>
  }

  lemma ReadingShape(w: World, i: nat)
    requires Shape(w) && i < |w.procs| && (w.procs[i].Arrived? || w.procs[i].Rechecking?)
    ensures w.procs[i].Arrived? ==> Shape(StepArrived(w, i))
    ensures w.procs[i].Rechecking? ==> Shape(StepRechecking(w, i))
  {
    assert ProcOk(w, w.procs[i]);
    var after := if w.procs[i].Arrived? then StepArrived(w, i) else StepRechecking(w, i);
    ShapeKept(w, after, i, after.procs[i]);
  }

  lemma NotifiedShape(w: World, i: nat)
    requires Shape(w) && i < |w.procs| && w.procs[i].Notified?
    ensures Shape(StepNotified(w, i))
  {
    assert ProcOk(w, w.procs[i]);
    ShapeKept(w, StepNotified(w, i), i, StepNotified(w, i).procs[i]);
  }

  lemma CreditingShape(w: World, i: nat)
    requires Shape(w) && i < |w.procs| && w.procs[i].Crediting?
    ensures Shape(StepCrediting(w, i))
  {
    CarriedNonNegative(w, w.procs[i], 0, 0, 0);
    ShapeKept(w, StepCrediting(w, i), i, StepCrediting(w, i).procs[i]);
  }

  /** A step on Redis alone, by a process whose next step is no more demanding. */
  lemma RedisShape(w: World, after: World, i: nat)
    requires Shape(w) && i < |w.procs|
    requires var q := w.procs[i];
      || (q.Reserving? && after == StepReserving(w, i))
      || (q.Compensating? && after == StepCompensating(w, i))
      || (q.Adjusting? && after == StepAdjusting(w, i))
    ensures Shape(after)
  {
    assert ProcOk(w, w.procs[i]);
    ShapeKept(w, after, i, after.procs[i]);
  }

  lemma ReconcilingShape(w: World, i: nat, env: Env)
    requires Shape(w) && i < |w.procs| && w.procs[i].Reconciling?
    ensures Shape(StepReconciling(w, i, env))
  {
    hide Total;
    assert ProcOk(w, w.procs[i]);
    var after := StepReconciling(w, i, env);
    ShapeKept(w, after, i, after.procs[i]);
  }

  lemma InsertingShape(w: World, i: nat, env: Env)
    requires Shape(w) && i < |w.procs| && w.procs[i].Inserting?
    ensures Shape(StepInserting(w, i, env))
  {
    assert ProcOk(w, w.procs[i]);
    StatementShape(w, StepInserting(w, i, env), i, OpReserve(w.procs[i].r, env.expiresAt));
  }

  lemma RefundingShape(w: World, i: nat)
    requires Shape(w) && i < |w.procs| && w.procs[i].Refunding?
    ensures Shape(StepRefunding(w, i))
  {
    StatementShape(w, StepRefunding(w, i), i, OpRefund(w.procs[i].id, w.procs[i].seen));
  }

  /** A step that performs one database statement. */
  lemma StatementShape(w: World, after: World, i: nat, op: DbOp)
    requires Shape(w) && i < |w.procs| && |after.procs| == |w.procs|
    requires after.procs == w.procs[i := after.procs[i]] && after.limit == w.limit
    requires after.db == w.db || after.db == Apply(w.db, op)
    requires ProcOk(after, after.procs[i])
    requires |after.drift| == |after.db.categories|
    requires |after.credited| == |after.db.orders| && |after.dropped| == |after.db.orders|
    ensures Shape(after)
  {
    if after.db == w.db {
      assert forall p :: ProcOk(after, p) <==> ProcOk(w, p);
      ShapeKept(w, after, i, after.procs[i]);
    } else {
      ApplyKeeps(w.db, op);
      ApplyExtends(w.db, op);
      ShapeStays(w, after, i, after.procs[i]);
    }
  }

  lemma ReleasingShape(w: World, i: nat, env: Env)
    requires Shape(w) && i < |w.procs| && w.procs[i].Releasing?
    ensures Shape(StepReleasing(w, i, env))
  {
    var q := w.procs[i];
    if Releasable(w.db, q.id, q.reason, env.now) { assert WellFormed(w.db.categories, w.db.orders[q.id]); }
    StatementShape(w, StepReleasing(w, i, env), i, OpRelease(q.id, q.reason, env.now));
  }

  lemma PayingShape(w: World, i: nat, env: Env)
    requires Shape(w) && i < |w.procs| && w.procs[i].Paying?
    ensures Shape(StepPaying(w, i, env))
  {
    assert ProcOk(w, w.procs[i]);
    StatementShape(w, StepPaying(w, i, env), i, OpPay(w.procs[i].id, env.codes));
  }

  lemma CrashShape(w: World, i: nat)
    requires Inv(w) && i < |w.procs|
    ensures Shape(Crash(w, i))
  {
    if !Done(w.procs[i]) {
      ShapeKept(w, Crash(w, i), i, Dead);
    }
  }

  lemma SpawnShape(w: World, p: Proc)
    requires Shape(w) && ProcOk(w, p)
    ensures Shape(Spawn(w, p))
  {
    var after := Spawn(w, p);
    forall j | 0 <= j < |after.procs| ensures ProcOk(after, after.procs[j]) {
      assert ProcOk(w, after.procs[j]);
    }
  }

  lemma AdminShape(w: World, a: Action)
    requires Inv(w) && (a.Edit? || a.Add?)
    ensures Shape(Do(w, a))
  {
    hide Total, Extends, DbInv, StockBalanced, AccountBalanced;
    var after := Do(w, a);
    var op := if a.Edit? then OpEdit(a.category, a.price, a.quota) else OpAdd(a.event, a.price, a.quota);
    ApplyKeeps(w.db, op);
    ApplyExtends(w.db, op);
    forall j | 0 <= j < |after.procs| ensures ProcOk(after, after.procs[j]) {
      if j < |w.procs| { ProcOkStays(w, after, w.procs[j]); }
    }
  }

  lemma DoShape(w: World, a: Action)
    requires Inv(w)
    ensures Shape(Do(w, a))
  {
    match a
    case Arrive(r, listed) => if Welcome(w, r, listed) { SpawnShape(w, Arrived(r, listed)); }
    case AskRelease(id, reason) => SpawnShape(w, Releasing(id, reason));
    case Notify(id, pay) => SpawnShape(w, Notified(id, pay, 0));
    case Move(i, env) => if i < |w.procs| { MoveShape(w, i, env); }
    case Fall(i) => if i < |w.procs| { CrashShape(w, i); }
    case Compare(c) =>
      if c < |w.db.categories| { SpawnShape(w, Reconciling(c, Comparing(Available(w.db.categories[c])))); }
    case Edit(_, _, _) => AdminShape(w, a);
    case Add(_, _, _) => AdminShape(w, a);
  }

  // ---------- Each step keeps the books of any category c and any account (e, u) ----------

  ghost predicate BooksAt(w: World, c: CategoryId, e: EventId, u: UserId) {
    (c < |w.db.categories| && c < |w.drift| ==> StockBalanced(w, c)) && AccountBalanced(w, e, u)
  }

  /** The floor of release.lua never truncates: the counter covers what each process carries. */
  lemma FloorUnused(w: World, i: nat, e: EventId, u: UserId)
    requires Inv(w) && i < |w.procs|
    ensures 0 <= InFlightBy(e, u)(w.procs[i]) <= Bought(w.redis, e, u)
    ensures Held(w.db.orders, u, e) + InFlightBy(e, u)(w.procs[i]) <= Bought(w.redis, e, u)
  {
    hide Total;
    assert AccountBalanced(w, e, u);
    forall k | 0 <= k < |w.procs| ensures InFlightBy(e, u)(w.procs[k]) >= 0 {
      CarriedNonNegative(w, w.procs[k], 0, e, u);
    }
    TotalAtLeast(w.procs, InFlightBy(e, u), i);
    forall k | 0 <= k < |w.db.orders| ensures HeldBy(u, e)(w.db.orders[k]) >= 0 {
      assert WellFormed(w.db.categories, w.db.orders[k]);
      OneItem(w.db.orders[k].items, 0);
    }
    TotalNonNegative(w.db.orders, HeldBy(u, e));
  }

  /** Process i turns into p: both totals of units in flight move by the difference. */
  lemma FlightShifts(w: World, i: nat, p: Proc, c: CategoryId, e: EventId, u: UserId)
    requires i < |w.procs|
    ensures Total(w.procs[i := p], InFlight(c)) ==
      Total(w.procs, InFlight(c)) - InFlight(c)(w.procs[i]) + InFlight(c)(p)
    ensures Total(w.procs[i := p], InFlightBy(e, u))
         == Total(w.procs, InFlightBy(e, u)) - InFlightBy(e, u)(w.procs[i]) + InFlightBy(e, u)(p)
  {
    hide Total;
    TotalUpdate(w.procs, InFlight(c), i, p);
    TotalUpdate(w.procs, InFlightBy(e, u), i, p);
  }

  lemma ReservingBooks(w: World, i: nat, c: CategoryId, e: EventId, u: UserId)
    requires i < |w.procs| && w.procs[i].Reserving? && BooksAt(w, c, e, u)
    requires w.procs[i].r.max == w.limit(w.procs[i].r.event)
    ensures BooksAt(StepReserving(w, i), c, e, u)
  {
    hide Total;
    var p := StepReserving(w, i).procs[i];
    FlightShifts(w, i, p, c, e, u);
    if p.Inserting? { CarriedByRequest(p, c, e, u); }
  }

  lemma CompensatingBooks(w: World, i: nat, c: CategoryId, e: EventId, u: UserId)
    requires i < |w.procs| && w.procs[i].Compensating? && BooksAt(w, c, e, u)
    requires var r := w.procs[i].r; r.qty >= 1 && r.qty <= Bought(w.redis, r.event, r.user)
    ensures BooksAt(StepCompensating(w, i), c, e, u)
  {
    hide Total;
    FlightShifts(w, i, StepCompensating(w, i).procs[i], c, e, u);
    CarriedByRequest(w.procs[i], c, e, u);
  }

  lemma CreditingBooks(w: World, i: nat, c: CategoryId, e: EventId, u: UserId)
    requires i < |w.procs| && w.procs[i].Crediting? && BooksAt(w, c, e, u)
    requires var q := w.procs[i];
      |q.rows| == 1 && q.id < |w.credited| && 1 <= q.rows[0].qty <= Bought(w.redis, q.event, q.user)
    ensures BooksAt(StepCrediting(w, i), c, e, u)
  {
    hide Total;
    FlightShifts(w, i, StepCrediting(w, i).procs[i], c, e, u);
    CarriedByRows(w.procs[i], c, e, u);
  }

  lemma InsertingBooks(w: World, i: nat, env: Env, c: CategoryId, e: EventId, u: UserId)
    requires i < |w.procs| && w.procs[i].Inserting? && BooksAt(w, c, e, u)
    ensures BooksAt(StepInserting(w, i, env), c, e, u)
  {
    hide Total;
    var q, p := w.procs[i], StepInserting(w, i, env).procs[i];
    FlightShifts(w, i, p, c, e, u);
    CarriedByRequest(q, c, e, u);
    if p.Replied? {
      var o := NewOrder(q.r, w.db.categories[q.r.category].price, env.expiresAt);
      TotalAppend(w.db.orders, HeldBy(u, e), o);
      OneItem(o.items, c);
    } else {
      CarriedByRequest(p, c, e, u);
    }
  }

  lemma ReleasingBooks(w: World, i: nat, env: Env, c: CategoryId, e: EventId, u: UserId)
    requires i < |w.procs| && w.procs[i].Releasing? && BooksAt(w, c, e, u)
    requires w.procs[i].id < |w.db.orders| ==> |w.db.orders[w.procs[i].id].items| == 1
    ensures BooksAt(StepReleasing(w, i, env), c, e, u)
  {
    hide Total;
    var after := StepReleasing(w, i, env);
    var q, p := w.procs[i], after.procs[i];
    FlightShifts(w, i, p, c, e, u);
    if p.Crediting? {
      OneItem(p.rows, c);
      CarriedByRows(p, c, e, u);
      TotalUpdate(w.db.orders, HeldBy(u, e), q.id, after.db.orders[q.id]);
    }
  }

  lemma PayingBooks(w: World, i: nat, env: Env, c: CategoryId, e: EventId, u: UserId)
    requires i < |w.procs| && w.procs[i].Paying? && BooksAt(w, c, e, u)
    ensures BooksAt(StepPaying(w, i, env), c, e, u)
  {
    hide Total;
    var after := StepPaying(w, i, env);
    var q := w.procs[i];
    FlightShifts(w, i, after.procs[i], c, e, u);
    if PayOrder(w.db, q.id, env.codes).1.PaidNow? {
      TotalUpdate(w.db.orders, HeldBy(u, e), q.id, after.db.orders[q.id]);
    }
  }

  lemma RefundingBooks(w: World, i: nat, c: CategoryId, e: EventId, u: UserId)
    requires i < |w.procs| && w.procs[i].Refunding? && BooksAt(w, c, e, u)
    ensures BooksAt(StepRefunding(w, i), c, e, u)
  {
    hide Total;
    var after := StepRefunding(w, i);
    var q := w.procs[i];
    FlightShifts(w, i, after.procs[i], c, e, u);
    if RefundOrder(w.db, q.id, q.seen).1 {
      TotalUpdate(w.db.orders, HeldBy(u, e), q.id, after.db.orders[q.id]);
    }
  }

  /** A step that only reads, by a process that carries nothing. */
  lemma ReadingBooks(w: World, i: nat, p: Proc, c: CategoryId, e: EventId, u: UserId)
    requires i < |w.procs| && BooksAt(w, c, e, u)
    requires UnitsCarried(w.procs[i]) == UnitsCarried(p) == [] && !w.procs[i].Adjusting? && !p.Adjusting?
    ensures BooksAt(Goto(w, i, p), c, e, u)
  {
    hide Total;
    FlightShifts(w, i, p, c, e, u);
  }

  /** A step of a reconciliation: only the heal's INCRBY touches the stock, and the drift moves with it. */
  lemma ReconcilingBooks(w: World, i: nat, env: Env, c: CategoryId, e: EventId, u: UserId)
    requires i < |w.procs| && BooksAt(w, c, e, u) && w.procs[i].Reconciling?
    requires w.procs[i].category < |w.drift|
    ensures BooksAt(StepReconciling(w, i, env), c, e, u)
  {
    hide Total;
    FlightShifts(w, i, StepReconciling(w, i, env).procs[i], c, e, u);
  }

  /** The INCRBY of a quota edit. */
  lemma AdjustingBooks(w: World, i: nat, c: CategoryId, e: EventId, u: UserId)
    requires i < |w.procs| && BooksAt(w, c, e, u)
    requires w.procs[i].Adjusting? && w.procs[i].category < |w.drift|
    ensures BooksAt(StepAdjusting(w, i), c, e, u)
  {
    hide Total;
    FlightShifts(w, i, Finished, c, e, u);
  }

  /** What the books need to know about the process that moves. */
  ghost predicate Ready(w: World, i: nat)
    requires i < |w.procs|
  {
    match w.procs[i]
    case Reserving(r) => r.max == w.limit(r.event)
    case Compensating(r, _) => 1 <= r.qty <= Bought(w.redis, r.event, r.user)
    case Releasing(id, _) => id < |w.db.orders| ==> |w.db.orders[id].items| == 1
    case Crediting(id, event, user, rows) =>
      |rows| == 1 && id < |w.credited| && 1 <= rows[0].qty <= Bought(w.redis, event, user)
    case Reconciling(d, _) => d < |w.drift|
    case Adjusting(d, _) => d < |w.drift|
    case _ => true
  }

  lemma AlwaysReady(w: World, i: nat)
    requires Inv(w) && i < |w.procs|
    ensures Ready(w, i)
  {
    hide Total;
    var q := w.procs[i];
    assert ProcOk(w, q);
    if q.Compensating? {
      FloorUnused(w, i, q.r.event, q.r.user);
      CarriedByRequest(q, 0, q.r.event, q.r.user);
    } else if q.Crediting? {
      CarriedNonNegative(w, q, 0, 0, 0);
      FloorUnused(w, i, q.event, q.user);
      CarriedByRows(q, 0, q.event, q.user);
    } else if q.Releasing? && q.id < |w.db.orders| {
      assert WellFormed(w.db.categories, w.db.orders[q.id]);
    }
  }

  lemma MoveBooks(w: World, i: nat, env: Env, c: CategoryId, e: EventId, u: UserId)
    requires i < |w.procs| && BooksAt(w, c, e, u) && Ready(w, i)
    ensures BooksAt(Advance(w, i, env), c, e, u)
  {
    hide Total, BooksAt, ReserveLua, ReserveOrder, PayOrder, ReleaseOrder, RefundOrder, ReleaseLua, FindKey;
    match w.procs[i]
    case Reserving(_) => ReservingBooks(w, i, c, e, u);
    case Inserting(_) => InsertingBooks(w, i, env, c, e, u);
    case Compensating(_, _) => CompensatingBooks(w, i, c, e, u);
    case Releasing(_, _) => ReleasingBooks(w, i, env, c, e, u);
    case Crediting(_, _, _, _) => CreditingBooks(w, i, c, e, u);
    case Refunding(_, _) => RefundingBooks(w, i, c, e, u);
    case Paying(_, _, _) => PayingBooks(w, i, env, c, e, u);
    case Arrived(_, _) => ReadingBooks(w, i, StepArrived(w, i).procs[i], c, e, u);
    case Rechecking(_) => ReadingBooks(w, i, StepRechecking(w, i).procs[i], c, e, u);
    case Notified(_, _, _) => ReadingBooks(w, i, StepNotified(w, i).procs[i], c, e, u);
    case Reconciling(_, _) => ReconcilingBooks(w, i, env, c, e, u);
    case Adjusting(_, _) => AdjustingBooks(w, i, c, e, u);
    case _ =>
  }

  lemma CrashBooks(w: World, i: nat, c: CategoryId, e: EventId, u: UserId)
    requires i < |w.procs| && BooksAt(w, c, e, u) && InFlightBy(e, u)(w.procs[i]) >= 0
    ensures BooksAt(Crash(w, i), c, e, u)
  {
    hide Total;
    var q := w.procs[i];
    FlightShifts(w, i, Dead, c, e, u);
    if q.Inserting? || q.Compensating? { CarriedByRequest(q, c, e, u); }
  }

  lemma SpawnBooks(w: World, p: Proc, c: CategoryId, e: EventId, u: UserId)
    requires Inv(w) && UnitsCarried(p) == [] && !p.Adjusting?
    ensures BooksAt(Spawn(w, p), c, e, u)
  {
    hide Total;
    assert BooksAt(w, c, e, u);
    TotalAppend(w.procs, InFlight(c), p);
    TotalAppend(w.procs, InFlightBy(e, u), p);
  }

  lemma EditBooks(w: World, d: CategoryId, price: int, quota: int, c: CategoryId, e: EventId, u: UserId)
    requires Inv(w)
    ensures BooksAt(Do(w, Edit(d, price, quota)), c, e, u)
  {
    hide Total, HeldBy, Advance, Crash, DbInv;
    assert BooksAt(w, c, e, u);
    if d < |w.db.categories| {
      var p := Adjusting(d, quota - w.db.categories[d].quota);
      TotalAppend(w.procs, InFlight(c), p);
      TotalAppend(w.procs, InFlightBy(e, u), p);
    }
  }

  lemma {:induction false} NothingInFlight(w: World, procs: seq<Proc>, c: CategoryId)
    requires DbInv(w.db) && c >= |w.db.categories|
    requires forall i :: 0 <= i < |procs| ==> ProcOk(w, procs[i])
    ensures Total(procs, InFlight(c)) == 0
  {
    if procs != [] {
      var p := procs[|procs| - 1];
      assert ProcOk(w, p);
      CarriedNonNegative(w, p, c, 0, 0);
      if p.Crediting? {
        CarriedByRows(p, c, 0, 0);
      } else if p.Inserting? || p.Compensating? {
        CarriedByRequest(p, c, 0, 0);
      }
      NothingInFlight(w, procs[..|procs| - 1], c);
    }
  }

  lemma DoBooks(w: World, a: Action, c: CategoryId, e: EventId, u: UserId)
    requires Inv(w)
    ensures BooksAt(Do(w, a), c, e, u)
  {
    hide Total, Advance;
    assert BooksAt(w, c, e, u);
    match a
    case Arrive(r, listed) => SpawnBooks(w, Arrived(r, listed), c, e, u);
    case AskRelease(id, reason) => SpawnBooks(w, Releasing(id, reason), c, e, u);
    case Notify(id, pay) => SpawnBooks(w, Notified(id, pay, 0), c, e, u);
    case Move(i, env) =>
      if i < |w.procs| {
        AlwaysReady(w, i);
        MoveBooks(w, i, env, c, e, u);
      }
    case Fall(i) =>
      if i < |w.procs| {
        CarriedNonNegative(w, w.procs[i], c, e, u);
        CrashBooks(w, i, c, e, u);
      }
    case Compare(d) =>
      if d < |w.db.categories| { SpawnBooks(w, Reconciling(d, Comparing(Available(w.db.categories[d]))), c, e, u); }
    case Edit(d, price, quota) => EditBooks(w, d, price, quota, c, e, u);
    case Add(_, _, _) => NothingInFlight(w, w.procs, |w.db.categories|);
  }

  lemma DoKeeps(w: World, a: Action)
    requires Inv(w)
    ensures Inv(Do(w, a))
  {
    var after := Do(w, a);
    DoShape(w, a);
    forall c | 0 <= c < |after.db.categories| ensures StockBalanced(after, c) {
      DoBooks(w, a, c, 0, 0);
    }
    forall e, u ensures AccountBalanced(after, e, u) {
      DoBooks(w, a, 0, e, u);
    }
  }

  /**
    Conservation: after any run, in every category the Redis stock is quota - sold - reserved,
    less the units in flight, plus the drift; and every account's counter is what the account
    holds, plus its units in flight, plus what crashes have lost, and never above the limit.
  */
  lemma {:induction false} Conserved(w: World, actions: seq<Action>)
    requires Initial(w)
    ensures Inv(Run(w, actions))
  {
    if actions == [] {
      forall e, u ensures AccountBalanced(w, e, u) {}
    } else {
      Conserved(w, actions[..|actions| - 1]);
      DoKeeps(Run(w, actions[..|actions| - 1]), actions[|actions| - 1]);
    }
  }
}
