/**
  The two-layer inventory as one step system: any number of checkouts, releases, payment
  notifications and admin edits run interleaved over one Redis and one database, each Lua
  script or SQL statement being one atomic step. A process may crash between two steps.

  `drift` and `lost` are bookkeeping for the proofs: what crashes and heals have left behind
  in a category's stock and in an account's counter. No step reads them.
*/
module Inventory {
  import opened Measures
  import opened Database
  import opened Reconcile

  // ---------- Redis ----------

  datatype Redis = Redis(stock: map<CategoryId, int>, bought: map<(EventId, UserId), int>)

  function CounterOf<K>(m: map<K, int>, k: K): int {
    if k in m then m[k] else 0
  }

  function Bought(redis: Redis, e: EventId, u: UserId): int {
    CounterOf(redis.bought, (e, u))
  }

  datatype LuaReply = Granted(left: int) | NoStock | OverLimit | NotReady

  /** reserve.lua */
  function ReserveLua(redis: Redis, e: EventId, u: UserId, c: CategoryId, qty: int, max: int): (Redis, LuaReply) {
    if c !in redis.stock then (redis, NotReady)
    else if Bought(redis, e, u) + qty > max then (redis, OverLimit)
    else if redis.stock[c] < qty then (redis, NoStock)
    else
      (Redis(redis.stock[c := redis.stock[c] - qty], redis.bought[(e, u) := Bought(redis, e, u) + qty]),
       Granted(redis.stock[c] - qty))
  }

  /** release.lua: the counter is floored at zero by deleting its key. */
  function ReleaseLua(redis: Redis, e: EventId, u: UserId, c: CategoryId, qty: int): (Redis, int) {
    var stock := CounterOf(redis.stock, c) + qty;
    var next := Bought(redis, e, u) - qty;
    (Redis(redis.stock[c := stock], if next <= 0 then redis.bought - {(e, u)} else redis.bought[(e, u) := next]), stock)
  }

  // ---------- Processes ----------

  datatype CreateError = NotFound | LimitError | StockError | NotReadyError | Failed

  datatype CreateReply = Created(id: OrderId) | Existing(id: OrderId) | Refused(error: CreateError)

  /** Why the database step of a checkout threw: an application error, or anything else. */
  datatype Cause = AppError(error: CreateError) | OtherError

  datatype Payment = Payment(success: bool, amount: int)

  datatype Outcome = PaidOut | AlreadyPaid | RefundedOut | Ignored | UnknownOrder | WrongAmount | PayFailed

  /** Where a reconciliation stands; `available` is what the database offered when it was read. */
  datatype Stage =
    | Comparing(available: int)
    | Judging(diff: int)
    | Noting(tracker: Tracker)
    | Healing(diff: int)
    | Forgetting

  /** One process, by the atomic step it performs next. */
  datatype Proc =
    // createOrder; `listed` tells whether the cached event lists the category
    | Arrived(r: Request, listed: bool)
    | Reserving(r: Request)
    | Inserting(r: Request)
    | Compensating(r: Request, cause: Cause)
    | Rechecking(r: Request)
    | Replied(r: Request, reply: CreateReply)
    // releaseOrder
    | Releasing(id: OrderId, reason: Reason)
    | Crediting(id: OrderId, event: EventId, user: UserId, rows: seq<Item>)
    | Released(id: OrderId, won: bool)
    // handlePaymentNotification; `retries` counts its re-entries
    | Notified(id: OrderId, pay: Payment, retries: nat)
    | Refunding(id: OrderId, seen: OrderStatus)
    | Paying(id: OrderId, pay: Payment, retries: nat)
    | Settled(id: OrderId, outcome: Outcome)
    // reconcileStock, for one category
    | Reconciling(category: CategoryId, stage: Stage)
    // upsertEvent between its commit and its INCRBY
    | Adjusting(category: CategoryId, delta: int)
    | Finished
    | Dead

  /** What a step takes from outside: the clock, a failing database, the hold's end, the ticket codes. */
  datatype Env = Env(now: int, fail: bool, expiresAt: int, codes: seq<Code>)

  datatype World = World(limit: EventId -> int, redis: Redis, db: Db, procs: seq<Proc>,
                         trackers: map<CategoryId, Tracker>,
                         drift: seq<int>, lost: map<(EventId, UserId), int>,
                         credited: seq<int>, dropped: seq<int>)

  ghost function Goto(w: World, i: nat, p: Proc): World
    requires i < |w.procs|
  {
    w.(procs := w.procs[i := p])
  }

  predicate Checkout(p: Proc) {
    p.Arrived? || p.Reserving? || p.Inserting? || p.Compensating? || p.Rechecking? || p.Replied?
  }

  /** Only process i moved; it took up nothing of another kind, and only an INSERT is answered with "created". */
  ghost predicate OneMoves(w: World, i: nat, after: World)
    requires i < |w.procs|
  {
    after.limit == w.limit && |after.procs| == |w.procs| && after.procs == w.procs[i := after.procs[i]] &&
    (Checkout(after.procs[i]) ==> Checkout(w.procs[i])) &&
    (after.procs[i].Reconciling? ==> w.procs[i].Reconciling?) && !after.procs[i].Adjusting? &&
    (after.procs[i].Replied? && after.procs[i].reply.Created? ==> w.procs[i].Inserting?)
  }

  /** The error of a checkout refused by the database. */
  function CauseOf(v: Verdict): Cause {
    match v
    case LimitExceeded => AppError(LimitError)
    case OutOfStock => AppError(StockError)
    case _ => OtherError
  }

  ghost function StepArrived(w: World, i: nat): (after: World)
    requires i < |w.procs| && w.procs[i].Arrived?
    ensures OneMoves(w, i, after)
    ensures after.drift == w.drift
  {
    var p := w.procs[i];
    var found := FindKey(w.db.orders, p.r.user, p.r.key);
    if found.Some? then Goto(w, i, Replied(p.r, Existing(found.value)))
    else if !p.listed then Goto(w, i, Replied(p.r, Refused(NotFound)))
    else if p.r.qty > p.r.max then Goto(w, i, Replied(p.r, Refused(LimitError)))
    else Goto(w, i, Reserving(p.r))
  }

  ghost function StepReserving(w: World, i: nat): (after: World)
    requires i < |w.procs| && w.procs[i].Reserving?
    ensures OneMoves(w, i, after)
    ensures after.drift == w.drift
  {
    var r := w.procs[i].r;
    var (redis, reply) := ReserveLua(w.redis, r.event, r.user, r.category, r.qty, r.max);
    match reply
    case Granted(_) => Goto(w, i, Inserting(r)).(redis := redis)
    case NoStock => Goto(w, i, Replied(r, Refused(StockError)))
    case OverLimit => Goto(w, i, Replied(r, Refused(LimitError)))
    case NotReady => Goto(w, i, Replied(r, Refused(NotReadyError)))
  }

  ghost function StepInserting(w: World, i: nat, env: Env): (after: World)
    requires i < |w.procs| && w.procs[i].Inserting?
    ensures OneMoves(w, i, after)
    ensures after.drift == w.drift
  {
    var r := w.procs[i].r;
    if env.fail then Goto(w, i, Compensating(r, OtherError))
    else
      var (db, v) := ReserveOrder(w.db, r, env.expiresAt);
      if v.Ok?
      then Goto(w, i, Replied(r, Created(v.id))).(db := db, credited := w.credited + [0], dropped := w.dropped + [0])
      else Goto(w, i, Compensating(r, CauseOf(v)))
  }

  ghost function StepCompensating(w: World, i: nat): (after: World)
    requires i < |w.procs| && w.procs[i].Compensating?
    ensures OneMoves(w, i, after)
    ensures after.drift == w.drift
  {
    var p := w.procs[i];
    var redis := ReleaseLua(w.redis, p.r.event, p.r.user, p.r.category, p.r.qty).0;
    var next := if p.cause.AppError? then Replied(p.r, Refused(p.cause.error)) else Rechecking(p.r);
    Goto(w, i, next).(redis := redis)
  }

  ghost function StepRechecking(w: World, i: nat): (after: World)
    requires i < |w.procs| && w.procs[i].Rechecking?
    ensures OneMoves(w, i, after)
    ensures after.drift == w.drift
  {
    var r := w.procs[i].r;
    var found := FindKey(w.db.orders, r.user, r.key);
    Goto(w, i, Replied(r, if found.Some? then Existing(found.value) else Refused(Failed)))
  }

  ghost function StepReleasing(w: World, i: nat, env: Env): (after: World)
    requires i < |w.procs| && w.procs[i].Releasing?
    ensures OneMoves(w, i, after)
    ensures after.drift == w.drift
  {
    var p := w.procs[i];
    var (db, rows) := ReleaseOrder(w.db, p.id, p.reason, env.now);
    if rows == [] then Goto(w, i, Released(p.id, false))
    else Goto(w, i, Crediting(p.id, w.db.orders[p.id].event, w.db.orders[p.id].user, rows)).(db := db)
  }

  ghost function StepCrediting(w: World, i: nat): (after: World)
    requires i < |w.procs| && w.procs[i].Crediting?
    ensures OneMoves(w, i, after)
    ensures after.drift == w.drift
  {
    var p := w.procs[i];
    if p.rows == [] || p.id >= |w.credited| then Goto(w, i, Released(p.id, true))
    else
      var redis := ReleaseLua(w.redis, p.event, p.user, p.rows[0].category, p.rows[0].qty).0;
      var next := if |p.rows| == 1 then Released(p.id, true) else p.(rows := p.rows[1..]);
      Goto(w, i, next).(redis := redis, credited := w.credited[p.id := w.credited[p.id] + 1])
  }

  ghost function StepNotified(w: World, i: nat): (after: World)
    requires i < |w.procs| && w.procs[i].Notified?
    ensures OneMoves(w, i, after)
    ensures after.drift == w.drift
  {
    var p := w.procs[i];
    if p.id >= |w.db.orders| then Goto(w, i, Settled(p.id, UnknownOrder))
    else
      var o := w.db.orders[p.id];
      if !p.pay.success then Goto(w, i, Releasing(p.id, ToCancelled))
      else if p.pay.amount != o.total then Goto(w, i, Settled(p.id, WrongAmount))
      else if o.status == Paid then Goto(w, i, Settled(p.id, AlreadyPaid))
      else if o.status == Expired || o.status == Cancelled then Goto(w, i, Refunding(p.id, o.status))
      else if o.status != Pending then Goto(w, i, Settled(p.id, Ignored))
      else Goto(w, i, Paying(p.id, p.pay, p.retries))
  }

  ghost function StepRefunding(w: World, i: nat): (after: World)
    requires i < |w.procs| && w.procs[i].Refunding?
    ensures OneMoves(w, i, after)
    ensures after.drift == w.drift
  {
    var p := w.procs[i];
    var (db, won) := RefundOrder(w.db, p.id, p.seen);
    Goto(w, i, Settled(p.id, if won then RefundedOut else Ignored)).(db := db)
  }

  ghost function StepPaying(w: World, i: nat, env: Env): (after: World)
    requires i < |w.procs| && w.procs[i].Paying?
    ensures OneMoves(w, i, after)
    ensures after.drift == w.drift
  {
    var p := w.procs[i];
    var (db, result) := PayOrder(w.db, p.id, env.codes);
    match result
    case PaidNow => Goto(w, i, Settled(p.id, PaidOut)).(db := db)
    case NotPending => Goto(w, i, Notified(p.id, p.pay, p.retries + 1))
    case PayViolation => Goto(w, i, Settled(p.id, PayFailed))
  }

  ghost function AddStock(redis: Redis, c: CategoryId, delta: int): Redis {
    redis.(stock := redis.stock[c := CounterOf(redis.stock, c) + delta])
  }

  /**
    The calls of reconcileStock after the read of the database: GET of the stock key, HGETALL of
    the tracker, then HSET with EXPIRE, or INCRBY, and DEL.
  */
  ghost function StepReconciling(w: World, i: nat, env: Env): (after: World)
    requires i < |w.procs| && w.procs[i].Reconciling?
    ensures OneMoves(w, i, after)
    ensures !w.procs[i].stage.Healing? ==> after.drift == w.drift
  {
    var c := w.procs[i].category;
    match w.procs[i].stage
    case Comparing(available) =>
      if c !in w.redis.stock then Goto(w, i, Finished)
      else Goto(w, i, Reconciling(c, Judging(w.redis.stock[c] - available)))
    case Judging(diff) =>
      var tracker := if c in w.trackers then Some(w.trackers[c]) else None;
      var runs := RunsSeen(tracker, diff, env.now);
      if diff == 0 then Goto(w, i, Reconciling(c, Forgetting))
      else if runs >= HEAL_AFTER_RUNS then Goto(w, i, Reconciling(c, Healing(diff)))
      else Goto(w, i, Reconciling(c, Noting(Tracker(diff, runs, env.now + TRACKER_TTL))))
    case Noting(tracker) => Goto(w, i, Finished).(trackers := w.trackers[c := tracker])
    case Healing(diff) =>
      if c >= |w.drift| then Goto(w, i, Finished)
      else
        Goto(w, i, Reconciling(c, Forgetting)).(redis := AddStock(w.redis, c, -diff),
                                                drift := w.drift[c := w.drift[c] - diff])
    case Forgetting => Goto(w, i, Finished).(trackers := w.trackers - {c})
  }

  ghost function StepAdjusting(w: World, i: nat): (after: World)
    requires i < |w.procs| && w.procs[i].Adjusting?
    ensures OneMoves(w, i, after)
    ensures after.drift == w.drift
  {
    var p := w.procs[i];
    Goto(w, i, Finished).(redis := AddStock(w.redis, p.category, p.delta))
  }

  /** The next atomic step of process i; a process that has finished or died does nothing. */
  ghost function Advance(w: World, i: nat, env: Env): (after: World)
    requires i < |w.procs|
    ensures !Done(w.procs[i]) ==> OneMoves(w, i, after)
    ensures Done(w.procs[i]) ==> after == w
    ensures !(w.procs[i].Reconciling? && w.procs[i].stage.Healing?) ==> after.drift == w.drift
  {
    match w.procs[i]
    case Arrived(_, _) => StepArrived(w, i)
    case Reserving(_) => StepReserving(w, i)
    case Inserting(_) => StepInserting(w, i, env)
    case Compensating(_, _) => StepCompensating(w, i)
    case Rechecking(_) => StepRechecking(w, i)
    case Releasing(_, _) => StepReleasing(w, i, env)
    case Crediting(_, _, _, _) => StepCrediting(w, i)
    case Notified(_, _, _) => StepNotified(w, i)
    case Refunding(_, _) => StepRefunding(w, i)
    case Paying(_, _, _) => StepPaying(w, i, env)
    case Reconciling(_, _) => StepReconciling(w, i, env)
    case Adjusting(_, _) => StepAdjusting(w, i)
    case _ => w
  }

  predicate Done(p: Proc) {
    p.Replied? || p.Released? || p.Settled? || p.Finished? || p.Dead?
  }

  // ---------- Units in flight ----------

  /** The units a process has taken out of one layer and not yet settled in the other. */
  function UnitsCarried(p: Proc): seq<Item> {
    match p
    case Inserting(r) => [Item(r.category, r.qty, 0)]
    case Compensating(r, _) => [Item(r.category, r.qty, 0)]
    case Crediting(_, _, _, rows) => rows
    case _ => []
  }

  predicate Carrier(p: Proc, e: EventId, u: UserId) {
    match p
    case Inserting(r) => r.event == e && r.user == u
    case Compensating(r, _) => r.event == e && r.user == u
    case Crediting(_, event, user, _) => event == e && user == u
    case _ => false
  }

  function InFlight(c: CategoryId): Proc -> int {
    (p: Proc) => UnitsIn(UnitsCarried(p), c) + (if p.Adjusting? && p.category == c then p.delta else 0)
  }

  function InFlightBy(e: EventId, u: UserId): Proc -> int {
    (p: Proc) => if Carrier(p, e, u) then Units(UnitsCarried(p)) else 0
  }

  /** A crash drops what the process carried: the stock stays too low and the counter too high. */
  ghost function Crash(w: World, i: nat): World
    requires i < |w.procs|
  {
    var p := w.procs[i];
    if Done(p) then w
    else
      var drift := seq(|w.drift|, c requires 0 <= c < |w.drift| => w.drift[c] - InFlight(c)(p));
      var fallen := Goto(w, i, Dead).(drift := drift);
      match p
      case Inserting(r) => fallen.(lost := Raise(w.lost, r.event, r.user, r.qty))
      case Compensating(r, _) => fallen.(lost := Raise(w.lost, r.event, r.user, r.qty))
      case Crediting(id, e, u, rows) =>
        fallen.(lost := Raise(w.lost, e, u, Units(rows)),
                dropped := if id < |w.dropped| then w.dropped[id := w.dropped[id] + 1] else w.dropped)
      case _ => fallen
  }

  function Raise(lost: map<(EventId, UserId), int>, e: EventId, u: UserId, n: int): map<(EventId, UserId), int> {
    lost[(e, u) := CounterOf(lost, (e, u)) + n]
  }

  // ---------- Runs ----------

  datatype Action =
    | Arrive(r: Request, listed: bool)
    | AskRelease(id: OrderId, reason: Reason)
    | Notify(id: OrderId, pay: Payment)
    | Move(i: nat, env: Env)
    | Fall(i: nat)
    | Compare(category: CategoryId)  // a run of reconcileStock reads this category in the database
    | Edit(category: CategoryId, price: int, quota: int)
    | Add(event: EventId, price: int, quota: int)

  ghost predicate Welcome(w: World, r: Request, listed: bool) {
    r.qty >= 1 && r.max == w.limit(r.event) &&
    (listed ==> r.category < |w.db.categories| && w.db.categories[r.category].event == r.event)
  }

  ghost function Spawn(w: World, p: Proc): World {
    w.(procs := w.procs + [p])
  }

  /** One step of the whole system; an action that is not possible changes nothing. */
  ghost function Do(w: World, a: Action): World {
    match a
    case Arrive(r, listed) => if Welcome(w, r, listed) then Spawn(w, Arrived(r, listed)) else w
    case AskRelease(id, reason) => Spawn(w, Releasing(id, reason))
    case Notify(id, pay) => Spawn(w, Notified(id, pay, 0))
    case Move(i, env) => if i < |w.procs| then Advance(w, i, env) else w
    case Fall(i) => if i < |w.procs| then Crash(w, i) else w
    case Compare(c) =>
      if c < |w.db.categories| then Spawn(w, Reconciling(c, Comparing(Available(w.db.categories[c])))) else w
    case Edit(c, price, quota) =>
      if c < |w.db.categories| && w.db.categories[c].sold + w.db.categories[c].reserved <= quota
      then Spawn(w, Adjusting(c, quota - w.db.categories[c].quota)).(db := EditCategory(w.db, c, price, quota))
      else w
    case Add(e, price, quota) =>
      if quota >= 0
      then w.(db := AddCategory(w.db, e, price, quota), drift := w.drift + [0],
              redis := w.redis.(stock := w.redis.stock[|w.db.categories| := quota]))
      else w
  }

  ghost function Run(w: World, actions: seq<Action>): World {
    if actions == [] then w else Do(Run(w, actions[..|actions| - 1]), actions[|actions| - 1])
  }

  // ---------- The database alone ----------

  /** The statement, if any, that an action performs on the database. */
  ghost function StatementOf(w: World, a: Action): DbOp {
    match a
    case Move(i, env) =>
      if i >= |w.procs| then OpRefund(0, Pending)
      else
        (match w.procs[i]
         case Inserting(r) => OpReserve(r, env.expiresAt)
         case Releasing(id, reason) => OpRelease(id, reason, env.now)
         case Refunding(id, seen) => OpRefund(id, seen)
         case Paying(id, _, _) => OpPay(id, env.codes)
         case _ => OpRefund(0, Pending))
    case Edit(c, price, quota) => OpEdit(c, price, quota)
    case Add(e, price, quota) => OpAdd(e, price, quota)
    case _ => OpRefund(0, Pending)
  }

  lemma MoveDb(w: World, i: nat, env: Env)
    requires i < |w.procs|
    ensures Advance(w, i, env).db == w.db || Advance(w, i, env).db == Apply(w.db, StatementOf(w, Move(i, env)))
  {
    hide Total, Held, FindKey, ReserveOrder, PayOrder, ReleaseOrder, RefundOrder, ReserveLua, ReleaseLua;
  }

  lemma DbMoves(w: World, a: Action)
    ensures Do(w, a).db == w.db || Do(w, a).db == Apply(w.db, StatementOf(w, a))
  {
    hide Total, Advance;
    if a.Move? && a.i < |w.procs| { MoveDb(w, a.i, a.env); }
  }

  /** The statements that a run performs, in order. */
  ghost function Statements(w: World, actions: seq<Action>): seq<DbOp> {
    if actions == [] then []
    else
      var before, last := Run(w, actions[..|actions| - 1]), actions[|actions| - 1];
      Statements(w, actions[..|actions| - 1])
      + (if Do(before, last).db == before.db then [] else [StatementOf(before, last)])
  }

  /** The database of every run is what its statements alone produce: whatever holds over those holds here. */
  lemma {:induction false} DatabaseOfRun(w: World, actions: seq<Action>)
    ensures Run(w, actions).db == ApplyAll(w.db, Statements(w, actions))
  {
    hide Do, StatementOf, Apply;
    if actions != [] {
      var before, last := Run(w, actions[..|actions| - 1]), actions[|actions| - 1];
      DatabaseOfRun(w, actions[..|actions| - 1]);
      DbMoves(before, last);
      var ops := Statements(w, actions[..|actions| - 1]);
      assert (ops + [StatementOf(before, last)])[..|ops|] == ops;
      assert ops + [] == ops;
    }
  }

  /** The first moment: no category, no order, no process, an empty Redis. */
  ghost predicate Initial(w: World) {
    w.db == Db([], []) && w.procs == [] && w.redis == Redis(map[], map[]) && w.trackers == map[] &&
    w.drift == [] && w.lost == map[] && w.credited == [] && w.dropped == [] &&
    forall e :: w.limit(e) >= 0
  }
}
