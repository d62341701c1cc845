/**
  createOrder, handlePaymentNotification and reconcileStock run by one caller without
  interference: their outcome as functions of the two stores, what that outcome promises, and
  that it is what the processes of the step system do when nothing else moves.
*/
module SingleCaller {
  import opened Measures
  import opened Database
  import opened StatementLaws
  import opened Reconcile
  import opened Inventory

  // ---------- createOrder, alone ----------

  /** The outcome of createOrder when nothing else runs. */
  function CreateAlone(redis: Redis, db: Db, r: Request, listed: bool, fail: bool, expiresAt: int)
    : (Redis, Db, CreateReply)
  {
    var found := FindKey(db.orders, r.user, r.key);
    if found.Some? then (redis, db, Existing(found.value))
    else if !listed then (redis, db, Refused(NotFound))
    else if r.qty > r.max then (redis, db, Refused(LimitError))
    else
      var (taken, lua) := ReserveLua(redis, r.event, r.user, r.category, r.qty, r.max);
      match lua
      case NoStock => (redis, db, Refused(StockError))
      case OverLimit => (redis, db, Refused(LimitError))
      case NotReady => (redis, db, Refused(NotReadyError))
      case Granted(_) =>
        var (after, v) := ReserveOrder(db, r, expiresAt);
        if !fail && v.Ok? then (taken, after, Created(v.id))
        else
          var back := ReleaseLua(taken, r.event, r.user, r.category, r.qty).0;
          var cause := if fail then OtherError else CauseOf(v);
          (back, db, Refused(if cause.AppError? then cause.error else Failed))
  }

  predicate CountersPositive(redis: Redis) {
    forall k :: k in redis.bought ==> redis.bought[k] > 0
  }

  /** A refused checkout leaves both stores exactly as they were, compensation included. */
  lemma RefusalRestores(redis: Redis, db: Db, r: Request, listed: bool, fail: bool, expiresAt: int)
    requires CountersPositive(redis) && r.qty >= 1
    ensures var (redis', db', reply) := CreateAlone(redis, db, r, listed, fail, expiresAt);
      !reply.Created? ==> redis' == redis && db' == db
  {
    hide Total, Held;
    var taken := ReserveLua(redis, r.event, r.user, r.category, r.qty, r.max).0;
    var back := ReleaseLua(taken, r.event, r.user, r.category, r.qty).0;
    if ReserveLua(redis, r.event, r.user, r.category, r.qty, r.max).1.Granted? {
      assert back.bought == redis.bought;
      assert back.stock == redis.stock;
    }
  }

  /**
    What createOrder promises: either one PENDING order of the requested quantity appears, at
    the price of the moment for every unit, both layers drop by exactly that quantity and the
    account stays within its limit, or both stores are exactly as before. It never repeats a key.
  */
  lemma CreatePromise(redis: Redis, db: Db, r: Request, listed: bool, fail: bool, expiresAt: int)
    requires DbInv(db) && CountersPositive(redis) && r.qty >= 1
    ensures var (redis', db', reply) := CreateAlone(redis, db, r, listed, fail, expiresAt);
      && (!reply.Created? ==> redis' == redis && db' == db)
      && (reply.Existing? <==> FindKey(db.orders, r.user, r.key).Some?)
      && (reply.Created? ==> DbInv(db') && OneMoreOrder(redis, db, r, expiresAt, redis', db', reply.id))
  {
    hide Total;
    RefusalRestores(redis, db, r, listed, fail, expiresAt);
    if CreateAlone(redis, db, r, listed, fail, expiresAt).2.Created? {
      ReserveKeeps(db, r, expiresAt);
      ReserveExactly(db, r, expiresAt);
      OneItem(NewOrder(r, db.categories[r.category].price, expiresAt).items, r.category);
      HeldAfter(db, OpReserve(r, expiresAt), r.user, r.event);
    }
  }

  /** Order `id` is new, for what r asks at the price of the moment, and every count that it should move has moved. */
  ghost predicate OneMoreOrder(redis: Redis, db: Db, r: Request, expiresAt: int, redis': Redis, db': Db, id: OrderId) {
    && id == |db.orders| && OrderAdded(db, r, expiresAt, db')
    && CounterOf(redis'.stock, r.category) == CounterOf(redis.stock, r.category) - r.qty >= 0
    && Bought(redis', r.event, r.user) == Bought(redis, r.event, r.user) + r.qty <= r.max
    && Held(db'.orders, r.user, r.event) == Held(db.orders, r.user, r.event) + r.qty <= r.max
    && Available(db'.categories[r.category]) == Available(db.categories[r.category]) - r.qty >= 0
  }

  /** reserve.lua in full: the missing key first, then the limit, then the stock; a refusal changes nothing. */
  lemma ReserveLuaExactly(redis: Redis, e: EventId, u: UserId, c: CategoryId, qty: int, max: int)
    requires qty >= 1
    ensures var (after, reply) := ReserveLua(redis, e, u, c, qty, max);
      var bought := if (e, u) in redis.bought then redis.bought[(e, u)] else 0;
      && (reply.NotReady? <==> c !in redis.stock)
      && (reply.OverLimit? <==> c in redis.stock && bought + qty > max)
      && (reply.NoStock? <==> c in redis.stock && bought + qty <= max && redis.stock[c] < qty)
      && (!reply.Granted? ==> after == redis)
      && (reply.Granted? ==>
           && reply.left == redis.stock[c] - qty >= 0
           && after.stock == redis.stock[c := reply.left] && after.bought == redis.bought[(e, u) := bought + qty])
  {
  }

  /** release.lua in full: the stock grows by the quantity and is returned; the counter falls, and is gone at zero. */
  lemma ReleaseLuaExactly(redis: Redis, e: EventId, u: UserId, c: CategoryId, qty: int)
    ensures var (after, left) := ReleaseLua(redis, e, u, c, qty);
      var bought := if (e, u) in redis.bought then redis.bought[(e, u)] else 0;
      && left == (if c in redis.stock then redis.stock[c] else 0) + qty
      && after.stock == redis.stock[c := left]
      && ((e, u) in after.bought <==> bought > qty) && (bought > qty ==> after.bought[(e, u)] == bought - qty)
      && (forall k :: k != (e, u) ==>
           (k in after.bought <==> k in redis.bought) && (k in redis.bought ==> after.bought[k] == redis.bought[k]))
  {
  }

  /**
    Which reply createOrder gives, exactly. `fail` is a database failure; without one, an order
    is created unless the key is taken, the category is not listed, a limit would be passed or
    the units are not there, and each refusal is told as what it is.
  */
  lemma CreateReplies(redis: Redis, db: Db, r: Request, listed: bool, fail: bool, expiresAt: int)
    requires r.qty >= 1
    ensures var reply := CreateAlone(redis, db, r, listed, fail, expiresAt).2;
      var bought := if (r.event, r.user) in redis.bought then redis.bought[(r.event, r.user)] else 0;
      var newKey := !KeyTaken(db.orders, r.user, r.key);
      var ready := newKey && listed && r.qty <= r.max && r.category in redis.stock;
      var granted := ready && bought + r.qty <= r.max && redis.stock[r.category] >= r.qty;
      var within := Held(db.orders, r.user, r.event) + r.qty <= r.max;
      && (reply.Existing? <==> !newKey)
      && (reply.Existing? ==>
           reply.id < |db.orders| && db.orders[reply.id].user == r.user && db.orders[reply.id].key == r.key)
      && (reply == Refused(NotFound) <==> newKey && !listed)
      && (reply == Refused(NotReadyError) <==> newKey && listed && r.qty <= r.max && r.category !in redis.stock)
      && (reply == Refused(LimitError) <==>
           ((newKey && listed && r.qty > r.max) || (ready && bought + r.qty > r.max) || (granted && !fail && !within)))
      && (reply == Refused(StockError) <==>
           ((ready && bought + r.qty <= r.max && redis.stock[r.category] < r.qty)
            || (granted && !fail && within && !Fits(db, r))))
      && (reply == Refused(Failed) <==> granted && fail)
      && (reply.Created? <==> granted && !fail && within && Fits(db, r))
  {
    hide Held, ReserveOrder, ReleaseLua, Fits;
    KeyFound(db.orders, r.user, r.key);
    ReserveExactly(db, r, expiresAt);
    ReserveLuaExactly(redis, r.event, r.user, r.category, r.qty, r.max);
    var v := ReserveOrder(db, r, expiresAt).1;
    assert v.LimitExceeded? || v.OutOfStock? || v.Violation? || v.Ok?;
  }

  // ---------- The same outcome from the step system ----------

  /** n steps of process i, with nothing in between. */
  ghost function Steps(w: World, i: nat, env: Env, n: nat): World
    requires i < |w.procs|
    decreases n
  {
    if n == 0 then w else Steps(Advance(w, i, env), i, env, n - 1)
  }

  lemma {:induction false} DoneStays(w: World, i: nat, env: Env, n: nat)
    requires i < |w.procs| && Done(w.procs[i])
    ensures Steps(w, i, env, n) == w
    decreases n
  {
    if n > 0 { DoneStays(w, i, env, n - 1); }
  }

  lemma FromCompensating(w: World, i: nat, env: Env)
    requires i < |w.procs| && w.procs[i].Compensating?
    requires FindKey(w.db.orders, w.procs[i].r.user, w.procs[i].r.key).None?
    ensures var p := w.procs[i]; var done := Steps(w, i, env, 2);
      |done.procs| == |w.procs| && done.db == w.db &&
      done.redis == ReleaseLua(w.redis, p.r.event, p.r.user, p.r.category, p.r.qty).0 &&
      done.procs[i] == Replied(p.r, Refused(if p.cause.AppError? then p.cause.error else Failed))
  {
    hide Total, Held, FindKey, ReleaseLua;
    var w1 := StepCompensating(w, i);
    assert Advance(w, i, env) == w1;
    if w1.procs[i].Replied? {
      DoneStays(w1, i, env, 1);
    } else {
      assert Advance(w1, i, env) == StepRechecking(w1, i);
      DoneStays(StepRechecking(w1, i), i, env, 0);
    }
  }

  lemma FromInserting(w: World, i: nat, env: Env)
    requires i < |w.procs| && w.procs[i].Inserting?
    requires FindKey(w.db.orders, w.procs[i].r.user, w.procs[i].r.key).None?
    ensures var r := w.procs[i].r; var done := Steps(w, i, env, 3);
      var (db, v) := ReserveOrder(w.db, r, env.expiresAt);
      var cause := if env.fail then OtherError else CauseOf(v);
      |done.procs| == |w.procs| &&
      if !env.fail && v.Ok?
      then done.redis == w.redis && done.db == db && done.procs[i] == Replied(r, Created(v.id))
      else done.redis == ReleaseLua(w.redis, r.event, r.user, r.category, r.qty).0 && done.db == w.db &&
           done.procs[i] == Replied(r, Refused(if cause.AppError? then cause.error else Failed))
  {
    hide Total, Held, FindKey, ReleaseLua, ReserveOrder;
    var w1 := StepInserting(w, i, env);
    assert Advance(w, i, env) == w1;
    if w1.procs[i].Replied? { DoneStays(w1, i, env, 2); } else { FromCompensating(w1, i, env); }
  }

  lemma FromReserving(w: World, i: nat, env: Env)
    requires i < |w.procs| && w.procs[i].Reserving? && w.procs[i].r.qty <= w.procs[i].r.max
    requires FindKey(w.db.orders, w.procs[i].r.user, w.procs[i].r.key).None?
    ensures var done := Steps(w, i, env, 4); var r := w.procs[i].r;
      |done.procs| == |w.procs| &&
      (done.redis, done.db, done.procs[i]) ==
        (CreateAlone(w.redis, w.db, r, true, env.fail, env.expiresAt).0,
          CreateAlone(w.redis, w.db, r, true, env.fail, env.expiresAt).1,
         Replied(r, CreateAlone(w.redis, w.db, r, true, env.fail, env.expiresAt).2))
  {
    hide Total, Held, FindKey, ReleaseLua, ReserveOrder, ReserveLua;
    var w1 := StepReserving(w, i);
    assert Advance(w, i, env) == w1;
    if w1.procs[i].Replied? { DoneStays(w1, i, env, 3); } else { FromInserting(w1, i, env); }
  }

  /** The checkout process of the step system, run without interference, is createOrder. */
  lemma CreateIsTheProcess(w: World, r: Request, listed: bool, env: Env)
    requires Welcome(w, r, listed)
    ensures var i := |w.procs|;
      var done := Steps(Do(w, Arrive(r, listed)), i, env, 5);
      |done.procs| == i + 1 &&
      (done.redis, done.db, done.procs[i]) ==
        (CreateAlone(w.redis, w.db, r, listed, env.fail, env.expiresAt).0,
          CreateAlone(w.redis, w.db, r, listed, env.fail, env.expiresAt).1,
         Replied(r, CreateAlone(w.redis, w.db, r, listed, env.fail, env.expiresAt).2))
  {
    hide Total, Held, FindKey, ReleaseLua, ReserveOrder, ReserveLua;
    var i := |w.procs|;
    var w0 := Do(w, Arrive(r, listed));
    var w1 := StepArrived(w0, i);
    assert Advance(w0, i, env) == w1;
    if w1.procs[i].Replied? { DoneStays(w1, i, env, 4); } else { FromReserving(w1, i, env); }
  }

  // ---------- The gap between the layers ----------

  /** How far the stock of a category is from what the database offers. */
  ghost function GapOf(redis: Redis, db: Db, c: CategoryId): int
    requires c < |db.categories|
  {
    CounterOf(redis.stock, c) - Available(db.categories[c])
  }

  /** A release moves both layers by the same amount. */
  lemma ReleaseKeepsGap(redis: Redis, db: Db, id: OrderId, reason: Reason, now: int, c: CategoryId)
    requires DbInv(db) && Releasable(db, id, reason, now) && c < |db.categories|
    ensures var o := db.orders[id];
      var after := ReleaseLua(redis, o.event, o.user, o.items[0].category, o.items[0].qty).0;
      GapOf(after, ReleaseOrder(db, id, reason, now).0, c) == GapOf(redis, db, c)
  {
    assert WellFormed(db.categories, db.orders[id]);
    OneItem(db.orders[id].items, c);
  }

  // ---------- handlePaymentNotification, alone ----------

  datatype PaymentReply = RPaid | RAlreadyPaid | RRefunded | RCancelled | RIgnored | RNotFound | RWrongAmount | RFailed

  /** The outcome of a payment notification: it depends on the status the order really has. */
  function PaymentAlone(redis: Redis, db: Db, id: OrderId, pay: Payment, codes: seq<Code>, now: int)
    : (Redis, Db, PaymentReply)
  {
    if id >= |db.orders| then (redis, db, RNotFound)
    else
      var o := db.orders[id];
      if !pay.success then
        var (db', rows) := ReleaseOrder(db, id, ToCancelled, now);
        if rows == [] then (redis, db', RIgnored)
        else (ReleaseLua(redis, o.event, o.user, rows[0].category, rows[0].qty).0, db', RCancelled)
      else if pay.amount != o.total then (redis, db, RWrongAmount)
      else
        match o.status
        case Paid => (redis, db, RAlreadyPaid)
        case Refunded => (redis, db, RIgnored)
        case Pending =>
          var (db', result) := PayOrder(db, id, codes);
          (redis, db', if result.PaidNow? then RPaid else RFailed)
        case _ => (redis, RefundOrder(db, id, o.status).0, RRefunded)
  }

  /**
    What a notification promises: the reply tells exactly how the order's status moved, PAID
    needs the right amount and gives one ticket per unit, no other order changes, the books
    stay balanced and the layers stay as far apart as they were.
  */
  lemma PaymentPromise(redis: Redis, db: Db, id: OrderId, pay: Payment, codes: seq<Code>, now: int)
    requires DbInv(db)
    ensures var (redis', db', reply) := PaymentAlone(redis, db, id, pay, codes, now);
      && DbInv(db') && |db'.categories| == |db.categories| && |db'.orders| == |db.orders|
      && (reply.RNotFound? <==> id >= |db.orders|)
      && (forall k :: 0 <= k < |db.orders| && k != id ==> db'.orders[k] == db.orders[k])
      && (forall c :: 0 <= c < |db.categories| ==> GapOf(redis', db', c) == GapOf(redis, db, c))
      && (id < |db.orders| ==>
           var a, b := db.orders[id], db'.orders[id];
           && (a.status == b.status || Moves(a.status, b.status))
           && (reply.RPaid? <==> a.status == Pending && b.status == Paid)
           && (reply.RCancelled? <==> a.status == Pending && b.status == Cancelled)
           && (reply.RRefunded? <==> (a.status == Expired || a.status == Cancelled) && b.status == Refunded)
           && (reply.RPaid? ==> pay.success && pay.amount == a.total && |b.tickets| == Units(b.items))
           && (reply.RRefunded? ==> pay.success && pay.amount == a.total))
      && (reply in {RNotFound, RWrongAmount, RAlreadyPaid, RIgnored, RFailed} ==>
           redis' == redis && db' == db)
  {
    hide Total;
    PayKeeps(db, id, codes);
    ReleaseKeeps(db, id, ToCancelled, now);
    if id < |db.orders| {
      var o := db.orders[id];
      RefundKeeps(db, id, o.status);
      assert WellFormed(db.categories, o);
      OneItem(o.items, 0);
      var (redis', db', reply) := PaymentAlone(redis, db, id, pay, codes, now);
      if reply.RPaid? { assert WellFormed(db'.categories, db'.orders[id]); }
      if reply.RCancelled? {
        forall c | 0 <= c < |db.categories| ensures GapOf(redis', db', c) == GapOf(redis, db, c) {
          ReleaseKeepsGap(redis, db, id, ToCancelled, now, c);
        }
      }
    }
  }

  /**
    Which reply a notification gets, exactly. A failed payment cancels a PENDING order, at any
    time of its hold. A successful one of the right amount pays a PENDING order whenever there
    is a new, distinct code for every unit, and the tickets then carry those codes in order; it
    refunds an order that was released.
  */
  lemma PaymentReplies(redis: Redis, db: Db, id: OrderId, pay: Payment, codes: seq<Code>, now: int)
    requires DbInv(db) && id < |db.orders|
    ensures var (redis', db', reply) := PaymentAlone(redis, db, id, pay, codes, now);
      var a := db.orders[id];
      && (!pay.success ==> reply == if a.status == Pending then RCancelled else RIgnored)
      && (pay.success && pay.amount != a.total ==> reply == RWrongAmount)
      && (pay.success && pay.amount == a.total ==>
           && (a.status == Paid ==> reply == RAlreadyPaid)
           && (a.status == Refunded ==> reply == RIgnored)
           && (a.status == Expired || a.status == Cancelled ==> reply == RRefunded)
           && (a.status == Pending ==> reply == RPaid || reply == RFailed)
           && (a.status == Pending && |codes| == Units(a.items)
               && (forall i, j :: 0 <= i < j < |codes| ==> codes[i] != codes[j])
               && (forall i :: 0 <= i < |codes| ==> !OnSomeTicket(db.orders, codes[i]))
               ==> && reply == RPaid && |db'.orders[id].tickets| == |codes|
                   && forall n :: 0 <= n < |codes| ==> db'.orders[id].tickets[n].code == codes[n]))
  {
    hide Total, PayOrder, ReleaseOrder, OnSomeTicket;
    assert WellFormed(db.categories, db.orders[id]);
    OneItem(db.orders[id].items, 0);
    PayExactly(db, id, codes);
    ReleaseExactly(db, id, ToCancelled, now);
  }

  /** The last state of a notification process that answers `reply`. */
  function EndOf(id: OrderId, pay: Payment, reply: PaymentReply): Proc {
    match reply
    case RPaid => Settled(id, PaidOut)
    case RAlreadyPaid => Settled(id, AlreadyPaid)
    case RRefunded => Settled(id, RefundedOut)
    case RCancelled => Released(id, true)
    case RIgnored => if pay.success then Settled(id, Ignored) else Released(id, false)
    case RNotFound => Settled(id, UnknownOrder)
    case RWrongAmount => Settled(id, WrongAmount)
    case RFailed => Settled(id, PayFailed)
  }

  /** A release that wins has two steps, one that loses has one. */
  lemma FromReleasing(w: World, i: nat, env: Env)
    requires i < |w.procs| && w.procs[i].Releasing? && |w.credited| == |w.db.orders|
    requires w.procs[i].id < |w.db.orders| ==> |w.db.orders[w.procs[i].id].items| == 1
    ensures var p := w.procs[i]; var done := Steps(w, i, env, 2);
      var (db, rows) := ReleaseOrder(w.db, p.id, p.reason, env.now);
      |done.procs| == |w.procs| && done.db == db && done.procs[i] == Released(p.id, rows != []) &&
      done.redis == if rows == [] then w.redis
                    else
                      var o := w.db.orders[p.id];
                      ReleaseLua(w.redis, o.event, o.user, rows[0].category, rows[0].qty).0
  {
    hide Total, Held, FindKey, ReleaseLua;
    var w1 := StepReleasing(w, i, env);
    assert Advance(w, i, env) == w1;
    if w1.procs[i].Released? {
      DoneStays(w1, i, env, 1);
    } else {
      assert Advance(w1, i, env) == StepCrediting(w1, i);
      DoneStays(StepCrediting(w1, i), i, env, 0);
    }
  }

  lemma FromRefunding(w: World, i: nat, env: Env)
    requires i < |w.procs| && w.procs[i].Refunding? && w.procs[i].id < |w.db.orders|
    requires var p := w.procs[i]; w.db.orders[p.id].status == p.seen && (p.seen == Expired || p.seen == Cancelled)
    ensures var p := w.procs[i];
      Steps(w, i, env, 2) == Goto(w, i, Settled(p.id, RefundedOut)).(db := RefundOrder(w.db, p.id, p.seen).0)
  {
    hide Total;
    assert Advance(w, i, env) == StepRefunding(w, i);
    DoneStays(StepRefunding(w, i), i, env, 1);
  }

  lemma FromPaying(w: World, i: nat, env: Env)
    requires i < |w.procs| && w.procs[i].Paying? && w.procs[i].id < |w.db.orders|
    requires w.db.orders[w.procs[i].id].status == Pending
    ensures var p := w.procs[i]; var (db, result) := PayOrder(w.db, p.id, env.codes);
      Steps(w, i, env, 2) == Goto(w, i, Settled(p.id, if result.PaidNow? then PaidOut else PayFailed)).(db := db)
  {
    hide Total, CodesFresh, IssueTickets, MoveToSold;
    assert Advance(w, i, env) == StepPaying(w, i, env);
    DoneStays(StepPaying(w, i, env), i, env, 1);
  }

  lemma NotifiedStep(w: World, i: nat, env: Env)
    requires i < |w.procs| && w.procs[i].Notified?
    ensures Advance(w, i, env) == StepNotified(w, i)
  {
    hide StepNotified;
  }

  lemma FromNotified(w: World, i: nat, env: Env)
    requires i < |w.procs| && w.procs[i].Notified? && w.procs[i].id < |w.db.orders| && w.procs[i].pay.success
    ensures var p := w.procs[i]; var done := Steps(w, i, env, 3);
      var (redis, db, reply) := PaymentAlone(w.redis, w.db, p.id, p.pay, env.codes, env.now);
      |done.procs| == |w.procs| && done.redis == redis && done.db == db && done.procs[i] == EndOf(p.id, p.pay, reply)
  {
    hide Total, Advance, ReleaseOrder, ReleaseLua, CodesFresh, IssueTickets, MoveToSold;
    var w1 := StepNotified(w, i);
    NotifiedStep(w, i, env);
    assert Steps(w, i, env, 3) == Steps(w1, i, env, 2);
    if w1.procs[i].Refunding? {
      FromRefunding(w1, i, env);
    } else if w1.procs[i].Paying? {
      FromPaying(w1, i, env);
    } else {
      DoneStays(w1, i, env, 2);
    }
  }

  /**
    A payment that comes too late: whatever the order has become since the handler read it, the
    process goes round once more and ends exactly as a notification that arrives only now.
  */
  lemma LatePayment(w: World, i: nat, env: Env)
    requires i < |w.procs| && w.procs[i].Paying? && w.procs[i].id < |w.db.orders| && w.procs[i].pay.success
    requires w.db.orders[w.procs[i].id].status != Pending
    ensures var p := w.procs[i]; var done := Steps(w, i, env, 4);
      var (redis, db, reply) := PaymentAlone(w.redis, w.db, p.id, p.pay, env.codes, env.now);
      |done.procs| == |w.procs| && done.redis == redis && done.db == db && done.procs[i] == EndOf(p.id, p.pay, reply)
  {
    hide Total, StepNotified, CodesFresh, IssueTickets, MoveToSold, PaymentAlone, EndOf;
    var p := w.procs[i];
    var again := Goto(w, i, Notified(p.id, p.pay, p.retries + 1));
    assert Advance(w, i, env) == StepPaying(w, i, env) == again;
    assert Steps(w, i, env, 4) == Steps(again, i, env, 3);
    FromNotified(again, i, env);
  }

  /** A refund that comes too late changes nothing and says so. */
  lemma LateRefund(w: World, i: nat, env: Env)
    requires i < |w.procs| && w.procs[i].Refunding? && w.procs[i].id < |w.db.orders|
    requires w.db.orders[w.procs[i].id].status != w.procs[i].seen
    ensures Advance(w, i, env) == Goto(w, i, Settled(w.procs[i].id, Ignored))
  {
    hide Total;
  }

  /** The notification process of the step system, run without interference, is handlePaymentNotification. */
  lemma PaymentIsTheProcess(w: World, id: OrderId, pay: Payment, env: Env)
    requires DbInv(w.db) && |w.credited| == |w.db.orders|
    ensures var i := |w.procs|; var done := Steps(Do(w, Notify(id, pay)), i, env, 3);
      var (redis, db, reply) := PaymentAlone(w.redis, w.db, id, pay, env.codes, env.now);
      |done.procs| == i + 1 && done.redis == redis && done.db == db && done.procs[i] == EndOf(id, pay, reply)
  {
    hide Total, Advance, Held, FindKey, ReleaseLua, ReleaseOrder, PayOrder, RefundOrder;
    var i := |w.procs|;
    var w0 := Do(w, Notify(id, pay));
    var w1 := StepNotified(w0, i);
    NotifiedStep(w0, i, env);
    if id >= |w.db.orders| {
      DoneStays(w1, i, env, 2);
    } else if pay.success {
      FromNotified(w0, i, env);
    } else {
      assert WellFormed(w.db.categories, w.db.orders[id]);
      FromReleasing(w1, i, env);
    }
  }

  // ---------- reconcileStock, alone ----------

  ghost function CellOf(w: World, c: CategoryId): Cell {
    Cell(CounterOf(w.redis.stock, c), if c in w.trackers then Some(w.trackers[c]) else None)
  }

  /** A step of a reconciliation, seen from the system. */
  lemma ReconcilingStep(w: World, i: nat, env: Env)
    requires i < |w.procs| && w.procs[i].Reconciling?
    ensures Advance(w, i, env) == Do(w, Move(i, env)) == StepReconciling(w, i, env)
  {
    hide StepReconciling;
  }

  lemma FromJudging(w: World, i: nat, env: Env)
    requires i < |w.procs| && w.procs[i].Reconciling? && w.procs[i].stage.Judging? && w.procs[i].category < |w.drift|
    requires var c := w.procs[i].category; c in w.redis.stock
    ensures var c, diff := w.procs[i].category, w.procs[i].stage.diff; var done := Steps(w, i, env, 3);
      && |done.procs| == |w.procs| && done.procs[i] == Finished && done.db == w.db
      && CellOf(done, c) == Reconciled(CellOf(w, c), CellOf(w, c).stock - diff, env.now).0
  {
    hide Advance;
    ReconcilingStep(w, i, env);
    var w1 := StepReconciling(w, i, env);
    ReconcilingStep(w1, i, env);
    var w2 := StepReconciling(w1, i, env);
    if w2.procs[i].Reconciling? {
      ReconcilingStep(w2, i, env);
      DoneStays(StepReconciling(w2, i, env), i, env, 0);
    } else {
      DoneStays(w2, i, env, 1);
    }
  }

  /** The reconciliation process of the step system, run without interference, is one run of the healing rule. */
  lemma ReconcileIsTheProcess(w: World, c: CategoryId, env: Env)
    requires c < |w.db.categories| && c < |w.drift| && c in w.redis.stock
    ensures var i := |w.procs|; var done := Steps(Do(w, Compare(c)), i, env, 4);
      && |done.procs| == i + 1 && done.procs[i] == Finished && done.db == w.db
      && CellOf(done, c) == Reconciled(CellOf(w, c), Available(w.db.categories[c]), env.now).0
  {
    hide Advance, Reconciled;
    var i := |w.procs|;
    var begun := Do(w, Compare(c));
    ReconcilingStep(begun, i, env);
    FromJudging(StepReconciling(begun, i, env), i, env);
  }
}
