/** The queue status: what the schedule asks for, what is set by hand, and the final SOLD_OUT. */
module SaleStatus {
  import opened Measures
  import opened Database
  import opened Calendar

  // ---------- One event ----------

  function QuotaOf(e: EventId): Category -> int {
    (row: Category) => if row.event == e then row.quota else 0
  }

  function SoldOf(e: EventId): Category -> int {
    (row: Category) => if row.event == e then row.sold else 0
  }

  /** One event: its row, its queue status, and the database with its categories and orders. */
  datatype Sale = Sale(db: Db, event: Schedule, status: Option<QueueStatus>, clock: int)

  datatype Action =
    | Sync(now: int)                // the worker's regular look at every event not in DRAFT or ENDED
    | Tick(now: int)                // the admission tick
    | Edit(event: Schedule, now: int)
    | Pause
    | Resume
    | CheckSoldOut
    | Sql(op: DbOp)

  function Rescheduled(s: Sale, now: int): QueueStatus {
    NextStatus(s.status, ScheduledStatus(s.event, now))
  }

  function SyncEvent(s: Sale, now: int): Sale {
    if s.event.status == Draft || s.event.status == Ended then s.(clock := now)
    else
      var next := Rescheduled(s, now);
      s.(status := Some(next), event := s.event.(status := EventStatusFor(next, s.event.status)), clock := now)
  }

  /** checkSoldOut: the decision is taken from the database, by comparing two sums over the event. */
  function CheckSold(s: Sale, e: EventId): Sale {
    if s.status != Some(Opened) && s.status != Some(Paused) then s
    else if Total(s.db.categories, SoldOf(e)) < Total(s.db.categories, QuotaOf(e)) then s
    else s.(status := Some(SoldOut), event := s.event.(status := AllSold))
  }

  function Do(s: Sale, e: EventId, a: Action): Sale {
    match a
    case Sync(now) => SyncEvent(s, now)
    case Tick(now) => if s.status.None? then s.(clock := now) else s.(status := Some(Rescheduled(s, now)), clock := now)
    case Edit(event, now) =>
      var edited := s.(event := event, clock := now);
      edited.(status := Some(Rescheduled(edited, now)))
    case Pause => if s.status == Some(Opened) then s.(status := Some(Paused)) else s
    case Resume => if s.status == Some(Paused) then s.(status := Some(Opened)) else s
    case CheckSoldOut => CheckSold(s, e)
    case Sql(op) => s.(db := Apply(s.db, op))
  }

  function Run(s: Sale, e: EventId, actions: seq<Action>): Sale {
    if actions == [] then s else Do(Run(s, e, actions[..|actions| - 1]), e, actions[|actions| - 1])
  }

  /** The calendar and the clock have closed the event. */
  predicate Over(event: Schedule, now: int) {
    event.status == Draft || event.status == Ended || event.startsAt <= now
  }

  /**
    The status that a look or a tick at `now` sets, exactly: the calendar opens the waiting room
    and then the sale at their times and closes everything at the start of the event; SOLD_OUT
    stays until then, and PAUSED stays while the sale would be open.
  */
  lemma StatusOnTime(s: Sale, now: int)
    ensures var next := Rescheduled(s, now);
      && (next == Closed <==> Over(s.event, now))
      && (next == SoldOut <==> !Over(s.event, now) && s.status == Some(SoldOut))
      && (!Over(s.event, now) && s.status != Some(SoldOut) ==>
           && (next == Scheduled <==> now < s.event.preQueueAt)
           && (next == PreQueue <==> s.event.preQueueAt <= now < s.event.saleOpensAt)
           && (next == Paused <==> s.event.preQueueAt <= now && s.event.saleOpensAt <= now && s.status == Some(Paused))
           && (next == Opened <==> s.event.preQueueAt <= now && s.event.saleOpensAt <= now && s.status != Some(Paused)))
  {
  }

  /** What each action does to the status and to the event's own column, and that it does nothing else. */
  lemma DoesExactly(s: Sale, e: EventId, a: Action)
    ensures var after := Do(s, e, a);
      match a
      case Sync(now) =>
        if s.event.status == Draft || s.event.status == Ended then after == s.(clock := now)
        else
          && after == s.(status := Some(Rescheduled(s, now)), event := after.event, clock := now)
          && after.event == s.event.(status := after.event.status)
          && (after.event.status == OnSale <==> after.status in {Some(Opened), Some(Paused)})
          && (after.event.status == AllSold <==> after.status == Some(SoldOut))
          && (after.event.status == Ended <==> after.status == Some(Closed))
          && (after.event.status == Planned <==> after.status in {Some(Scheduled), Some(PreQueue)})
      case Tick(now) => after == s.(status := if s.status.None? then None else Some(Rescheduled(s, now)), clock := now)
      case Edit(event, now) =>
        after == s.(event := event, status := Some(Rescheduled(s.(event := event), now)), clock := now)
      case Pause => after == if s.status == Some(Opened) then s.(status := Some(Paused)) else s
      case Resume => after == if s.status == Some(Paused) then s.(status := Some(Opened)) else s
      case CheckSoldOut =>
        DbInv(s.db) ==>
          after == if s.status in {Some(Opened), Some(Paused)} && Full(s.db, e)
                   then s.(status := Some(SoldOut), event := s.event.(status := AllSold)) else s
      case Sql(op) => after == s.(db := Apply(s.db, op))
  {
    if DbInv(s.db) { SumsToCategories(s.db, e); }
  }

  // ---------- Sold out is sound ----------

  predicate Full(db: Db, e: EventId) {
    forall c :: 0 <= c < |db.categories| && db.categories[c].event == e ==>
      db.categories[c].sold == db.categories[c].quota && db.categories[c].reserved == 0
  }

  /** From two sums to every category: since none may exceed its quota, equal sums mean that each is full. */
  lemma SumsToCategories(db: Db, e: EventId)
    requires DbInv(db)
    ensures Total(db.categories, SoldOf(e)) >= Total(db.categories, QuotaOf(e)) <==> Full(db, e)
  {
    forall c | 0 <= c < |db.categories| ensures SoldOf(e)(db.categories[c]) <= QuotaOf(e)(db.categories[c]) {
      assert Balanced(db, c);
    }
    if Total(db.categories, SoldOf(e)) >= Total(db.categories, QuotaOf(e)) {
      forall c | 0 <= c < |db.categories| && db.categories[c].event == e
        ensures db.categories[c].sold == db.categories[c].quota && db.categories[c].reserved == 0
      {
        TotalTight(db.categories, SoldOf(e), QuotaOf(e), c);
        assert Balanced(db, c);
      }
    } else if Full(db, e) {
      TotalSame(db.categories, SoldOf(e), QuotaOf(e));
    }
  }

  /** A full event has no PENDING order and refuses every checkout. */
  lemma FullIsFinal(db: Db, e: EventId, r: Request, expiresAt: int)
    requires DbInv(db) && Full(db, e)
    ensures forall i :: 0 <= i < |db.orders| && db.orders[i].event == e ==> db.orders[i].status != Pending
    ensures r.event == e && r.qty >= 1 ==> !ReserveOrder(db, r, expiresAt).1.Ok?
  {
    forall i | 0 <= i < |db.orders| && db.orders[i].event == e ensures db.orders[i].status != Pending {
      assert WellFormed(db.categories, db.orders[i]);
      var c := db.orders[i].items[0].category;
      OneItem(db.orders[i].items, c);
      PendingCovered(db, i, c);
    }
  }

  /** A statement that neither raises a quota of e nor adds a category to it. */
  predicate Bounded(db: Db, e: EventId, op: DbOp) {
    match op
    case OpEdit(c, _, quota) => c < |db.categories| && db.categories[c].event == e ==> quota <= db.categories[c].quota
    case OpAdd(event, _, _) => event != e
    case OpReserve(r, _) => true
    case _ => true
  }

  lemma FullStays(db: Db, e: EventId, op: DbOp)
    requires DbInv(db) && Full(db, e) && Bounded(db, e, op)
    ensures Full(Apply(db, op), e)
  {
    match op
    case OpReserve(r, expiresAt) =>
      FullIsFinal(db, e, r, expiresAt);
    case OpPay(id, codes) =>
      if PayOrder(db, id, codes).1.PaidNow? { PendingElsewhere(db, e, id); }
    case OpRelease(id, reason, now) =>
      if Releasable(db, id, reason, now) { PendingElsewhere(db, e, id); }
    case OpEdit(c, _, _) =>
      if c < |db.categories| { assert Balanced(db, c); }
    case _ =>
  }

  /** A PENDING order of another event touches no category of e. */
  lemma PendingElsewhere(db: Db, e: EventId, id: OrderId)
    requires DbInv(db) && Full(db, e) && id < |db.orders| && db.orders[id].status == Pending
    ensures forall c :: 0 <= c < |db.categories| && db.categories[c].event == e ==>
      FirstQty(db.orders[id].items, c) == 0
  {
    FullIsFinal(db, e, Request(0, e, 0, 1, 0, 0), 0);
    assert WellFormed(db.categories, db.orders[id]);
    forall c | 0 <= c < |db.categories| && db.categories[c].event == e ensures FirstQty(db.orders[id].items, c) == 0 {
      OneItem(db.orders[id].items, c);
    }
  }

  ghost predicate BoundedRun(s: Sale, e: EventId, actions: seq<Action>) {
    actions == [] ||
    var init, a := actions[..|actions| - 1], actions[|actions| - 1];
    BoundedRun(s, e, init) &&
      (a.Sql? && Run(s, e, init).status == Some(SoldOut) ==> Bounded(Run(s, e, init).db, e, a.op))
  }

  /** SOLD_OUT is shown only while every category of the event is sold out to the last ticket. */
  ghost predicate SaleInv(s: Sale, e: EventId) {
    DbInv(s.db) && (s.status == Some(SoldOut) ==> Full(s.db, e))
  }

  lemma DoKeepsSale(s: Sale, e: EventId, a: Action)
    requires SaleInv(s, e)
    requires a.Sql? && s.status == Some(SoldOut) ==> Bounded(s.db, e, a.op)
    ensures SaleInv(Do(s, e, a), e)
  {
    match a
    case CheckSoldOut => SumsToCategories(s.db, e);
    case Sql(op) =>
      ApplyKeeps(s.db, op);
      if s.status == Some(SoldOut) { FullStays(s.db, e, op); }
    case _ =>
  }

  /**
    Sold out is sound and permanent: over every run, while the status is SOLD_OUT every
    category of the event has sold = quota and reserved = 0, no checkout of the event can
    succeed and none of its orders is PENDING. Only a raised quota or a new category ends that.
  */
  lemma {:induction false} SoldOutIsSound(s: Sale, e: EventId, actions: seq<Action>, r: Request, expiresAt: int)
    requires SaleInv(s, e) && BoundedRun(s, e, actions)
    ensures SaleInv(Run(s, e, actions), e)
    ensures Run(s, e, actions).status == Some(SoldOut) ==>
      var db := Run(s, e, actions).db;
      && Full(db, e)
      && (r.event == e && r.qty >= 1 ==> !ReserveOrder(db, r, expiresAt).1.Ok?)
      && (forall i :: 0 <= i < |db.orders| && db.orders[i].event == e ==> db.orders[i].status != Pending)
  {
    if actions != [] {
      SoldOutIsSound(s, e, actions[..|actions| - 1], r, expiresAt);
      DoKeepsSale(Run(s, e, actions[..|actions| - 1]), e, actions[|actions| - 1]);
    }
    if Run(s, e, actions).status == Some(SoldOut) {
      FullIsFinal(Run(s, e, actions).db, e, r, expiresAt);
    }
  }

  /** No edit of the event, and time never runs backwards. */
  predicate Unedited(actions: seq<Action>, start: int) {
    (forall i :: 0 <= i < |actions| ==> !actions[i].Edit? && (IsTimed(actions[i]) ==> start <= actions[i].now)) &&
    (forall i, j :: 0 <= i < j < |actions| && IsTimed(actions[i]) && IsTimed(actions[j]) ==>
      actions[i].now <= actions[j].now)
  }

  predicate IsTimed(a: Action) { a.Sync? || a.Tick? || a.Edit? }

  /** Until the event starts, no run of looks, ticks, pauses, resumes, checks and statements takes SOLD_OUT back. */
  lemma {:induction false} SoldOutSticks(s: Sale, e: EventId, actions: seq<Action>)
    requires s.status == Some(SoldOut) && s.event.status != Draft && s.event.status != Ended
    requires Unedited(actions, s.clock)
    requires forall i :: 0 <= i < |actions| && IsTimed(actions[i]) ==> actions[i].now < s.event.startsAt
    ensures
      var after := Run(s, e, actions);
      after.status == Some(SoldOut) && after.event == s.event.(status := after.event.status) &&
      after.event.status != Draft && after.event.status != Ended
  {
    if actions != [] {
      SoldOutSticks(s, e, actions[..|actions| - 1]);
    }
  }

  // ---------- A calendar only moves forward ----------

  /**
    The status never claims more than the calendar has reached, and an event in DRAFT or
    ENDED shows no open sale.
  */
  predicate OnTrack(s: Sale) {
    && (s.status.Some? ==>
          Phase(ScheduledStatus(s.event, s.clock)) >= (if s.status == Some(SoldOut) then 2 else Phase(s.status.value)))
    && (s.event.status == Draft || s.event.status == Ended ==> s.status in {None, Some(Closed)})
  }

  function PhaseOf(s: Sale): int {
    if s.status.None? then -1 else Phase(s.status.value)
  }

  /** What every action but an edit keeps: the sale is never moved back. */
  lemma DoAdvances(s: Sale, e: EventId, a: Action)
    requires OnTrack(s) && !a.Edit? && (IsTimed(a) ==> s.clock <= a.now)
    ensures OnTrack(Do(s, e, a)) && PhaseOf(Do(s, e, a)) >= PhaseOf(s)
    ensures Do(s, e, a).clock == if IsTimed(a) then a.now else s.clock
  {
    if IsTimed(a) { ScheduleAdvances(s.event, s.clock, a.now); }
  }

  /**
    While nobody edits the event, no run of looks, ticks, pauses, resumes and sold-out checks
    ever moves the sale back: SCHEDULED, PREQUEUE, OPEN or PAUSED, SOLD_OUT, CLOSED. In
    particular CLOSED is final, although the status column of the event changes on the way.
  */
  lemma {:induction false} PhaseNeverBack(s: Sale, e: EventId, actions: seq<Action>)
    requires OnTrack(s) && Unedited(actions, s.clock)
    ensures OnTrack(Run(s, e, actions))
    ensures PhaseOf(Run(s, e, actions)) >= PhaseOf(s)
    ensures Run(s, e, actions).clock == s.clock ||
            exists i :: 0 <= i < |actions| && IsTimed(actions[i]) && actions[i].now == Run(s, e, actions).clock
  {
    if actions != [] {
      var init, a := actions[..|actions| - 1], actions[|actions| - 1];
      PhaseNeverBack(s, e, init);
      DoAdvances(Run(s, e, init), e, a);
    }
  }

  // ---------- The worker and the administrator ----------

  const SOLD_OUT_CHECK_MS := 3_000

  datatype Command = ToPause | ToResume | Neither

  /** The status key and the row of one event, beside the database; `lastCheck` is the worker's own note. */
  class StatusKeeper {
    var db: Db
    var event: Schedule
    var status: Option<QueueStatus>
    var clock: int
    var lastCheck: int

    ghost function State(): Sale
      reads this
    {
      Sale(db, event, status, clock)
    }

    /** The status part of syncEventToRedis. */
    method SyncToRedis(now: int) returns (next: QueueStatus)
      modifies this`status, this`clock
      ensures State() == old(State()).(status := Some(Rescheduled(old(State()), now)), clock := now)
      ensures status == Some(next)
      ensures next == Closed <==> event.status == Draft || event.status == Ended || event.startsAt <= now
      ensures next == SoldOut <==> old(status) == Some(SoldOut) && next != Closed
      ensures next == Scheduled ==> now < event.preQueueAt
      ensures next == PreQueue ==> event.preQueueAt <= now < event.saleOpensAt
      ensures next in {Opened, Paused} ==> event.preQueueAt <= now && event.saleOpensAt <= now
      ensures next == Paused ==> old(status) == Some(Paused)
      ensures next == Opened ==> old(status) != Some(Paused)
    {
      clock := now;
      next := NextStatus(status, ScheduledStatus(event, now));
      if status != Some(next) { status := Some(next); }
    }

    /** syncEvents, for one event. */
    method SyncEvents(e: EventId, now: int)
      modifies this`status, this`clock, this`event
      ensures State() == Do(old(State()), e, Sync(now))
    {
      if event.status == Draft || event.status == Ended {
        clock := now;
        return;
      }
      var queueStatus := SyncToRedis(now);
      var eventStatus := EventStatusFor(queueStatus, event.status);
      if eventStatus != event.status { event := event.(status := eventStatus); }
    }

    /** upsertEvent: the new row, then the status it asks for. */
    method UpsertEvent(e: EventId, row: Schedule, now: int)
      modifies this`status, this`clock, this`event
      ensures State() == Do(old(State()), e, Edit(row, now))
    {
      event := row;
      var _ := SyncToRedis(now);
    }

    /**
      The status part of admitEvent. The cached row only raises a suspicion; what the status
      becomes is decided on a fresh read, so a stale cache can delay a change and never make one.
    */
    method ConfirmSchedule(e: EventId, cached: Schedule, now: int, later: int) returns (kept: Schedule)
      requires now <= later
      modifies this`status, this`clock
      ensures
        var suspected :=
          old(status).Some? && NextStatus(old(status), ScheduledStatus(cached, now)) != old(status).value;
        && State() == (if suspected then Do(old(State()), e, Tick(later)) else old(State()).(clock := now))
        && kept == (if suspected then event else cached)
      ensures cached == event && now == later ==> State() == Do(old(State()), e, Tick(now))
      ensures status != old(status) ==> kept == event
    {
      clock := now;
      kept := cached;
      var current := status;
      if current.Some? && NextStatus(current, ScheduledStatus(cached, now)) != current.value {
        kept, clock := event, later;
        var confirmed := NextStatus(current, ScheduledStatus(event, later));
        if confirmed != current.value { status := Some(confirmed); }
      }
    }

    /** The pause and resume part of controlQueue. */
    method Control(e: EventId, command: Command) returns (now: Option<QueueStatus>)
      modifies this`status
      ensures State() == match command
                         case ToPause => Do(old(State()), e, Pause)
                         case ToResume => Do(old(State()), e, Resume)
                         case Neither => old(State())
      ensures now == status
      ensures command == ToPause ==> (status == Some(Paused) <==> old(status) in {Some(Opened), Some(Paused)})
      ensures command == ToResume ==> (status == Some(Opened) <==> old(status) in {Some(Opened), Some(Paused)})
      ensures status != old(status) ==>
        old(status) in {Some(Opened), Some(Paused)} && status in {Some(Opened), Some(Paused)}
    {
      var current := status;
      if command == ToPause && current == Some(Opened) {
        status := Some(Paused);
        return Some(Paused);
      }
      if command == ToResume && current == Some(Paused) {
        status := Some(Opened);
        return Some(Opened);
      }
      now := current;
    }

    /** The sums over the categories of one event. */
    method Totals(e: EventId) returns (sold: int, quota: int)
      ensures sold == Total(db.categories, SoldOf(e)) && quota == Total(db.categories, QuotaOf(e))
    {
      sold, quota := 0, 0;
      for i := 0 to |db.categories|
        invariant sold == Total(db.categories[..i], SoldOf(e)) && quota == Total(db.categories[..i], QuotaOf(e))
      {
        assert db.categories[..i + 1] == db.categories[..i] + [db.categories[i]];
        if db.categories[i].event == e {
          sold, quota := sold + db.categories[i].sold, quota + db.categories[i].quota;
        }
      }
      assert db.categories[..|db.categories|] == db.categories;
    }

    /**
      checkSoldOut: at most one look every SOLD_OUT_CHECK_MS; it closes the sale exactly when every
      category is full.
    */
    method CheckSoldOut(e: EventId, now: int)
      requires DbInv(db)
      modifies this`status, this`event, this`lastCheck
      ensures lastCheck == if now - old(lastCheck) < 3_000 then old(lastCheck) else now
      ensures State() == if now - old(lastCheck) < 3_000 then old(State())
        else Do(old(State()), e, Action.CheckSoldOut)
      ensures status != old(status) <==>
        now - old(lastCheck) >= 3_000 && old(status) in {Some(Opened), Some(Paused)} && Full(db, e)
    {
      SumsToCategories(db, e);
      if now - lastCheck < SOLD_OUT_CHECK_MS { return; }
      lastCheck := now;
      if status != Some(Opened) && status != Some(Paused) { return; }
      var sold, quota := Totals(e);
      if sold < quota { return; }
      status := Some(SoldOut);
      event := event.(status := AllSold);
    }
  }
}
