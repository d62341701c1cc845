/** Redis as a conservative filter in front of the database. */
module LayerOne {
  import opened Measures
  import opened Database
  import opened Inventory
  import opened Conservation

  /** An action that starts neither a reconciliation nor a quota cut. */
  ghost predicate Calm(w: World, a: Action) {
    !a.Compare? &&
    (a.Edit? && a.category < |w.db.categories| ==> a.quota >= w.db.categories[a.category].quota)
  }

  ghost predicate CalmRun(w: World, actions: seq<Action>) {
    actions == [] ||
    (CalmRun(w, actions[..|actions| - 1]) && Calm(Run(w, actions[..|actions| - 1]), actions[|actions| - 1]))
  }

  /** Crashes have only ever pushed the drift down, and the stock never went below zero. */
  ghost predicate CalmInv(w: World) {
    Inv(w) && DriftDown(w) && (forall i :: 0 <= i < |w.procs| ==> Gentle(w.procs[i]))
  }

  predicate Gentle(p: Proc) {
    !p.Reconciling? && (p.Adjusting? ==> p.delta >= 0)
  }

  lemma GentleCarries(w: World, p: Proc, c: CategoryId)
    requires DbInv(w.db) && ProcOk(w, p) && Gentle(p)
    ensures InFlight(c)(p) >= 0
  {
    CarriedNonNegative(w, p, c, 0, 0);
  }

  lemma CalmStock(w: World, i: nat, env: Env, c: CategoryId)
    requires i < |w.procs| && Gentle(w.procs[i]) && CounterOf(w.redis.stock, c) >= 0
    requires var q := w.procs[i];
      (q.Compensating? ==> q.r.qty >= 1) && (q.Crediting? && q.rows != [] ==> q.rows[0].qty >= 1)
    ensures CounterOf(Advance(w, i, env).redis.stock, c) >= 0
  {
    hide Total, Held, FindKey, CanHold, PayOrder, ReleaseOrder, RefundOrder, ReserveOrder;
    match w.procs[i]
    case Reserving(r) =>
      assert Advance(w, i, env).redis == ReserveLua(w.redis, r.event, r.user, r.category, r.qty, r.max).0;
    case Compensating(r, _) =>
      assert Advance(w, i, env).redis == ReleaseLua(w.redis, r.event, r.user, r.category, r.qty).0;
    case Crediting(_, _, _, _) => assert Advance(w, i, env) == StepCrediting(w, i);
    case Adjusting(_, _) => assert Advance(w, i, env) == StepAdjusting(w, i);
    case _ =>
  }

  ghost predicate DriftDown(w: World) {
    forall c :: 0 <= c < |w.drift| ==> w.drift[c] <= 0 && CounterOf(w.redis.stock, c) >= 0
  }

  lemma CalmMove(w: World, i: nat, env: Env)
    requires CalmInv(w) && i < |w.procs|
    ensures DriftDown(Advance(w, i, env)) && Gentle(Advance(w, i, env).procs[i])
  {
    hide Total, Advance;
    assert ProcOk(w, w.procs[i]) && Gentle(w.procs[i]);
    CarriedNonNegative(w, w.procs[i], 0, 0, 0);
    forall c | 0 <= c < |w.drift| ensures CounterOf(Advance(w, i, env).redis.stock, c) >= 0 {
      assert w.drift[c] <= 0;
      CalmStock(w, i, env, c);
    }
  }

  lemma CalmCrash(w: World, i: nat)
    requires CalmInv(w) && i < |w.procs|
    ensures DriftDown(Crash(w, i))
    ensures forall j :: 0 <= j < |Crash(w, i).procs| ==> Gentle(Crash(w, i).procs[j])
  {
    hide Total;
    assert ProcOk(w, w.procs[i]) && Gentle(w.procs[i]);
    forall c | 0 <= c < |w.drift| ensures InFlight(c)(w.procs[i]) >= 0 {
      GentleCarries(w, w.procs[i], c);
    }
  }

  lemma CalmStep(w: World, a: Action)
    requires CalmInv(w) && Calm(w, a)
    ensures DriftDown(Do(w, a))
    ensures forall j :: 0 <= j < |Do(w, a).procs| ==> Gentle(Do(w, a).procs[j])
  {
    hide Total, Advance, Crash, DbInv, ProcOk, StockBalanced, AccountBalanced, Welcome;
    match a
    case Move(i, env) => if i < |w.procs| { CalmMove(w, i, env); }
    case Fall(i) => if i < |w.procs| { CalmCrash(w, i); }
    case _ =>
  }

  lemma DoCalm(w: World, a: Action)
    requires CalmInv(w) && Calm(w, a)
    ensures CalmInv(Do(w, a))
  {
    DoKeeps(w, a);
    CalmStep(w, a);
  }

  /** In every run without heals and quota cuts, drift stays at or below zero and stock at or above it. */
  lemma {:induction false} DriftOnlyDown(w: World, actions: seq<Action>)
    requires Initial(w) && CalmRun(w, actions)
    ensures CalmInv(Run(w, actions))
  {
    if actions == [] {
      Conserved(w, []);
    } else {
      DriftOnlyDown(w, actions[..|actions| - 1]);
      DoCalm(Run(w, actions[..|actions| - 1]), actions[|actions| - 1]);
    }
  }

  /** What Redis still offers, and what is in flight, the database can hold. */
  lemma RoomForCarrier(w: World, i: nat)
    requires CalmInv(w) && i < |w.procs| && w.procs[i].Inserting?
    ensures CanHold(w.db.categories, w.procs[i].r.category, w.procs[i].r.event, w.procs[i].r.qty)
    ensures Held(w.db.orders, w.procs[i].r.user, w.procs[i].r.event) + w.procs[i].r.qty <= w.procs[i].r.max
  {
    hide Total;
    var p := w.procs[i];
    assert ProcOk(w, p);
    CarriedByRequest(p, p.r.category, p.r.event, p.r.user);
    assert StockBalanced(w, p.r.category);
    forall k | 0 <= k < |w.procs| ensures InFlight(p.r.category)(w.procs[k]) >= 0 {
      GentleCarries(w, w.procs[k], p.r.category);
    }
    TotalAtLeast(w.procs, InFlight(p.r.category), i);
    FloorUnused(w, i, p.r.event, p.r.user);
    assert AccountBalanced(w, p.r.event, p.r.user);
  }

  /**
    A checkout that reserve.lua accepted is never refused by PostgreSQL for stock or limit, at
    whatever later moment its statement runs; only a duplicate idempotency key can refuse it.
  */
  lemma AcceptedIsHonoured(w: World, actions: seq<Action>, i: nat, expiresAt: int)
    requires Initial(w) && CalmRun(w, actions)
    requires i < |Run(w, actions).procs| && Run(w, actions).procs[i].Inserting?
    ensures var now := Run(w, actions); var r := now.procs[i].r;
      ReserveOrder(now.db, r, expiresAt).1 ==
        if FindKey(now.db.orders, r.user, r.key).Some? then Violation else Ok(|now.db.orders|)
  {
    DriftOnlyDown(w, actions);
    var now := Run(w, actions);
    assert ProcOk(now, now.procs[i]);
    RoomForCarrier(now, i);
  }

  // ---------- Idle moments ----------

  ghost predicate Idle(w: World) {
    forall i :: 0 <= i < |w.procs| ==> Done(w.procs[i])
  }

  lemma {:induction false} IdleCarriesNothing(procs: seq<Proc>, c: CategoryId, e: EventId, u: UserId)
    requires forall i :: 0 <= i < |procs| ==> Done(procs[i])
    ensures Total(procs, InFlight(c)) == 0 && Total(procs, InFlightBy(e, u)) == 0
  {
    if procs != [] {
      assert Done(procs[|procs| - 1]);
      IdleCarriesNothing(procs[..|procs| - 1], c, e, u);
    }
  }

  /** With nothing in flight, a category's drift is exactly what reconciliation reads as the difference. */
  lemma IdleDifferenceIsDrift(w: World, c: CategoryId)
    requires Inv(w) && Idle(w) && c < |w.db.categories|
    ensures
      w.drift[c] == CounterOf(w.redis.stock, c) - Available(w.db.categories[c])
  {
    assert StockBalanced(w, c);
    IdleCarriesNothing(w.procs, c, 0, 0);
  }

  /** With nothing in flight and no drift, the two layers give the same verdict on every request. */
  lemma LayersAgree(w: World, r: Request, expiresAt: int)
    requires Inv(w) && Idle(w) && RequestOk(w, r) && Listed(w.db, r)
    requires w.drift[r.category] == 0 && CounterOf(w.lost, (r.event, r.user)) == 0
    ensures var lua := ReserveLua(w.redis, r.event, r.user, r.category, r.qty, r.max).1;
      var sql := ReserveOrder(w.db, r, expiresAt).1;
      && (lua.OverLimit? <==> sql.LimitExceeded?)
      && (lua.NoStock? <==> sql.OutOfStock?)
      && (lua.Granted? <==> sql.Ok? || sql.Violation?)
      && !lua.NotReady?
  {
    assert StockBalanced(w, r.category) && AccountBalanced(w, r.event, r.user);
    IdleCarriesNothing(w.procs, r.category, r.event, r.user);
  }

  /**
    What drift costs, exactly: with nothing in flight, a request that reserve.lua grants is
    refused by the database for stock iff it asks for more than is available but no more than
    a positive drift pretends; it is never refused for the limit. A request turned away for
    stock alone is one the database would have held iff a negative drift hides the units.
  */
  lemma DriftCost(w: World, r: Request, expiresAt: int)
    requires Inv(w) && Idle(w) && RequestOk(w, r) && Listed(w.db, r)
    ensures var lua := ReserveLua(w.redis, r.event, r.user, r.category, r.qty, r.max).1;
      var sql := ReserveOrder(w.db, r, expiresAt).1;
      var available := Available(w.db.categories[r.category]);
      && (lua.Granted? && sql.OutOfStock? <==>
           Bought(w.redis, r.event, r.user) + r.qty <= r.max && available < r.qty <= available + w.drift[r.category])
      && !(lua.Granted? && sql.LimitExceeded?)
      && (lua.NoStock? && (sql.Ok? || sql.Violation?) <==>
           Bought(w.redis, r.event, r.user) + r.qty <= r.max && available + w.drift[r.category] < r.qty <= available)
  {
    hide Total, FindKey;
    assert StockBalanced(w, r.category) && AccountBalanced(w, r.event, r.user);
    IdleCarriesNothing(w.procs, r.category, r.event, r.user);
  }

  // ---------- Runs without crashes ----------

  ghost predicate Undrifted(w: World) {
    (forall c :: 0 <= c < |w.drift| ==> w.drift[c] == 0) && w.lost == map[] &&
    (forall i :: 0 <= i < |w.procs| ==> !w.procs[i].Reconciling?)
  }

  lemma UndriftedStep(w: World, a: Action)
    requires Undrifted(w) && !a.Fall? && !a.Compare?
    ensures Undrifted(Do(w, a))
  {
    hide Total;
  }

  /** Without crashes and heals, whenever all work is done the two layers show exactly the same numbers. */
  lemma {:induction false} ExactWhenIdle(w: World, actions: seq<Action>)
    requires Initial(w)
    requires forall i :: 0 <= i < |actions| ==> !actions[i].Fall? && !actions[i].Compare?
    ensures Undrifted(Run(w, actions))
    ensures Idle(Run(w, actions)) ==>
      var now := Run(w, actions);
      && (forall c :: 0 <= c < |now.db.categories| ==>
           CounterOf(now.redis.stock, c) == Available(now.db.categories[c]))
      && (forall e, u :: Bought(now.redis, e, u) == Held(now.db.orders, u, e))
  {
    Conserved(w, actions);
    if actions != [] {
      ExactWhenIdle(w, actions[..|actions| - 1]);
      UndriftedStep(Run(w, actions[..|actions| - 1]), actions[|actions| - 1]);
    }
    var now := Run(w, actions);
    if Idle(now) {
      forall c | 0 <= c < |now.db.categories|
        ensures CounterOf(now.redis.stock, c) == Available(now.db.categories[c])
      {
        IdleDifferenceIsDrift(now, c);
      }
      forall e, u ensures Bought(now.redis, e, u) == Held(now.db.orders, u, e) {
        assert AccountBalanced(now, e, u);
        IdleCarriesNothing(now.procs, 0, e, u);
      }
    }
  }
}
