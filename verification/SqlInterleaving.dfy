/**
  Inside antretix_reserve_order: the function split into its own steps (advisory lock, sum,
  conditional update, insert and commit) and run by any number of READ COMMITTED transactions
  at once, beside payments, releases, refunds and admin edits. Redis is absent, so whatever
  its counters say cannot matter. The committed database always is what some sequence of
  whole, atomic statements would have produced.
*/
module SqlInterleaving {
  import opened Measures
  import opened Database

  /** A transaction, by the step it performs next; `held` is the sum it has read. */
  datatype Stage = AtLock | AtSum | AtUpdate(held: int) | AtCommit | Ended(verdict: Verdict) | RolledBack

  datatype Tx = Tx(r: Request, expiresAt: int, stage: Stage)

  datatype System = System(db: Db, txs: seq<Tx>)

  datatype FineAction =
    | Begin(r: Request, expiresAt: int)
    | Step(i: nat)
    | Abort(i: nat)
    | Whole(op: DbOp)  // a payment, a release, a refund or an edit, at its commit

  /** Does the transaction hold the advisory lock of its (account, event)? Locks last until the end. */
  predicate HoldsAccount(t: Tx) {
    t.stage.AtSum? || t.stage.AtUpdate? || t.stage.AtCommit?
  }

  /** Does the transaction hold the row lock of its category? */
  predicate HoldsRow(t: Tx) {
    t.stage.AtCommit?
  }

  /** `hash` stands for hashtext(user || ':' || event); distinct accounts may collide. */
  predicate AccountFree(s: System, hash: (UserId, EventId) -> int, i: nat)
    requires i < |s.txs|
  {
    forall j :: 0 <= j < |s.txs| && j != i && HoldsAccount(s.txs[j]) ==>
      hash(s.txs[j].r.user, s.txs[j].r.event) != hash(s.txs[i].r.user, s.txs[i].r.event)
  }

  predicate RowFree(s: System, c: CategoryId) {
    forall j :: 0 <= j < |s.txs| && HoldsRow(s.txs[j]) ==> s.txs[j].r.category != c
  }

  function AtStage(s: System, i: nat, stage: Stage): System
    requires i < |s.txs|
  {
    s.(txs := s.txs[i := s.txs[i].(stage := stage)])
  }

  /** The next step of transaction i; a step whose lock is taken waits. */
  function StepTx(s: System, hash: (UserId, EventId) -> int, i: nat): System
    requires i < |s.txs|
  {
    var t := s.txs[i];
    match t.stage
    case AtLock => if AccountFree(s, hash, i) then AtStage(s, i, AtSum) else s
    case AtSum =>
      var held := Held(s.db.orders, t.r.user, t.r.event);
      if held + t.r.qty > t.r.max then AtStage(s, i, Ended(LimitExceeded)) else AtStage(s, i, AtUpdate(held))
    case AtUpdate(_) =>
      if !RowFree(s, t.r.category) then s
      else if CanHold(s.db.categories, t.r.category, t.r.event, t.r.qty) then AtStage(s, i, AtCommit)
      else AtStage(s, i, Ended(OutOfStock))
    case AtCommit =>
      if FindKey(s.db.orders, t.r.user, t.r.key).Some? || t.r.qty <= 0 || t.r.category >= |s.db.categories|
      then AtStage(s, i, Ended(Violation))
      else
        var row := s.db.categories[t.r.category];
        AtStage(s, i, Ended(Ok(|s.db.orders|))).(
          db := Db(s.db.categories[t.r.category := row.(reserved := row.reserved + t.r.qty)],
                   s.db.orders + [NewOrder(t.r, row.price, t.expiresAt)]))
    case _ => s
  }

  /** A statement that writes a category row waits for the row's lock. */
  predicate MayCommit(s: System, op: DbOp) {
    match op
    case OpReserve(_, _) => false
    case OpPay(id, _) =>
      id < |s.db.orders| ==>
        forall k :: 0 <= k < |s.db.orders[id].items| ==> RowFree(s, s.db.orders[id].items[k].category)
    case OpRelease(id, _, _) =>
      id < |s.db.orders| ==>
        forall k :: 0 <= k < |s.db.orders[id].items| ==> RowFree(s, s.db.orders[id].items[k].category)
    case OpRefund(_, _) => true
    case OpEdit(c, _, _) => RowFree(s, c)
    case OpAdd(_, _, _) => true
  }

  function DoFine(s: System, hash: (UserId, EventId) -> int, a: FineAction): System {
    match a
    case Begin(r, expiresAt) => s.(txs := s.txs + [Tx(r, expiresAt, AtLock)])
    case Step(i) => if i < |s.txs| then StepTx(s, hash, i) else s
    case Abort(i) => if i < |s.txs| && !s.txs[i].stage.Ended? then AtStage(s, i, RolledBack) else s
    case Whole(op) => if MayCommit(s, op) then s.(db := Apply(s.db, op)) else s
  }

  function RunFine(s: System, hash: (UserId, EventId) -> int, actions: seq<FineAction>): System {
    if actions == [] then s else DoFine(RunFine(s, hash, actions[..|actions| - 1]), hash, actions[|actions| - 1])
  }

  // ---------- The invariant ----------

  /** What a running transaction may still rely on. */
  ghost predicate TxOk(db: Db, t: Tx) {
    match t.stage
    case AtUpdate(held) => Held(db.orders, t.r.user, t.r.event) <= held && held + t.r.qty <= t.r.max
    case AtCommit =>
      Held(db.orders, t.r.user, t.r.event) + t.r.qty <= t.r.max &&
        CanHold(db.categories, t.r.category, t.r.event, t.r.qty)
    case _ => true
  }

  ghost predicate FineInv(s: System, hash: (UserId, EventId) -> int) {
    DbInv(s.db) &&
    (forall i :: 0 <= i < |s.txs| ==> TxOk(s.db, s.txs[i])) &&
    (forall i, j :: 0 <= i < j < |s.txs| && HoldsAccount(s.txs[i]) && HoldsAccount(s.txs[j]) ==>
      hash(s.txs[i].r.user, s.txs[i].r.event) != hash(s.txs[j].r.user, s.txs[j].r.event)) &&
    (forall i, j :: 0 <= i < j < |s.txs| && HoldsRow(s.txs[i]) && HoldsRow(s.txs[j]) ==>
      s.txs[i].r.category != s.txs[j].r.category)
  }

  /** The whole statement that an action amounts to, if it changes the committed database. */
  function Linearized(s: System, hash: (UserId, EventId) -> int, a: FineAction): seq<DbOp> {
    match a
    case Step(i) =>
      if i < |s.txs| && s.txs[i].stage.AtCommit? && StepTx(s, hash, i).txs[i].stage.Ended?
      then [OpReserve(s.txs[i].r, s.txs[i].expiresAt)] else []
    case Whole(op) => if MayCommit(s, op) then [op] else []
    case _ => []
  }

  /**
    The linearization point: in the step in which a transaction ends, the whole function run
    at once at that moment gives the same verdict and the same database.
  */
  lemma EndsAtomically(s: System, hash: (UserId, EventId) -> int, i: nat)
    requires FineInv(s, hash) && i < |s.txs| && !s.txs[i].stage.Ended?
    requires StepTx(s, hash, i).txs[i].stage.Ended?
    ensures ReserveOrder(s.db, s.txs[i].r, s.txs[i].expiresAt)
         == (StepTx(s, hash, i).db, StepTx(s, hash, i).txs[i].stage.verdict)
  {
    hide Total;
    assert TxOk(s.db, s.txs[i]);
  }

  lemma FineStepRefines(s: System, hash: (UserId, EventId) -> int, a: FineAction)
    requires FineInv(s, hash)
    ensures Linearized(s, hash, a) == [] ==> DoFine(s, hash, a).db == s.db
    ensures Linearized(s, hash, a) != [] ==>
      Linearized(s, hash, a) == [Linearized(s, hash, a)[0]] &&
        DoFine(s, hash, a).db == Apply(s.db, Linearized(s, hash, a)[0])
  {
    hide Total;
    if a.Step? && a.i < |s.txs| && StepTx(s, hash, a.i).txs[a.i].stage.Ended? && !s.txs[a.i].stage.Ended? {
      EndsAtomically(s, hash, a.i);
    }
  }

  // ---------- Every step keeps it ----------

  /** A commit by another transaction cannot take away what a transaction relies on. */
  lemma TxSurvivesCommit(s: System, hash: (UserId, EventId) -> int, i: nat, j: nat)
    requires FineInv(s, hash) && i < |s.txs| && j < |s.txs| && j != i && s.txs[i].stage.AtCommit?
    ensures TxOk(StepTx(s, hash, i).db, s.txs[j])
  {
    hide Total;
    assert TxOk(s.db, s.txs[i]) && TxOk(s.db, s.txs[j]);
    if StepTx(s, hash, i).db != s.db && HoldsAccount(s.txs[j]) {
      EndsAtomically(s, hash, i);
      HeldAfter(s.db, OpReserve(s.txs[i].r, s.txs[i].expiresAt), s.txs[j].r.user, s.txs[j].r.event);
    }
  }

  lemma TxSurvivesWhole(s: System, op: DbOp, t: Tx)
    requires DbInv(s.db) && MayCommit(s, op) && TxOk(s.db, t)
    requires HoldsRow(t) ==> exists j :: 0 <= j < |s.txs| && s.txs[j] == t
    ensures TxOk(Apply(s.db, op), t)
  {
    hide Total;
    HeldAfter(s.db, op, t.r.user, t.r.event);
    if HoldsRow(t) {
      WholeLeavesRow(s, op, t.r.category);
    }
  }

  /** A whole statement that may commit writes no locked row. */
  lemma WholeLeavesRow(s: System, op: DbOp, c: CategoryId)
    requires DbInv(s.db) && MayCommit(s, op) && !RowFree(s, c) && c < |s.db.categories|
    ensures c < |Apply(s.db, op).categories| && Apply(s.db, op).categories[c] == s.db.categories[c]
  {
    hide Total;
    if (op.OpPay? || op.OpRelease?) && op.id < |s.db.orders| {
      var o := s.db.orders[op.id];
      assert WellFormed(s.db.categories, o);
      OneItem(o.items, c);
      assert RowFree(s, o.items[0].category);
    }
  }

  lemma StepKeepsFine(s: System, hash: (UserId, EventId) -> int, i: nat)
    requires FineInv(s, hash) && i < |s.txs|
    ensures FineInv(StepTx(s, hash, i), hash)
  {
    hide Total;
    var after := StepTx(s, hash, i);
    assert TxOk(s.db, s.txs[i]);
    if s.txs[i].stage.AtCommit? {
      EndsAtomically(s, hash, i);
      ApplyKeeps(s.db, OpReserve(s.txs[i].r, s.txs[i].expiresAt));
      forall j | 0 <= j < |after.txs| ensures TxOk(after.db, after.txs[j]) {
        if j != i { TxSurvivesCommit(s, hash, i, j); }
      }
    }
  }

  lemma DoKeepsFine(s: System, hash: (UserId, EventId) -> int, a: FineAction)
    requires FineInv(s, hash)
    ensures FineInv(DoFine(s, hash, a), hash)
  {
    hide Total, StepTx;
    match a
    case Step(i) => if i < |s.txs| { StepKeepsFine(s, hash, i); }
    case Whole(op) =>
      if MayCommit(s, op) {
        ApplyKeeps(s.db, op);
        forall j | 0 <= j < |s.txs| ensures TxOk(Apply(s.db, op), s.txs[j]) {
          TxSurvivesWhole(s, op, s.txs[j]);
        }
      }
    case _ =>
  }

  lemma {:induction false} AlwaysFine(s: System, hash: (UserId, EventId) -> int, actions: seq<FineAction>)
    requires EmptyDb(s.db) && s.txs == []
    ensures FineInv(RunFine(s, hash, actions), hash)
  {
    if actions == [] {
      EmptyDbInv(s.db);
    } else {
      AlwaysFine(s, hash, actions[..|actions| - 1]);
      DoKeepsFine(RunFine(s, hash, actions[..|actions| - 1]), hash, actions[|actions| - 1]);
    }
  }

  /** The whole statements, in commit order, that a fine-grained run amounts to. */
  function Linearization(s: System, hash: (UserId, EventId) -> int, actions: seq<FineAction>): seq<DbOp> {
    if actions == [] then []
    else
      Linearization(s, hash, actions[..|actions| - 1])
      + Linearized(RunFine(s, hash, actions[..|actions| - 1]), hash, actions[|actions| - 1])
  }

  /**
    Serializability: every interleaving leaves the database that its whole statements, run one
    after another, leave.
  */
  lemma {:induction false} FineRefinesAtomic(s: System, hash: (UserId, EventId) -> int, actions: seq<FineAction>)
    requires EmptyDb(s.db) && s.txs == []
    ensures RunFine(s, hash, actions).db == ApplyAll(s.db, Linearization(s, hash, actions))
  {
    if actions != [] {
      var init, last := actions[..|actions| - 1], actions[|actions| - 1];
      FineRefinesAtomic(s, hash, init);
      AlwaysFine(s, hash, init);
      FineStepRefines(RunFine(s, hash, init), hash, last);
      var ops, next := Linearization(s, hash, init), Linearized(RunFine(s, hash, init), hash, last);
      if next == [] {
        assert ops + next == ops;
      } else {
        assert (ops + next)[..|ops + next| - 1] == ops;
      }
    }
  }

  predicate RequestsUseLimit(actions: seq<FineAction>, limit: EventId -> int) {
    forall i :: 0 <= i < |actions| && actions[i].Begin? ==> actions[i].r.max == limit(actions[i].r.event)
  }

  lemma {:induction false} TxsUseLimit(s: System, hash: (UserId, EventId) -> int, actions: seq<FineAction>,
    limit: EventId -> int)
    requires s.txs == [] && RequestsUseLimit(actions, limit)
    ensures forall i :: 0 <= i < |RunFine(s, hash, actions).txs| ==>
      RunFine(s, hash, actions).txs[i].r.max == limit(RunFine(s, hash, actions).txs[i].r.event)
    ensures forall i :: 0 <= i < |Linearization(s, hash, actions)| ==>
      UsesLimit(Linearization(s, hash, actions)[i], limit)
  {
    hide Total;
    if actions != [] {
      TxsUseLimit(s, hash, actions[..|actions| - 1], limit);
    }
  }

  /**
    The limit per account, and no oversell, under any interleaving inside the function: the
    PENDING and PAID units of one account in one event never exceed the event's limit, and no
    category ever holds more than its quota.
  */
  lemma LimitUnderInterleaving(s: System, hash: (UserId, EventId) -> int, actions: seq<FineAction>,
    limit: EventId -> int,
                               u: UserId, e: EventId, c: CategoryId)
    requires EmptyDb(s.db) && s.txs == [] && RequestsUseLimit(actions, limit)
    requires forall e :: limit(e) >= 0
    ensures var db := RunFine(s, hash, actions).db;
      && Held(db.orders, u, e) <= limit(e)
      && (c < |db.categories| ==> db.categories[c].sold + db.categories[c].reserved <= db.categories[c].quota)
  {
    FineRefinesAtomic(s, hash, actions);
    TxsUseLimit(s, hash, actions, limit);
    NeverOverLimit(s.db, Linearization(s, hash, actions), limit);
    NeverOversold(s.db, Linearization(s, hash, actions));
    var db := RunFine(s, hash, actions).db;
    assert c < |db.categories| ==> Balanced(db, c);
  }
}
