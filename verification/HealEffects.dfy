/**
  What a heal does to the books. reconcileStock reads the database first and each stock key
  later, decides on the tracker, and adds its difference later still; anything may run between.
*/
module HealEffects {
  import opened Measures
  import opened Database
  import opened Reconcile
  import opened Inventory
  import opened Conservation
  import opened LayerOne
  import opened SingleCaller

  // ---------- One reconciliation over a run ----------

  /** A reconciliation of c that read `available` in the database, however far it has come. */
  predicate Offered(p: Proc, c: CategoryId, available: int) {
    Done(p) || (p.Reconciling? && p.category == c && (p.stage.Comparing? ==> p.stage.available == available))
  }

  /** A reconciliation of c past its reads, which saw the difference `diff`. */
  predicate Saw(p: Proc, c: CategoryId, diff: int) {
    Done(p) || (p.Reconciling? && p.category == c && !p.stage.Comparing? &&
                (p.stage.Judging? ==> p.stage.diff == diff) && (p.stage.Healing? ==> p.stage.diff == diff))
  }

  lemma StageFollows(w: World, a: Action, i: nat, c: CategoryId, n: int)
    requires i < |w.procs|
    ensures i < |Do(w, a).procs|
    ensures Offered(w.procs[i], c, n) ==> Offered(Do(w, a).procs[i], c, n)
    ensures Saw(w.procs[i], c, n) ==> Saw(Do(w, a).procs[i], c, n)
  {
    hide Total, Advance, StepReconciling;
    if a.Move? && a.i == i && w.procs[i].Reconciling? {
      ReconcilingStep(w, i, a.env);
      StageMoves(w, i, a.env, c, n);
    }
  }

  lemma StageMoves(w: World, i: nat, env: Env, c: CategoryId, n: int)
    requires i < |w.procs| && w.procs[i].Reconciling?
    ensures Offered(w.procs[i], c, n) ==> Offered(StepReconciling(w, i, env).procs[i], c, n)
    ensures Saw(w.procs[i], c, n) ==> Saw(StepReconciling(w, i, env).procs[i], c, n)
  {
  }

  lemma {:induction false} StageFollowsOver(w: World, actions: seq<Action>, i: nat, c: CategoryId, n: int)
    requires i < |w.procs|
    ensures i < |Run(w, actions).procs|
    ensures Offered(w.procs[i], c, n) ==> Offered(Run(w, actions).procs[i], c, n)
    ensures Saw(w.procs[i], c, n) ==> Saw(Run(w, actions).procs[i], c, n)
  {
    if actions != [] {
      StageFollowsOver(w, actions[..|actions| - 1], i, c, n);
      StageFollows(Run(w, actions[..|actions| - 1]), actions[|actions| - 1], i, c, n);
    }
  }

  lemma {:induction false} InvOver(w: World, actions: seq<Action>)
    requires Inv(w)
    ensures Inv(Run(w, actions)) && |Run(w, actions).drift| >= |w.drift|
  {
    if actions != [] {
      InvOver(w, actions[..|actions| - 1]);
      DoKeeps(Run(w, actions[..|actions| - 1]), actions[|actions| - 1]);
      DriftGrows(Run(w, actions[..|actions| - 1]), actions[|actions| - 1]);
    }
  }

  lemma DriftGrows(w: World, a: Action)
    ensures |Do(w, a).drift| >= |w.drift|
  {
    hide Total;
  }

  predicate At(w: World, i: nat, c: CategoryId) {
    i < |w.procs| && w.procs[i].Reconciling? && w.procs[i].category == c
  }

  /**
    What a heal leaves, in every run: the units in flight when the stock was read, plus what the
    database's offer lost between the two reads, plus whatever else moved the drift meanwhile.
    The database is read in w1, the stock key in w2, and the heal is the step after w3.
  */
  lemma HealLeaves(w1: World, mid: seq<Action>, w2: World, env: Env, more: seq<Action>, w3: World,
                   env': Env, c: CategoryId)
    requires Inv(w1) && c < |w1.db.categories|
    requires w2 == Run(Do(w1, Compare(c)), mid) && At(w2, |w1.procs|, c) && w2.procs[|w1.procs|].stage.Comparing?
    requires w3 == Run(Do(w2, Move(|w1.procs|, env)), more) && At(w3, |w1.procs|, c) &&
      w3.procs[|w1.procs|].stage.Healing?
    ensures c < |w2.db.categories| && c < |w2.drift| && c < |w3.drift|
    ensures var after := Do(w3, Move(|w1.procs|, env'));
      c < |after.drift| &&
      after.drift[c] == Total(w2.procs, InFlight(c)) + Available(w1.db.categories[c]) - Available(w2.db.categories[c])
                        + w3.drift[c] - w2.drift[c]
  {
    hide Total, Run, Do, Balanced, AccountBalanced, DbInv;
    var i := |w1.procs|;
    var begun := Do(w1, Compare(c));
    Begins(w1, c);
    DoKeeps(w1, Compare(c));
    InvOver(begun, mid);
    StageFollowsOver(begun, mid, i, c, Available(w1.db.categories[c]));
    assert StockBalanced(w2, c) by { assert Shape(w2); }
    ReconcilingStep(w2, i, env);
    var read := StepReconciling(w2, i, env);
    DoKeeps(w2, Move(i, env));
    StageFollowsOver(read, more, i, c, w2.redis.stock[c] - Available(w1.db.categories[c]));
    InvOver(read, more);
    ReconcilingStep(w3, i, env');
  }

  lemma Begins(w: World, c: CategoryId)
    requires c < |w.db.categories|
    ensures Do(w, Compare(c)) == Spawn(w, Reconciling(c, Comparing(Available(w.db.categories[c]))))
  {
  }

  /** Steps that leave the drift of category c alone: no crash, and no other heal of c. */
  ghost predicate Leaves(w: World, a: Action, c: CategoryId) {
    !a.Fall? &&
    (a.Move? && a.i < |w.procs| && w.procs[a.i].Reconciling? && w.procs[a.i].stage.Healing? ==>
      w.procs[a.i].category != c)
  }

  ghost predicate LeavesAll(w: World, actions: seq<Action>, c: CategoryId) {
    actions == [] ||
    (LeavesAll(w, actions[..|actions| - 1], c) && Leaves(Run(w, actions[..|actions| - 1]), actions[|actions| - 1], c))
  }

  lemma DriftStays(w: World, a: Action, c: CategoryId)
    requires c < |w.drift| && Leaves(w, a, c)
    ensures |Do(w, a).drift| >= |w.drift| && Do(w, a).drift[c] == w.drift[c]
  {
    hide Total;
  }

  lemma {:induction false} DriftStaysOver(w: World, actions: seq<Action>, c: CategoryId)
    requires c < |w.drift| && LeavesAll(w, actions, c)
    ensures c < |Run(w, actions).drift| && Run(w, actions).drift[c] == w.drift[c]
  {
    if actions != [] {
      DriftStaysOver(w, actions[..|actions| - 1], c);
      DriftStays(Run(w, actions[..|actions| - 1]), actions[|actions| - 1], c);
    }
  }

  /**
    A heal is exact if and only if the units in flight when the stock was read are just those
    by which the database's offer had grown since it was read; checkouts, releases, payments
    and edits may run at any time, and between the second read and the heal they do not matter.
  */
  lemma HealIsExact(w1: World, mid: seq<Action>, w2: World, env: Env, more: seq<Action>, w3: World,
                   env': Env, c: CategoryId)
    requires Inv(w1) && c < |w1.db.categories|
    requires w2 == Run(Do(w1, Compare(c)), mid) && At(w2, |w1.procs|, c) && w2.procs[|w1.procs|].stage.Comparing?
    requires w3 == Run(Do(w2, Move(|w1.procs|, env)), more) && At(w3, |w1.procs|, c) &&
      w3.procs[|w1.procs|].stage.Healing?
    requires LeavesAll(Do(w2, Move(|w1.procs|, env)), more, c)
    ensures c < |w2.db.categories| && c < |Do(w3, Move(|w1.procs|, env')).drift|
    ensures Do(w3, Move(|w1.procs|, env')).drift[c] == 0 <==>
      Total(w2.procs, InFlight(c)) == Available(w2.db.categories[c]) - Available(w1.db.categories[c])
  {
    hide Total, Run, Inv, Do;
    HealLeaves(w1, mid, w2, env, more, w3, env', c);
    ReconcilingStep(w2, |w1.procs|, env);
    DriftStaysOver(StepReconciling(w2, |w1.procs|, env), more, c);
  }

  // ---------- A run in which the healing rule goes wrong ----------

  const NOW := Env(0, false, 0, [])

  function Ask(u: UserId, max: int): Request {
    Request(u, 0, 0, 1, 0, max)
  }

  /** A whole checkout by user u as process n + 1, between the two reads of reconciliation n. */
  function RacingRound(n: nat, u: UserId, max: int): seq<Action> {
    [Compare(0), Arrive(Ask(u, max), true), Move(n + 1, NOW), Move(n + 1, NOW), Move(n + 1, NOW)]
    + [Move(n, NOW), Move(n, NOW), Move(n, NOW), Move(n, NOW)]
  }

  function RacingRounds(k: nat, max: int): seq<Action> {
    if k == 0 then [Add(0, 1, HEAL_AFTER_RUNS)] else RacingRounds(k - 1, max) + RacingRound(2 * (k - 1), k - 1, max)
  }

  /** After k rounds: k tickets held by users 0 to k - 1, nothing in flight, and one more sighting of the difference. */
  ghost predicate AfterRounds(w: World, k: nat) {
    && w.limit(0) >= 1 && |w.procs| == 2 * k && Idle(w)
    && w.db.categories == [Category(0, 1, HEAL_AFTER_RUNS, 0, k)]
    && (forall j :: 0 <= j < |w.db.orders| ==> w.db.orders[j].user < k)
    && (forall key :: key in w.redis.bought ==> key.1 < k)
    && (if k < HEAL_AFTER_RUNS
        then w.redis.stock == map[0 := HEAL_AFTER_RUNS - k] && w.drift == [0] &&
             w.trackers == (if k == 0 then map[] else map[0 := Tracker(-1, k, TRACKER_TTL)])
        else w.redis.stock == map[0 := 1] && w.drift == [1])
  }

  lemma {:induction false} RunConcat(w: World, s: seq<Action>, t: seq<Action>)
    ensures Run(w, s + t) == Run(Run(w, s), t)
  {
    if t == [] {
      assert s + t == s;
    } else {
      RunConcat(w, s, t[..|t| - 1]);
      assert (s + t)[..|s + t| - 1] == s + t[..|t| - 1];
    }
  }

  lemma RunOne(w: World, a: Action)
    ensures Run(w, [a]) == Do(w, a)
  {
    assert [a][..0] == [];
  }

  lemma RunFour(w: World, a: Action, b: Action, c: Action, d: Action)
    ensures Run(w, [a, b, c, d]) == Do(Do(Do(Do(w, a), b), c), d)
  {
    hide Do;
    RunOne(w, a);
    assert [a, b][..1] == [a] && Run(w, [a, b]) == Do(Run(w, [a]), b);
    assert [a, b, c][..2] == [a, b] && Run(w, [a, b, c]) == Do(Run(w, [a, b]), c);
    assert [a, b, c, d][..3] == [a, b, c];
  }

  lemma {:induction false} NoneHeld(orders: seq<Order>, u: UserId, e: EventId)
    requires forall j :: 0 <= j < |orders| ==> orders[j].user != u
    ensures Held(orders, u, e) == 0
  {
    if orders != [] {
      NoneHeld(orders[..|orders| - 1], u, e);
    }
  }

  /** The checkout alone: three steps from its arrival to its order. */
  lemma CheckoutPasses(w: World, n: nat, k: nat)
    requires |w.procs| == n + 2 && w.procs[n + 1] == Arrived(Ask(k, w.limit(0)), true) && w.limit(0) >= 1
    requires 0 in w.redis.stock && w.redis.stock[0] >= 1 && (forall key :: key in w.redis.bought ==> key.1 < k)
    requires w.db.categories == [Category(0, 1, HEAL_AFTER_RUNS, 0, k)] && k < HEAL_AFTER_RUNS
    requires forall j :: 0 <= j < |w.db.orders| ==> w.db.orders[j].user < k
    ensures var after := Do(Do(Do(w, Move(n + 1, NOW)), Move(n + 1, NOW)), Move(n + 1, NOW));
      && after.limit == w.limit && |after.procs| == n + 2 && after.procs[..n + 1] == w.procs[..n + 1] &&
        Done(after.procs[n + 1])
      && after.db.categories == [Category(0, 1, HEAL_AFTER_RUNS, 0, k + 1)]
      && (forall j :: 0 <= j < |after.db.orders| ==> after.db.orders[j].user <= k)
      && (forall key :: key in after.redis.bought ==> key.1 <= k)
      && after.redis.stock == w.redis.stock[0 := w.redis.stock[0] - 1]
      && after.drift == w.drift && after.trackers == w.trackers
  {
    hide Total, Held;
    var m := Move(n + 1, NOW);
    NoneHeld(w.db.orders, k, 0);
    assert FindKey(w.db.orders, k, 0).None?;
    assert Do(w, m) == StepArrived(w, n + 1);
    var w2 := Do(w, m);
    assert Do(w2, m) == StepReserving(w2, n + 1);
    var w3 := Do(w2, m);
    assert Do(w3, m) == StepInserting(w3, n + 1, NOW);
  }

  lemma DoneStep(w: World, i: nat, env: Env)
    requires i < |w.procs| && Done(w.procs[i])
    ensures Do(w, Move(i, env)) == w
  {
  }

  predicate RoundOpen(w: World, n: nat, k: nat) {
    && n < |w.procs| && k < HEAL_AFTER_RUNS
    && w.procs[n] == Reconciling(0, Comparing(HEAL_AFTER_RUNS - k))
    && w.redis.stock == map[0 := HEAL_AFTER_RUNS - k - 1] && w.drift == [0]
    && w.trackers == if k == 0 then map[] else map[0 := Tracker(-1, k, TRACKER_TTL)]
  }

  /** It sees one less in stock than the database offered, and the tracker tells how often that has been seen. */
  lemma SightingReads(w: World, n: nat, k: nat)
    requires RoundOpen(w, n, k)
    ensures Do(Do(w, Move(n, NOW)), Move(n, NOW)) ==
      Goto(w, n, Reconciling(0, if k + 1 == HEAL_AFTER_RUNS then Healing(-1)
                                else Noting(Tracker(-1, k + 1, TRACKER_TTL))))
  {
    hide Do;
    ReconcilingStep(w, n, NOW);
    ReconcilingStep(Goto(w, n, Reconciling(0, Judging(-1))), n, NOW);
  }

  /** The reconciliation that read the offer before the checkout and the stock after it. */
  lemma SightingCounts(w: World, n: nat, k: nat)
    requires RoundOpen(w, n, k)
    ensures var m := Move(n, NOW); var after := Do(Do(Do(Do(w, m), m), m), m);
      && after.limit == w.limit && after.db == w.db && after.redis.bought == w.redis.bought
      && |after.procs| == |w.procs| && after.procs == w.procs[n := Finished]
      && (if k + 1 < HEAL_AFTER_RUNS
          then after.redis.stock == w.redis.stock && after.drift == [0] &&
               after.trackers == map[0 := Tracker(-1, k + 1, TRACKER_TTL)]
          else after.redis.stock == map[0 := 1] && after.drift == [1])
  {
    hide Do;
    var m := Move(n, NOW);
    SightingReads(w, n, k);
    var w2 := Do(Do(w, m), m);
    ReconcilingStep(w2, n, NOW);
    var w3 := Do(w2, m);
    if k + 1 == HEAL_AFTER_RUNS { ReconcilingStep(w3, n, NOW); } else { DoneStep(w3, n, NOW); }
  }

  /** The database is read, then the checkout arrives. */
  lemma RoundBegins(w: World, k: nat)
    requires AfterRounds(w, k) && k < HEAL_AFTER_RUNS
    ensures var after := Do(Do(w, Compare(0)), Arrive(Ask(k, w.limit(0)), true));
      after == w.(procs := w.procs
        + [Reconciling(0, Comparing(HEAL_AFTER_RUNS - k)), Arrived(Ask(k, w.limit(0)), true)])
  {
    hide Total, Idle;
    assert w.procs + [Reconciling(0, Comparing(HEAL_AFTER_RUNS - k))] + [Arrived(Ask(k, w.limit(0)), true)]
        == w.procs + [Reconciling(0, Comparing(HEAL_AFTER_RUNS - k)), Arrived(Ask(k, w.limit(0)), true)];
  }

  lemma RoundRun(w: World, n: nat, u: UserId, max: int)
    ensures var begun := Do(Do(w, Compare(0)), Arrive(Ask(u, max), true));
      var m, m' := Move(n, NOW), Move(n + 1, NOW);
      Run(w, RacingRound(n, u, max)) == Do(Do(Do(Do(Do(Do(Do(begun, m'), m'), m'), m), m), m), m)
  {
    hide Do, Run;
    var m, m', a := Move(n, NOW), Move(n + 1, NOW), Arrive(Ask(u, max), true);
    RunOne(w, Compare(0));
    RunFour(Do(w, Compare(0)), a, m', m', m');
    RunConcat(w, [Compare(0)], [a, m', m', m']);
    assert [Compare(0)] + [a, m', m', m'] == [Compare(0), a, m', m', m'];
    RunFour(Run(w, [Compare(0), a, m', m', m']), m, m, m, m);
    RunConcat(w, [Compare(0), a, m', m', m'], [m, m, m, m]);
  }

  /** The middle of a round: the ticket is sold, and only the reconciliation is still open. */
  ghost predicate RoundSold(w: World, n: nat, k: nat) {
    && RoundOpen(w, n, k) && w.limit(0) >= 1 && |w.procs| == n + 2
    && (forall j :: 0 <= j < |w.procs| && j != n ==> Done(w.procs[j]))
    && w.db.categories == [Category(0, 1, HEAL_AFTER_RUNS, 0, k + 1)]
    && (forall j :: 0 <= j < |w.db.orders| ==> w.db.orders[j].user <= k)
    && (forall key :: key in w.redis.bought ==> key.1 <= k)
  }

  lemma SoldAfter(begun: World, sold: World, n: nat, k: nat)
    requires k < HEAL_AFTER_RUNS && |begun.procs| == n + 2 && |sold.procs| == n + 2
    requires begun.procs[n] == Reconciling(0, Comparing(HEAL_AFTER_RUNS - k))
    requires forall j :: 0 <= j < n ==> Done(begun.procs[j])
    requires sold.procs[..n + 1] == begun.procs[..n + 1] && Done(sold.procs[n + 1]) && sold.limit(0) >= 1
    requires begun.redis.stock == map[0 := HEAL_AFTER_RUNS - k] &&
      sold.redis.stock == begun.redis.stock[0 := HEAL_AFTER_RUNS - k - 1]
    requires sold.drift == [0] && sold.trackers == if k == 0 then map[] else map[0 := Tracker(-1, k, TRACKER_TTL)]
    requires sold.db.categories == [Category(0, 1, HEAL_AFTER_RUNS, 0, k + 1)]
    requires forall j :: 0 <= j < |sold.db.orders| ==> sold.db.orders[j].user <= k
    requires forall key :: key in sold.redis.bought ==> key.1 <= k
    ensures RoundSold(sold, n, k)
  {
    forall j | 0 <= j <= n ensures sold.procs[j] == begun.procs[j] {
      assert sold.procs[j] == sold.procs[..n + 1][j];
    }
  }

  lemma RoundSells(w: World, k: nat)
    requires AfterRounds(w, k) && k < HEAL_AFTER_RUNS
    ensures var m' := Move(2 * k + 1, NOW);
      RoundSold(Do(Do(Do(Do(Do(w, Compare(0)), Arrive(Ask(k, w.limit(0)), true)), m'), m'), m'), 2 * k, k)
  {
    hide Do, RoundSold;
    var n, m' := 2 * k, Move(2 * k + 1, NOW);
    RoundBegins(w, k);
    var begun := Do(Do(w, Compare(0)), Arrive(Ask(k, w.limit(0)), true));
    assert begun.redis.stock == map[0 := HEAL_AFTER_RUNS - k] && begun.drift == [0];
    CheckoutPasses(begun, n, k);
    SoldAfter(begun, Do(Do(Do(begun, m'), m'), m'), n, k);
  }

  lemma RoundAdvances(w: World, k: nat)
    requires AfterRounds(w, k) && k < HEAL_AFTER_RUNS
    ensures AfterRounds(Run(w, RacingRound(2 * k, k, w.limit(0))), k + 1)
  {
    hide Do, Run;
    var n, m' := 2 * k, Move(2 * k + 1, NOW);
    RoundRun(w, n, k, w.limit(0));
    RoundSells(w, k);
    SightingCounts(Do(Do(Do(Do(Do(w, Compare(0)), Arrive(Ask(k, w.limit(0)), true)), m'), m'), m'), n, k);
  }

  lemma RoundsBegin(w: World)
    requires Initial(w) && w.limit(0) >= 1
    ensures AfterRounds(Run(w, RacingRounds(0, w.limit(0))), 0)
  {
    hide Total, Run;
    RunOne(w, Add(0, 1, HEAL_AFTER_RUNS));
  }

  lemma {:induction false} RoundsAdvance(w: World, k: nat)
    requires Initial(w) && w.limit(0) >= 1 && k <= HEAL_AFTER_RUNS
    ensures AfterRounds(Run(w, RacingRounds(k, w.limit(0))), k)
    decreases k
  {
    hide Do, Run, AfterRounds, Initial;
    if k == 0 {
      RoundsBegin(w);
    } else {
      var rounds := RacingRounds(k - 1, w.limit(0));
      RoundsAdvance(w, k - 1);
      LimitStays(w, rounds);
      RoundAdvances(Run(w, rounds), k - 1);
      RunConcat(w, rounds, RacingRound(2 * (k - 1), k - 1, w.limit(0)));
    }
  }

  lemma {:induction false} LimitStays(w: World, actions: seq<Action>)
    ensures Run(w, actions).limit == w.limit
  {
    hide Total;
    if actions != [] { LimitStays(w, actions[..|actions| - 1]); }
  }

  /**
    The healing rule can go wrong without a crash and with nothing in flight at any read: three
    checkouts, each falling between the two reads of a reconciliation, show the difference -1
    three times; the heal then offers a ticket that is not there, and the next checkout is
    granted by Redis and refused by PostgreSQL as out of stock.
  */
  lemma HealCanOverfill(w: World)
    requires Initial(w) && w.limit(0) >= 1
    ensures var now := Run(w, RacingRounds(HEAL_AFTER_RUNS, w.limit(0)));
      var r := Ask(HEAL_AFTER_RUNS, w.limit(0));
      && Inv(now) && Idle(now) && now.drift == [1]
      && ReserveLua(now.redis, r.event, r.user, r.category, r.qty, r.max).1.Granted?
      && ReserveOrder(now.db, r, 0).1.OutOfStock?
  {
    hide Total, Run, Inv;
    var actions := RacingRounds(HEAL_AFTER_RUNS, w.limit(0));
    Conserved(w, actions);
    RoundsAdvance(w, HEAL_AFTER_RUNS);
    NoneHeld(Run(w, actions).db.orders, HEAL_AFTER_RUNS, 0);
  }
}
