/** reconcileStock: a difference is healed only after it has been seen unchanged in three runs. */
module Reconcile {
  import opened Measures

  const HEAL_AFTER_RUNS := 3
  const TRACKER_TTL := 600_000

  /** The hash kept per category between runs; the key is gone once the clock has passed `expiresAt`. */
  datatype Tracker = Tracker(diff: int, runs: nat, expiresAt: int)

  /** One category as reconciliation sees it: the stock key and the tracker key. */
  datatype Cell = Cell(stock: int, tracker: Option<Tracker>)

  function Live(t: Option<Tracker>, now: int): Option<Tracker> {
    if t.Some? && now <= t.value.expiresAt then t else None
  }

  function RunsSeen(t: Option<Tracker>, diff: int, now: int): nat {
    var live := Live(t, now);
    if live.Some? && live.value.diff == diff then live.value.runs + 1 else 1
  }

  /** One run over one category whose available quantity in the database is `avail`. */
  function Reconciled(cell: Cell, avail: int, now: int): (Cell, bool) {
    var diff := cell.stock - avail;
    if diff == 0 then (Cell(cell.stock, None), false)
    else if RunsSeen(cell.tracker, diff, now) >= HEAL_AFTER_RUNS then (Cell(cell.stock - diff, None), true)
    else (Cell(cell.stock, Some(Tracker(diff, RunsSeen(cell.tracker, diff, now), now + TRACKER_TTL))), false)
  }

  function RunAll(cell: Cell, avail: int, times: seq<int>): Cell {
    if times == [] then cell else Reconciled(RunAll(cell, avail, times[..|times| - 1]), avail, times[|times| - 1]).0
  }

  /** Run i + 1 finds the tracker that run i left. */
  predicate CloseGap(times: seq<int>, i: nat)
    requires i + 1 < |times|
  {
    times[i + 1] <= times[i] + 600_000
  }

  /** Consecutive runs fall within a tracker's lifetime. */
  predicate Close(times: seq<int>) {
    forall i :: 0 <= i < |times| - 1 ==> CloseGap(times, i)
  }

  /** What n close runs leave: the stock healed, or the same difference seen at least n times. */
  lemma {:induction false} Progress(cell: Cell, avail: int, times: seq<int>)
    requires Close(times)
    ensures var after := RunAll(cell, avail, times);
      || after.stock == avail
      || (times == [] && after == cell)
      || (after.stock == cell.stock && 1 <= |times| < HEAL_AFTER_RUNS && after.tracker.Some? &&
          after.tracker.value.diff == cell.stock - avail && after.tracker.value.runs >= |times| &&
          after.tracker.value.expiresAt == times[|times| - 1] + TRACKER_TTL)
  {
    if times != [] {
      var init := times[..|times| - 1];
      forall i | 0 <= i < |init| - 1 ensures CloseGap(init, i) {
        assert CloseGap(times, i);
      }
      Progress(cell, avail, init);
      if init != [] {
        assert CloseGap(times, |init| - 1);
      }
    }
  }

  /**
    Convergence: while the database does not move, three consecutive runs (and any number
    more) leave the stock equal to what is available, whatever stock and tracker they found.
  */
  lemma Converges(cell: Cell, avail: int, times: seq<int>)
    requires Close(times) && |times| >= HEAL_AFTER_RUNS
    ensures RunAll(cell, avail, times).stock == avail
  {
    Progress(cell, avail, times);
  }

  /** Two close gaps in a row: three runs that each find the tracker of the one before. */
  predicate ThreeClose(times: seq<int>) {
    exists i :: 0 <= i < |times| - 2 && CloseGap(times, i) && CloseGap(times, i + 1)
  }

  lemma ThreeCloseGrows(times: seq<int>)
    requires times != []
    ensures var n := |times| - 1;
      ThreeClose(times) <==> ThreeClose(times[..n]) || (n >= 2 && CloseGap(times, n - 2) && CloseGap(times, n - 1))
  {
    var n := |times| - 1;
    assert forall i :: 0 <= i < n - 1 ==> CloseGap(times[..n], i) == CloseGap(times, i);
  }

  /** What the runs have left behind: the stock right for good, or untouched with the sightings in a row counted. */
  ghost predicate Standing(cell: Cell, avail: int, times: seq<int>) {
    var after, n := RunAll(cell, avail, times), |times|;
    if ThreeClose(times) then after.stock == avail
    else
      after.stock == cell.stock &&
      (times == [] || after.tracker == Some(Tracker(cell.stock - avail,
                                                    if n >= 2 && CloseGap(times, n - 2) then 2 else 1,
                                                    times[n - 1] + TRACKER_TTL)))
  }

  /**
    The exact rule: starting from a difference that no live tracker has yet noted, the runs
    make the stock right if and only if two gaps in a row are short enough for a tracker to
    survive them; otherwise they never touch the stock. So runs further apart never heal.
  */
  lemma {:induction false} HealsIffThreeClose(cell: Cell, avail: int, times: seq<int>)
    requires cell.stock != avail && (times != [] ==> RunsSeen(cell.tracker, cell.stock - avail, times[0]) == 1)
    ensures RunAll(cell, avail, times).stock == avail <==> ThreeClose(times)
    ensures !ThreeClose(times) ==> RunAll(cell, avail, times).stock == cell.stock
    ensures Standing(cell, avail, times)
  {
    if times != [] {
      HealsIffThreeClose(cell, avail, times[..|times| - 1]);
      ThreeCloseGrows(times);
    }
  }

  // ---------- A category whose stock and availability go on moving ----------

  /** What one run reads. */
  datatype Sighting = Sighting(stock: int, avail: int, now: int)

  function Diff(s: Sighting): int {
    s.stock - s.avail
  }

  /** The tracker after a series of runs, whatever happens to stock and availability between them. */
  function TrackerAfter(sightings: seq<Sighting>): Option<Tracker> {
    if sightings == [] then None
    else
      var s := sightings[|sightings| - 1];
      Reconciled(Cell(s.stock, TrackerAfter(sightings[..|sightings| - 1])), s.avail, s.now).0.tracker
  }

  /** Does the last run of the series heal? */
  predicate LastHeals(sightings: seq<Sighting>) {
    sightings != [] &&
    var s := sightings[|sightings| - 1];
    Reconciled(Cell(s.stock, TrackerAfter(sightings[..|sightings| - 1])), s.avail, s.now).1
  }

  /** Sightings j - 1 and j show the same difference, and the tracker of the first outlives the gap. */
  predicate Again(sightings: seq<Sighting>, j: nat)
    requires 0 < j < |sightings|
  {
    Diff(sightings[j]) == Diff(sightings[j - 1]) != 0 && sightings[j].now <= sightings[j - 1].now + 600_000
  }

  /** How many sightings in a row, up to the last, have shown its nonzero difference. */
  function InARow(sightings: seq<Sighting>): nat {
    var n := |sightings|;
    if n == 0 || Diff(sightings[n - 1]) == 0 then 0
    else if n >= 2 && Again(sightings, n - 1) then InARow(sightings[..n - 1]) + 1
    else 1
  }

  /** A tracker tells the truth about the last runs. */
  lemma {:induction false} TrackerIsTrue(sightings: seq<Sighting>)
    ensures var n := |sightings|; var runs := InARow(sightings) % HEAL_AFTER_RUNS;
      TrackerAfter(sightings) ==
        if runs == 0 then None
        else Some(Tracker(Diff(sightings[n - 1]), runs, sightings[n - 1].now + TRACKER_TTL))
  {
    if sightings != [] {
      TrackerIsTrue(sightings[..|sightings| - 1]);
    }
  }

  /**
    Exactly when a run heals, however stock and availability move between the runs: when it is
    the third sighting in a row of one difference, or the sixth, the ninth, and so on.
  */
  lemma HealsEveryThird(sightings: seq<Sighting>)
    ensures LastHeals(sightings) <==> InARow(sightings) > 0 && InARow(sightings) % 3 == 0
  {
    if sightings != [] {
      TrackerIsTrue(sightings[..|sightings| - 1]);
    }
  }

  /** So no run ever heals a difference that the two runs before it did not see as well, each in time. */
  lemma HealNeedsThreeSightings(sightings: seq<Sighting>)
    requires LastHeals(sightings)
    ensures var n := |sightings|; n >= 3 && Again(sightings, n - 2) && Again(sightings, n - 1)
  {
    var n := |sightings|;
    HealsEveryThird(sightings);
    var init := sightings[..n - 1];
    assert InARow(sightings) == InARow(init) + 1;
    assert Again(init, n - 2) == Again(sightings, n - 2);
  }

  /** A run heals a difference whole or leaves the stock alone. */
  lemma HealsWholeOrNothing(cell: Cell, avail: int, now: int)
    ensures var (after, healed) := Reconciled(cell, avail, now);
      && (after.stock == if healed then avail else cell.stock)
      && (healed <==> (cell.stock != avail && RunsSeen(cell.tracker, cell.stock - avail, now) >= HEAL_AFTER_RUNS))
      && (healed ==> after.tracker.None?)
  {
  }
}
