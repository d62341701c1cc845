/** The queue scripts and the cleanup job as they run, statement by statement, against their specification. */
module WaitingRoom {
  import opened Measures
  import opened SortedSets
  import opened AdmissionLog
  import opened WaitingQueue
  import opened Calendar

  const CLEANUP_BATCH := 1000

  /** A stock key as GET returns it; a missing key counts as zero. */
  function StockValue(): Option<int> -> int {
    (s: Option<int>) => if s.Some? then s.value else 0
  }

  datatype Snapshot = Snapshot(status: Option<QueueStatus>, admittedFor: real, activeUntil: real,
                               rank: int, total: nat, admits: int, rate: int, stock: int)

  /** The admitting ticks of a run, in order: when, and how many users each took. */
  function History(room: Room, actions: seq<Action>): seq<LogEntry> {
    if actions == [] then []
    else
      var before, a := Run(room, actions[..|actions| - 1]), actions[|actions| - 1];
      History(room, actions[..|actions| - 1]) +
      (if a.DoAdmit? && Admit(before, a.now, a.rate, a.maxActive, a.ttl, a.stock).1.reason == Admitting
       then [LogEntry(a.now, Admit(before, a.now, a.rate, a.maxActive, a.ttl, a.stock).1.admitted)] else [])
  }

  /** Only a tick that admits writes the log. */
  lemma LogAfter(room: Room, a: Action)
    ensures a.DoAdmit? && Admit(room, a.now, a.rate, a.maxActive, a.ttl, a.stock).1.reason == Admitting ==>
      Do(room, a).log == LogTick(room.log, a.now, Admit(room, a.now, a.rate, a.maxActive, a.ttl, a.stock).1.admitted)
    ensures !(a.DoAdmit? && Admit(room, a.now, a.rate, a.maxActive, a.ttl, a.stock).1.reason == Admitting) ==>
      Do(room, a).log == room.log
  {
    hide AddAll, RemoveAll, MarkAll, LogTick, Purge, Rank, Remove, Insert;
  }

  /** The log a run leaves is the pruned log of its history. */
  lemma {:induction false} RunLog(room: Room, actions: seq<Action>)
    requires room.log == []
    ensures Run(room, actions).log == LogOf(History(room, actions))
  {
    if actions != [] {
      var init, a := actions[..|actions| - 1], actions[|actions| - 1];
      RunLog(room, init);
      LogAfter(Run(room, init), a);
      var h := History(room, init);
      assert forall e: LogEntry :: (h + [e])[..|h|] == h;
      assert h + [] == h;
    }
  }

  /** The ticks of a run come in the order of their times, none later than the clock. */
  lemma {:induction false} HistoryOrdered(room: Room, actions: seq<Action>)
    requires TimelyRun(room, actions)
    ensures Ordered(History(room, actions))
    ensures forall i :: 0 <= i < |History(room, actions)| ==> History(room, actions)[i].at <= Run(room, actions).clock
  {
    hide Do;
    if actions != [] {
      HistoryOrdered(room, actions[..|actions| - 1]);
      ClockAdvances(Run(room, actions[..|actions| - 1]), actions[|actions| - 1]);
    }
  }

  /** The users that the ticks of a run at or after `from` have taken out of the queue. */
  function AdmittedSince(room: Room, actions: seq<Action>, from: real): int {
    if actions == [] then 0
    else
      var before, last := Run(room, actions[..|actions| - 1]), actions[|actions| - 1];
      AdmittedSince(room, actions[..|actions| - 1], from)
      + (if last.DoAdmit? && last.now >= from then |before.queue| - |Do(before, last).queue| else 0)
  }

  /** The history is true: it counts exactly the users that left the queue in ticks. */
  lemma {:induction false} HistoryCounts(room: Room, actions: seq<Action>, from: real)
    requires QueueInv(room) && TimelyRun(room, actions)
    ensures QueueInv(Run(room, actions))
    ensures WindowSum(History(room, actions), from) == AdmittedSince(room, actions, from)
  {
    hide Do, Admit;
    if actions != [] {
      var init, a := actions[..|actions| - 1], actions[|actions| - 1];
      HistoryCounts(room, init, from);
      DoKeeps(Run(room, init), a);
      var h := History(room, init);
      assert h + [] == h;
      if a.DoAdmit? {
        AdmitsExactly(Run(room, init), a.now, a.rate, a.maxActive, a.ttl, a.stock);
        AdmitIs(Run(room, init), a);
        var admitted := Admit(Run(room, init), a.now, a.rate, a.maxActive, a.ttl, a.stock).1.admitted;
        TotalAppend(h, CountSince(from), LogEntry(a.now, admitted));
      }
    }
  }

  lemma ClockAdvances(room: Room, a: Action)
    requires Timely(room, a)
    ensures Do(room, a).clock >= room.clock && (a.DoAdmit? ==> Do(room, a).clock == a.now)
  {
    hide AddAll, RemoveAll, MarkAll, LogTick, Purge, Rank, Remove, Insert;
  }

  /**
    So over every run of the scripts, by however many would-be leaders, the readers' sum is the
    number of users the run admitted in the window exactly under the conditions of
    `ReadersAreRight`; for a window of less than 300 s that is if and only if no two ticks in it
    have the same time and the same count.
  */
  lemma ReadersCountTheRun(room: Room, actions: seq<Action>, from: real)
    requires room.log == [] && TimelyRun(room, actions)
    ensures var history := History(room, actions);
      history != [] ==>
        (WindowSum(Run(room, actions).log, from) == WindowSum(history, from) <==>
          NobodyIn(history, from, history[|history| - 1].at - 300_000.0) &&
            Distinct(history, from, history[|history| - 1].at - 300_000.0))
    ensures var history := History(room, actions);
      from > Run(room, actions).clock - 300_000.0 ==>
        (WindowSum(Run(room, actions).log, from) == WindowSum(history, from) <==>
          forall i, j :: 0 <= i < j < |history| && history[i] == history[j] && history[j].count > 0 ==>
            history[j].at < from)
  {
    hide Run, History, LogOf, Total, Ordered, TimelyRun, NobodyIn, Distinct;
    RunLog(room, actions);
    HistoryOrdered(room, actions);
    var history := History(room, actions);
    if history == [] {
      EmptyLog();
    } else {
      ReadersAreRight(history, from);
      if from > history[|history| - 1].at - KEEP { LogAgreesWithHistory(history, from); }
    }
  }

  lemma EmptyLog()
    ensures LogOf([]) == []
  {
  }

  lemma {:induction false} RemoveAllSize(s: seq<Entry>, users: seq<Entry>)
    requires ZSet(s) && ZSet(users) && Members(users) <= Members(s)
    ensures |RemoveAll(s, users)| == |s| - |users|
  {
    if users != [] {
      var init, last := users[..|users| - 1], users[|users| - 1];
      LastEntry(users);
      RemoveAllSize(s, init);
      RemoveAllFacts(s, init);
      RemoveFacts(RemoveAll(s, init), last.member);
    }
  }

  /** Members with a heartbeat at or before the cutoff. */
  function StaleMembers(hb: seq<Entry>, cutoff: real): set<Member> {
    set e | e in hb && e.score <= cutoff :: e.member
  }

  lemma Parts(room: Room)
    requires QueueInv(room)
    ensures ZSet(room.queue) && ZSet(room.hb) && Members(room.queue) == Members(room.hb)
  {
  }

  /** Everything a call selects is stale, and everything stale is selected if the batch is not filled. */
  lemma StaleAreStale(room: Room, cutoff: real, batch: nat)
    requires ZSet(room.hb)
    ensures forall e :: e in Stale(room, cutoff, batch) ==> e in room.hb && e.score <= cutoff
    ensures |Stale(room, cutoff, batch)| < batch ==>
      forall e :: e in room.hb && e.score <= cutoff ==> e in Stale(room, cutoff, batch)
  {
    var stale := Stale(room, cutoff, batch);
    if |stale| < batch {
      PurgeFacts(room.hb, cutoff);
      PrefixFacts(room.hb, |stale|);
    }
  }

  /**
    What one cleanup call does: it removes stale members only, as many as it says, and all of them
    if it says fewer than the batch.
  */
  lemma CleanupCall(room: Room, cutoff: real, batch: nat)
    requires QueueInv(room)
    ensures var (after, n) := Cleanup(room, cutoff, batch);
      && QueueInv(after) && n <= batch
      && |after.hb| == |room.hb| - n && |after.queue| == |room.queue| - n
      && Members(after.queue) <= Members(room.queue)
      && Members(room.queue) - Members(after.queue) <= StaleMembers(room.hb, cutoff)
      && StaleMembers(after.hb, cutoff) == StaleMembers(room.hb, cutoff) - (Members(room.queue) - Members(after.queue))
      && (n < batch ==> StaleMembers(after.hb, cutoff) == {})
  {
    hide Rank, Remove, RemoveAll, QueueInv, ZSet;
    var stale := Stale(room, cutoff, batch);
    Parts(room);
    PrefixFacts(room.hb, |stale|);
    CleanupKeeps(room, cutoff, batch);
    RemoveAllFacts(room.hb, stale);
    RemoveAllFacts(room.queue, stale);
    RemoveAllSize(room.hb, stale);
    RemoveAllSize(room.queue, stale);
    StaleAreStale(room, cutoff, batch);
  }

  /** The oldest heartbeats go first: nobody removed by a call was heard of later than anybody it spares. */
  lemma OldestGoFirst(room: Room, cutoff: real, batch: nat)
    requires QueueInv(room)
    ensures var after := Cleanup(room, cutoff, batch).0;
      forall x, y :: x in room.hb && x !in after.hb && y in after.hb ==> x.score <= y.score
    ensures Cleanup(room, cutoff, batch).0 == room.(queue := Cleanup(room, cutoff, batch).0.queue,
                                                    hb := Cleanup(room, cutoff, batch).0.hb)
  {
    hide Rank, Remove, RemoveAll, QueueInv, ZSet;
    var stale := Stale(room, cutoff, batch);
    Parts(room);
    PrefixFacts(room.hb, |stale|);
    RemoveAllFacts(room.hb, stale);
    forall e | e in stale ensures e.member in Members(stale) {}
  }

  class RoomStore {
    var queue: seq<Entry>
    var hb: seq<Entry>
    var active: seq<Entry>
    var admitted: map<Member, real>
    var status: Option<QueueStatus>
    var log: seq<LogEntry>
    ghost var clock: real

    ghost function View(): Room
      reads this
    {
      Room(queue, hb, active, admitted, status, log, clock)
    }

    method Join(u: Member, now: real, lottery: real) returns (reply: JoinReply)
      modifies this
      ensures (View(), reply) == WaitingQueue.Join(old(View()), u, now, lottery)
    {
      if status == None || status == Some(Scheduled) { return JoinReply(NotOpen, -1, false); }
      if status == Some(SoldOut) { return JoinReply(IsSoldOut, -1, false); }
      if status == Some(Closed) { return JoinReply(IsClosed, -1, false); }
      if u in admitted && now <= admitted[u] && Has(active, u) {
        return JoinReply(AlreadyAdmitted, -1, false);
      }
      var score := now;
      if status == Some(PreQueue) {
        score := lottery;
      }
      var added := !Has(queue, u);
      queue := AddNew(queue, Entry(score, u));
      hb := Add(hb, Entry(now, u));
      clock := now;
      var found := Rank(queue, u);
      var rank := if found.Some? then found.value else -1;
      reply := JoinReply(if status == Some(PreQueue) then WaitingRoom else Queued, rank, added);
    }

    /** The sum that status.lua and the admin reader take over the log. */
    method AdmitsSince(from: real) returns (total: int)
      ensures total == WindowSum(log, from)
    {
      total := 0;
      for i := 0 to |log|
        invariant total == WindowSum(log[..i], from)
      {
        assert log[..i + 1][..i] == log[..i];
        if log[i].at >= from {
          total := total + log[i].count;
        }
      }
      assert log[..|log|] == log;
    }

    method Status(u: Member, now: real, window: real, rate: Option<int>, stocks: seq<Option<int>>) returns (s: Snapshot)
      modifies this
      ensures View() == Beat(old(View()), u, now)
      ensures s.rank == (if Has(queue, u) then Rank(queue, u).value else -1) && s.total == |queue|
      ensures s.admits == WindowSum(log, now - window) && s.stock == Total(stocks, StockValue())
      ensures s.status == old(status) && s.rate == (if rate.Some? then rate.value else 0)
      ensures s.admittedFor == (if u in old(admitted) && now <= old(admitted)[u] then old(admitted)[u] - now else -2.0)
      ensures s.activeUntil == (if Has(active, u) then EntryOf(active, u).score else -1.0)
      ensures QueueInv(old(View())) && now >= old(clock) ==>
        (s.admittedFor > 0.0 && s.activeUntil > now <==> HasSession(old(View()), u, now) && now < old(admitted)[u])
    {
      var found := Rank(queue, u);
      var rank: int := -1;
      if found.Some? {
        hb := AddExisting(hb, Entry(now, u));
        rank := found.value;
      }
      clock := now;
      var admits := AdmitsSince(now - window);
      var stock := SumStock(stocks);
      var activeUntil := if Has(active, u) then EntryOf(active, u).score else -1.0;
      var admittedFor := if u in admitted && now <= admitted[u] then admitted[u] - now else -2.0;
      HasIff(active, u);
      s := Snapshot(status, admittedFor, activeUntil, rank, |queue|, admits, if rate.Some? then rate.value
        else 0, stock);
    }

    method SumStock(stocks: seq<Option<int>>) returns (total: int)
      ensures total == Total(stocks, StockValue())
    {
      total := 0;
      for i := 0 to |stocks|
        invariant total == Total(stocks[..i], StockValue())
      {
        assert stocks[..i + 1][..i] == stocks[..i];
        total := total + if stocks[i].Some? then stocks[i].value else 0;
      }
      assert stocks[..|stocks|] == stocks;
    }

    /** The popped users become sessions, one after another. */
    method Seat(popped: seq<Entry>, until: real) returns (count: nat)
      modifies this`active, this`admitted, this`hb
      ensures active == AddAll(old(active), popped, until) && admitted == MarkAll(old(admitted), popped, until)
      ensures hb == RemoveAll(old(hb), popped) && count == |popped|
    {
      count := 0;
      for i := 0 to |popped|
        invariant count == i && active == AddAll(old(active), popped[..i], until)
        invariant admitted == MarkAll(old(admitted), popped[..i], until) && hb == RemoveAll(old(hb), popped[..i])
      {
        assert popped[..i + 1][..i] == popped[..i];
        var user := popped[i].member;
        active := Add(active, Entry(until, user));
        admitted := admitted[user := until];
        hb := Remove(hb, user);
        count := count + 1;
      }
      assert popped[..|popped|] == popped;
    }

    method LogAdmission(now: real, count: nat)
      modifies this`log
      ensures log == LogTick(old(log), now, count)
    {
      if count > 0 && LogEntry(now, count) !in log {
        log := log + [LogEntry(now, count)];
      }
      log := DropUpTo(log, now - KEEP);
    }

    /** One admission tick. */
    method Admit(now: real, rate: int, maxActive: int, ttl: real, stocks: seq<Option<int>>) returns (reply: AdmitReply)
      modifies this
      ensures (View(), reply) == WaitingQueue.Admit(old(View()), now, rate, maxActive, ttl, Total(stocks, StockValue()))
    {
      hide AddAll, RemoveAll, MarkAll, LogTick, Purge, Total;
      active := Purge(active, now);
      clock := now;
      var live := |active|;
      var stock := SumStock(stocks);
      if status != Some(Opened) { return AdmitReply(0, live, NotOpened, stock); }
      if stock <= 0 { return AdmitReply(0, live, NoStockLeft, stock); }
      var slot := Slot(live, rate, maxActive, stock);
      if slot <= 0 { return AdmitReply(0, live, Full, stock); }
      var taken := Min(slot, |queue|);
      var popped := queue[..taken];
      queue := queue[taken..];
      var count := Seat(popped, now + ttl);
      LogAdmission(now, count);
      reply := AdmitReply(count, live + count, Admitting, stock);
    }

    method Cleanup(cutoff: real, batch: nat) returns (n: nat)
      modifies this`queue, this`hb
      ensures (View(), n) == WaitingQueue.Cleanup(old(View()), cutoff, batch)
    {
      hide Remove;
      var stale := hb[..Min(CountUpTo(hb, cutoff), batch)];
      for i := 0 to |stale|
        invariant queue == RemoveAll(old(queue), stale[..i]) && hb == RemoveAll(old(hb), stale[..i])
      {
        assert stale[..i + 1][..i] == stale[..i];
        queue := Remove(queue, stale[i].member);
        hb := Remove(hb, stale[i].member);
      }
      assert stale[..|stale|] == stale;
      n := |stale|;
    }

    /**
      The cleanup job's loop: it ends; afterwards no queued user has a heartbeat at or before
      the cutoff, exactly the stale users are gone, and the total is their number.
    */
    method CleanupTick(cutoff: real) returns (removed: nat)
      requires QueueInv(View())
      modifies this`queue, this`hb
      ensures QueueInv(View())
      ensures StaleMembers(hb, cutoff) == {}
      ensures Members(queue) == Members(old(queue)) - StaleMembers(old(hb), cutoff)
      ensures removed == |old(queue)| - |queue|
    {
      removed := 0;
      var batch := CLEANUP_BATCH;
      ghost var gone: set<Member> := {};
      while batch == CLEANUP_BATCH
        invariant QueueInv(View()) && batch <= CLEANUP_BATCH
        invariant removed == |old(queue)| - |queue|
        invariant gone <= StaleMembers(old(hb), cutoff) && Members(queue) == Members(old(queue)) - gone
        invariant StaleMembers(hb, cutoff) == StaleMembers(old(hb), cutoff) - gone
        invariant batch < CLEANUP_BATCH ==> StaleMembers(hb, cutoff) == {}
        decreases |hb|, batch
      {
        ghost var before := Members(queue);
        CleanupCall(View(), cutoff, CLEANUP_BATCH);
        batch := Cleanup(cutoff, CLEANUP_BATCH);
        gone := gone + (before - Members(queue));
        removed := removed + batch;
      }
    }

    method Leave(u: Member)
      modifies this`queue, this`hb, this`active, this`admitted
      ensures View() == WaitingQueue.Leave(old(View()), u)
      ensures QueueInv(old(View())) ==>
        && Members(queue) == Members(old(queue)) - {u} && Members(hb) == Members(old(hb)) - {u}
        && Members(active) == Members(old(active)) - {u} && admitted.Keys == old(admitted).Keys - {u}
        && (forall e :: e in old(queue) && e.member != u ==> e in queue)
        && (forall e :: e in old(active) && e.member != u ==>
          e in active && admitted[e.member] == old(admitted)[e.member])
    {
      hide Remove, Rank;
      if QueueInv(View()) {
        RemoveFacts(queue, u);
        RemoveFacts(hb, u);
        RemoveFacts(active, u);
      }
      queue := Remove(queue, u);
      hb := Remove(hb, u);
      active := Remove(active, u);
      admitted := admitted - {u};
    }
  }
}
