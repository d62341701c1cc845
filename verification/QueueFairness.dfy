/** Who is ahead of whom in the waiting queue, and how long anyone waits. */
module QueueFairness {
  import opened Measures
  import opened SortedSets
  import opened WaitingQueue
  import opened Calendar

  // ---------- Entries never move ----------

  /** Every entry after a step was there before, or is the newcomer of a join. */
  lemma QueueEntries(room: Room, a: Action, e: Entry)
    requires QueueInv(room) && Timely(room, a) && e in Do(room, a).queue
    ensures e in room.queue ||
      (a.DoJoin? && e.member == a.user && e.member !in Members(room.queue) && room.status.Some? &&
       e.score == if room.status.value == PreQueue then a.lottery else a.now)
  {
    hide Add, Rank, AddAll, RemoveAll, MarkAll, ZSet;
    match a
    case DoJoin(u, now, lottery) =>
      HasIff(room.queue, u);
      if !Has(room.queue, u) && room.status.Some? {
        InsertFacts(room.queue, Entry(if room.status.value == PreQueue then lottery else now, u));
      }
    case DoLeave(u) => RemoveFacts(room.queue, u);
    case DoCleanup(cutoff, batch) => RemoveAllFacts(room.queue, Stale(room, cutoff, batch));
    case DoAdmit(now, rate, maxActive, _, stock) => PrefixFacts(room.queue, Taken(room, now, rate, maxActive, stock));
    case _ =>
  }

  /** A member that is queued before and after a step keeps its entry: rejoining moves nobody. */
  lemma EntryKept(room: Room, a: Action, u: Member)
    requires QueueInv(room) && Timely(room, a)
    requires Has(room.queue, u) && Has(Do(room, a).queue, u)
    ensures EntryOf(Do(room, a).queue, u) == EntryOf(room.queue, u)
  {
    HasIff(room.queue, u);
    HasIff(Do(room, a).queue, u);
    var e := EntryOf(Do(room, a).queue, u);
    QueueEntries(room, a, e);
    EntryIs(room.queue, e);
  }

  ghost predicate StaysQueued(room: Room, actions: seq<Action>, u: Member) {
    Has(Run(room, actions).queue, u) && (actions == [] || StaysQueued(room, actions[..|actions| - 1], u))
  }

  lemma {:induction false} RunKeeps(room: Room, actions: seq<Action>)
    requires QueueInv(room) && TimelyRun(room, actions)
    ensures QueueInv(Run(room, actions))
  {
    if actions != [] {
      RunKeeps(room, actions[..|actions| - 1]);
      DoKeeps(Run(room, actions[..|actions| - 1]), actions[|actions| - 1]);
    }
  }

  lemma {:induction false} EntryKeptOver(room: Room, actions: seq<Action>, u: Member)
    requires QueueInv(room) && TimelyRun(room, actions) && StaysQueued(room, actions, u)
    ensures Has(room.queue, u) && EntryOf(Run(room, actions).queue, u) == EntryOf(room.queue, u)
  {
    if actions != [] {
      var init := actions[..|actions| - 1];
      EntryKeptOver(room, init, u);
      RunKeeps(room, init);
      EntryKept(Run(room, init), actions[|actions| - 1], u);
    }
  }

  /** While two users stay queued, no run of joins, rejoins, leaves, cleanups and ticks changes who is ahead. */
  lemma OrderPreserved(room: Room, actions: seq<Action>, u: Member, v: Member)
    requires QueueInv(room) && TimelyRun(room, actions)
    requires StaysQueued(room, actions, u) && StaysQueued(room, actions, v)
    ensures Has(room.queue, u) && Has(room.queue, v)
    ensures Rank(Run(room, actions).queue, u).value < Rank(Run(room, actions).queue, v).value
       <==> Rank(room.queue, u).value < Rank(room.queue, v).value
  {
    RunKeeps(room, actions);
    EntryKeptOver(room, actions, u);
    EntryKeptOver(room, actions, v);
    RankOrder(room.queue, u, v);
    RankOrder(Run(room, actions).queue, u, v);
  }

  // ---------- The lottery goes first ----------

  /** Action a puts u into the queue. */
  predicate Enters(room: Room, a: Action, u: Member) {
    a.DoJoin? && a.user == u && !Has(room.queue, u) && Has(Do(room, a).queue, u)
  }

  lemma EntryScore(room: Room, a: Action, u: Member)
    requires QueueInv(room) && Timely(room, a) && Enters(room, a, u)
    ensures room.status.Some?
    ensures room.status.value == PreQueue ==> 0.0 <= EntryOf(Do(room, a).queue, u).score < 1.0
    ensures room.status.value != PreQueue ==> EntryOf(Do(room, a).queue, u).score >= 1.0
  {
    HasIff(room.queue, u);
    HasIff(Do(room, a).queue, u);
    QueueEntries(room, a, EntryOf(Do(room, a).queue, u));
  }

  lemma {:induction false} RunSplit(room: Room, actions: seq<Action>, i: nat)
    requires i <= |actions| && TimelyRun(room, actions)
    ensures TimelyRun(room, actions[..i]) && TimelyRun(Run(room, actions[..i]), actions[i..])
    ensures Run(Run(room, actions[..i]), actions[i..]) == Run(room, actions)
  {
    var n := |actions| - 1;
    if i == |actions| {
      assert actions[..i] == actions && actions[i..] == [];
    } else {
      RunSplit(room, actions[..n], i);
      assert actions[..n][..i] == actions[..i] && actions[..n][i..] == actions[i..][..n - i];
    }
  }

  /**
    Whoever enters during PREQUEUE (step i) is ahead of whoever enters at any other status
    (step j), in whichever order they come and whatever runs beside, while both stay queued.
  */
  lemma LotteryFirst(room: Room, actions: seq<Action>, i: nat, u: Member, j: nat, v: Member)
    requires QueueInv(room) && TimelyRun(room, actions) && i < |actions| && j < |actions|
    requires Enters(Run(room, actions[..i]), actions[i], u) && Run(room, actions[..i]).status == Some(PreQueue)
    requires Enters(Run(room, actions[..j]), actions[j], v) && Run(room, actions[..j]).status != Some(PreQueue)
    requires StaysQueued(Run(room, actions[..i + 1]), actions[i + 1..], u)
    requires StaysQueued(Run(room, actions[..j + 1]), actions[j + 1..], v)
    ensures var now := Run(room, actions);
      Has(now.queue, u) && Has(now.queue, v) && Rank(now.queue, u).value < Rank(now.queue, v).value
  {
    EnteredScore(room, actions, i, u);
    EnteredScore(room, actions, j, v);
    RunKeeps(room, actions);
    RankOrder(Run(room, actions).queue, u, v);
  }

  /** The score with which u entered at step i is the score u still has at the end. */
  lemma EnteredScore(room: Room, actions: seq<Action>, i: nat, u: Member)
    requires QueueInv(room) && TimelyRun(room, actions) && i < |actions|
    requires Enters(Run(room, actions[..i]), actions[i], u)
    requires StaysQueued(Run(room, actions[..i + 1]), actions[i + 1..], u)
    ensures var now := Run(room, actions);
      Has(now.queue, u) &&
      if Run(room, actions[..i]).status == Some(PreQueue) then 0.0 <= EntryOf(now.queue, u).score < 1.0
      else EntryOf(now.queue, u).score >= 1.0
  {
    var upTo := actions[..i + 1];
    assert upTo[..i] == actions[..i] && upTo[i] == actions[i];
    RunSplit(room, actions, i + 1);
    RunKeeps(room, upTo);
    RunKeeps(room, actions[..i]);
    EntryScore(Run(room, actions[..i]), actions[i], u);
    EntryKeptOver(Run(room, upTo), actions[i + 1..], u);
  }

  /** Outside PREQUEUE, whoever joins strictly later than everything so far goes to the very end. */
  lemma LaterGoesLast(room: Room, u: Member, now: real, lottery: real)
    requires QueueInv(room) && now > room.clock && !Has(room.queue, u)
    requires room.status == Some(Opened) || room.status == Some(Paused)
    requires !HasSession(room, u, now)
    ensures Join(room, u, now, lottery).0.queue == room.queue + [Entry(now, u)]
    ensures Join(room, u, now, lottery).1 == JoinReply(Queued, |room.queue|, true)
  {
    var e := Entry(now, u);
    assert forall i :: 0 <= i < |room.queue| ==> room.queue[i] in room.queue;
    assert Place(room.queue, e) == |room.queue|;
    assert Insert(room.queue, e) == room.queue + [e];
  }

  /** What a tick does to the queue, in closed form. */
  lemma TickQueue(room: Room, now: real, rate: int, maxActive: int, ttl: real, stock: int)
    ensures Admit(room, now, rate, maxActive, ttl, stock).0.queue ==
      room.queue[Taken(room, now, rate, maxActive, stock)..]
  {
  }

  /** A tick takes a prefix of the order: no one left behind precedes anyone admitted. */
  lemma TickTakesPrefix(room: Room, now: real, rate: int, maxActive: int, ttl: real, stock: int, x: Entry, y: Entry)
    requires QueueInv(room) && now >= room.clock && ttl > 0.0
    requires var after := Admit(room, now, rate, maxActive, ttl, stock).0;
      x in room.queue && x !in after.queue && y in after.queue
    ensures x.score < y.score || (x.score == y.score && x.member < y.member)
  {
    TickQueue(room, now, rate, maxActive, ttl, stock);
    PrefixFacts(room.queue, Taken(room, now, rate, maxActive, stock));
  }

  /** Whoever a tick takes holds a session and a key that end together, and is gone from the heartbeats. */
  lemma TakenAreAdmitted(room: Room, now: real, rate: int, maxActive: int, ttl: real, stock: int, u: Member)
    requires QueueInv(room) && now >= room.clock && ttl > 0.0
    requires u in Members(room.queue) && u !in Members(Admit(room, now, rate, maxActive, ttl, stock).0.queue)
    ensures var after := Admit(room, now, rate, maxActive, ttl, stock).0;
      && Entry(now + ttl, u) in after.active && u in Members(after.active)
      && u in after.admitted && after.admitted[u] == now + ttl && u !in Members(after.hb)
  {
    hide Rank, RemoveAll, AddAll, MarkAll, Purge, ZSet, Members, Before;
    var k := Taken(room, now, rate, maxActive, stock);
    var popped := room.queue[..k];
    assert room.queue[0..] == room.queue;
    PurgeFacts(room.active, now);
    PrefixFacts(room.queue, k);
    AddAllFacts(Purge(room.active, now), popped, now + ttl);
    RemoveAllFacts(room.hb, popped);
    MarkAllFacts(room.admitted, popped, now + ttl);
  }

  // ---------- Bounded waiting ----------

  /** What may happen around a waiting user: strictly later joins outside PREQUEUE, and no cleanup of the user. */
  ghost predicate Steady(room: Room, a: Action, u: Member) {
    Timely(room, a) &&
    match a
    case DoJoin(v, now, _) =>
      v == u || (room.status != Some(PreQueue) && (Has(room.queue, u) ==> now > EntryOf(room.queue, u).score))
    case DoLeave(v) => v != u
    case DoCleanup(cutoff, _) => Has(room.hb, u) ==> EntryOf(room.hb, u).score > cutoff
    case _ => true
  }

  ghost predicate SteadyRun(room: Room, actions: seq<Action>, u: Member) {
    actions == [] ||
    (SteadyRun(room, actions[..|actions| - 1], u) &&
      Steady(Run(room, actions[..|actions| - 1]), actions[|actions| - 1], u))
  }

  /** The free places a step offers: those of an admitting tick, none otherwise. */
  function Places(room: Room, a: Action): nat {
    match a
    case DoAdmit(now, rate, maxActive, _, stock) =>
      var slot := Slot(|Purge(room.active, now)|, rate, maxActive, stock);
      if room.status == Some(Opened) && slot > 0 then slot else 0
    case _ => 0
  }

  function PlacesOver(room: Room, actions: seq<Action>): nat {
    if actions == [] then 0
    else
      PlacesOver(room, actions[..|actions| - 1])
      + Places(Run(room, actions[..|actions| - 1]), actions[|actions| - 1])
  }

  /** Some tick of the run took u out of the queue and into a session. */
  ghost predicate AdmittedDuring(room: Room, actions: seq<Action>, u: Member) {
    actions != [] &&
    (AdmittedDuring(room, actions[..|actions| - 1], u) ||
     (actions[|actions| - 1].DoAdmit? &&
      Has(Run(room, actions[..|actions| - 1]).queue, u) && !Has(Run(room, actions).queue, u) &&
      Has(Run(room, actions).active, u)))
  }

  /** An entry inserted behind a member leaves the member's rank alone. */
  lemma InsertBehind(s: seq<Entry>, e: Entry, u: Member)
    requires ZSet(s) && ZSet(Insert(s, e)) && Has(s, u) && Before(EntryOf(s, u), e)
    ensures Rank(Insert(s, e), u) == Rank(s, u)
  {
    hide Rank, ZSet;
    var r := Rank(s, u).value;
    assert Place(s, e) > r;
    assert Insert(s, e)[r] == s[r];
    RankIs(Insert(s, e), r);
  }

  lemma JoinerBehind(room: Room, a: Action, u: Member)
    requires QueueInv(room) && Steady(room, a, u) && a.DoJoin? && Has(room.queue, u)
    ensures Has(Do(room, a).queue, u) && Rank(Do(room, a).queue, u) == Rank(room.queue, u)
  {
    hide Rank, ZSet, Insert, Add, Remove, HasSession;
    var queue, after := room.queue, Do(room, a).queue;
    if after != queue {
      var e := Entry(a.now, a.user);
      assert after == Insert(queue, e) && !Has(queue, a.user);
      HasIff(queue, a.user);
      InsertFacts(queue, e);
      InsertBehind(queue, e, u);
    }
  }

  /** Removing others never pushes anyone back. */
  lemma RemovalAdvances(s: seq<Entry>, v: Member, u: Member)
    requires ZSet(s) && Has(s, u) && v != u
    ensures Has(Remove(s, v), u) && Rank(Remove(s, v), u).value <= Rank(s, u).value
  {
    var r := Remove(s, v);
    RemoveEntries(s, v);
    if Has(s, v) {
      var i, k := Rank(s, u).value, Rank(s, v).value;
      var j := if i < k then i else i - 1;
      assert r[j] == s[i];
      RankIs(r, j);
    }
  }

  lemma {:induction false} RemovalsAdvance(s: seq<Entry>, users: seq<Entry>, u: Member)
    requires ZSet(s) && Has(s, u) && u !in Members(users)
    ensures Has(RemoveAll(s, users), u) && Rank(RemoveAll(s, users), u).value <= Rank(s, u).value
  {
    if users != [] {
      var init, last := users[..|users| - 1], users[|users| - 1];
      LastEntry(users);
      RemovalsAdvance(s, init, u);
      RemoveAllFacts(s, init);
      RemovalAdvances(RemoveAll(s, init), last.member, u);
    }
  }

  lemma CleanupSpares(room: Room, cutoff: real, batch: nat, u: Member)
    requires QueueInv(room) && Has(room.queue, u) && (Has(room.hb, u) ==> EntryOf(room.hb, u).score > cutoff)
    ensures u !in Members(Stale(room, cutoff, batch))
  {
    var stale := Stale(room, cutoff, batch);
    HasIff(room.queue, u);
    HasIff(room.hb, u);
    forall e | e in stale ensures e.member != u {
      var i :| 0 <= i < |stale| && stale[i] == e;
      assert room.hb[i] == e && e in room.hb;
      EntryIs(room.hb, e);
    }
  }

  /** Cutting k entries off the front: the first k members are gone, the others move up by k. */
  lemma CutRank(s: seq<Entry>, k: nat, u: Member)
    requires ZSet(s) && Has(s, u) && k <= |s|
    ensures
      if k > Rank(s, u).value then u !in Members(s[k..])
      else Has(s[k..], u) && Rank(s[k..], u).value == Rank(s, u).value - k
  {
    var r := Rank(s, u).value;
    if k > r {
      PrefixFacts(s, k);
      assert s[..k][r] == s[r] && s[r] in s[..k];
      assert u in Members(s[..k]);
    } else {
      assert s[k..][r - k] == s[r];
      RankIs(s[k..], r - k);
    }
  }

  /** A tick either admits u, or moves u forward by every place it had. */
  lemma TickAdvances(room: Room, a: Action, u: Member)
    requires QueueInv(room) && Timely(room, a) && a.DoAdmit? && Has(room.queue, u)
    ensures
      if Places(room, a) > Rank(room.queue, u).value
      then !Has(Do(room, a).queue, u) && Has(Do(room, a).active, u)
      else Has(Do(room, a).queue, u) && Rank(Do(room, a).queue, u).value + Places(room, a) == Rank(room.queue, u).value
  {
    hide Rank, RemoveAll, AddAll, MarkAll, ZSet, Purge, Members;
    var after := Do(room, a);
    CutRank(room.queue, Taken(room, a.now, a.rate, a.maxActive, a.stock), u);
    TickQueue(room, a.now, a.rate, a.maxActive, a.ttl, a.stock);
    HasIff(room.queue, u);
    HasIff(after.queue, u);
    HasIff(after.active, u);
    if u !in Members(after.queue) {
      TakenAreAdmitted(room, a.now, a.rate, a.maxActive, a.ttl, a.stock, u);
    }
  }

  /** One steady step: u is admitted, or stays queued with its rank and the places offered within the old rank. */
  lemma StepAdvances(room: Room, a: Action, u: Member)
    requires QueueInv(room) && Steady(room, a, u) && Has(room.queue, u)
    ensures
      if a.DoAdmit? && Places(room, a) > Rank(room.queue, u).value
      then !Has(Do(room, a).queue, u) && Has(Do(room, a).active, u)
      else Has(Do(room, a).queue, u) && Rank(Do(room, a).queue, u).value + Places(room, a) <= Rank(room.queue, u).value
  {
    hide Rank, RemoveAll, Remove, AddAll, MarkAll, ZSet, Purge, Insert;
    match a
    case DoJoin(_, _, _) => JoinerBehind(room, a, u);
    case DoAdmit(_, _, _, _, _) => TickAdvances(room, a, u);
    case DoLeave(v) => RemovalAdvances(room.queue, v, u);
    case DoCleanup(cutoff, batch) =>
      CleanupSpares(room, cutoff, batch, u);
      RemovalsAdvance(room.queue, Stale(room, cutoff, batch), u);
    case _ =>
  }

  lemma {:induction false} WaitShrinks(room: Room, actions: seq<Action>, u: Member)
    requires QueueInv(room) && SteadyRun(room, actions, u) && Has(room.queue, u)
    ensures QueueInv(Run(room, actions))
    ensures AdmittedDuring(room, actions, u) ||
      (Has(Run(room, actions).queue, u) &&
       Rank(Run(room, actions).queue, u).value + PlacesOver(room, actions) <= Rank(room.queue, u).value)
  {
    if actions != [] {
      var init, last := actions[..|actions| - 1], actions[|actions| - 1];
      WaitShrinks(room, init, u);
      DoKeeps(Run(room, init), last);
      if !AdmittedDuring(room, init, u) {
        StepAdvances(Run(room, init), last, u);
      }
    }
  }

  /** Step a offers n places: none, or, a tick at OPEN, no more than rate, stock and free places allow. */
  ghost predicate Offers(room: Room, a: Action, n: nat) {
    n == 0 ||
    (a.DoAdmit? && room.status == Some(Opened) &&
     n <= a.rate && n <= a.stock && n <= a.maxActive - LiveSessions(room, a.now))
  }

  ghost predicate OffersOver(room: Room, actions: seq<Action>, offers: seq<nat>) {
    |offers| == |actions| &&
    forall i :: 0 <= i < |actions| ==> Offers(Run(room, actions[..i]), actions[i], offers[i])
  }

  function Sum(offers: seq<nat>): nat {
    if offers == [] then 0 else Sum(offers[..|offers| - 1]) + offers[|offers| - 1]
  }

  lemma OfferIsPlaces(room: Room, a: Action, n: nat)
    requires QueueInv(room) && Timely(room, a) && Offers(room, a, n)
    ensures n <= Places(room, a)
  {
    hide ZSet, Purge, Total;
    if a.DoAdmit? { PurgeSize(room.active, a.now); }
  }

  lemma {:induction false} OffersAreCovered(room: Room, actions: seq<Action>, offers: seq<nat>, u: Member)
    requires QueueInv(room) && SteadyRun(room, actions, u) && OffersOver(room, actions, offers)
    ensures QueueInv(Run(room, actions)) && Sum(offers) <= PlacesOver(room, actions)
  {
    hide Do, Places;
    if actions != [] {
      var n := |actions| - 1;
      assert forall i :: 0 <= i < n ==> actions[..n][..i] == actions[..i] && actions[..n][i] == actions[i];
      OffersAreCovered(room, actions[..n], offers[..n], u);
      DoKeeps(Run(room, actions[..n]), actions[n]);
      assert Offers(Run(room, actions[..n]), actions[n], offers[n]);
      OfferIsPlaces(Run(room, actions[..n]), actions[n], offers[n]);
    }
  }

  /**
    Bounded waiting: from any sound state, a user at rank r (counted from 0) who keeps
    heartbeating and does not leave is admitted no later than the first tick at which the
    places offered since then add up to more than r, whatever else interleaves. A tick at OPEN
    offers as many as its rate, its stock and the places left under maxActive all allow.
  */
  lemma BoundedWaiting(room: Room, actions: seq<Action>, offers: seq<nat>, u: Member)
    requires QueueInv(room) && SteadyRun(room, actions, u) && Has(room.queue, u)
    requires OffersOver(room, actions, offers) && Sum(offers) > Rank(room.queue, u).value
    ensures AdmittedDuring(room, actions, u)
  {
    WaitShrinks(room, actions, u);
    OffersAreCovered(room, actions, offers, u);
  }
}
