/**
  The waiting room as Redis scripts see it: queue, heartbeats, active sessions, `admitted`
  keys and the admission log, and what every run of the scripts keeps. Times are reals, of
  which whole milliseconds are a special case; the clock never runs backwards.
*/
module WaitingQueue {
  import opened Measures
  import opened SortedSets
  import opened Calendar
  import opened AdmissionLog

  /** `admitted` maps a user to the moment the key expires; `clock` is the time of the last script. */
  datatype Room = Room(queue: seq<Entry>, hb: seq<Entry>, active: seq<Entry>, admitted: map<Member, real>,
                       status: Option<QueueStatus>, log: seq<LogEntry>, clock: real)

  datatype JoinCode = Queued | WaitingRoom | AlreadyAdmitted | IsSoldOut | IsClosed | NotOpen

  datatype JoinReply = JoinReply(code: JoinCode, rank: int, added: bool)

  datatype AdmitReason = Admitting | NotOpened | NoStockLeft | Full

  datatype AdmitReply = AdmitReply(admitted: nat, active: nat, reason: AdmitReason, stock: int)

  // ---------- The scripts ----------

  /** The key lives until the clock has passed its end. */
  predicate HasSession(room: Room, u: Member, now: real) {
    u in room.admitted && now <= room.admitted[u] && Has(room.active, u)
  }

  /** join.lua */
  function Join(room: Room, u: Member, now: real, lottery: real): (Room, JoinReply) {
    if room.status.None? || room.status.value == Scheduled then (room, JoinReply(NotOpen, -1, false))
    else if room.status.value == SoldOut then (room, JoinReply(IsSoldOut, -1, false))
    else if room.status.value == Closed then (room, JoinReply(IsClosed, -1, false))
    else if HasSession(room, u, now) then (room, JoinReply(AlreadyAdmitted, -1, false))
    else
      var score := if room.status.value == PreQueue then lottery else now;
      var queue := AddNew(room.queue, Entry(score, u));
      var rank := Rank(queue, u);
      (room.(queue := queue, hb := Add(room.hb, Entry(now, u)), clock := now),
       JoinReply(if room.status.value == PreQueue then WaitingRoom else Queued,
                 if rank.Some? then rank.value else -1, !Has(room.queue, u)))
  }

  /** The write of status.lua: a heartbeat for a queued user, and for nobody else. */
  function Beat(room: Room, u: Member, now: real): Room {
    if Has(room.queue, u) then room.(hb := AddExisting(room.hb, Entry(now, u)), clock := now) else room.(clock := now)
  }

  function AddAll(s: seq<Entry>, users: seq<Entry>, score: real): seq<Entry> {
    if users == [] then s
    else Add(AddAll(s, users[..|users| - 1], score), Entry(score, users[|users| - 1].member))
  }

  function RemoveAll(s: seq<Entry>, users: seq<Entry>): seq<Entry> {
    if users == [] then s else Remove(RemoveAll(s, users[..|users| - 1]), users[|users| - 1].member)
  }

  function MarkAll(admitted: map<Member, real>, users: seq<Entry>, until: real): map<Member, real> {
    if users == [] then admitted
    else MarkAll(admitted, users[..|users| - 1], until)[users[|users| - 1].member := until]
  }

  function Min(a: int, b: int): int {
    if a < b then a else b
  }

  /** The free places of a tick, given the sessions left after the purge. */
  function Slot(active: nat, rate: int, maxActive: int, stock: int): int {
    Min(Min(rate, maxActive - active), stock)
  }

  /** How many leave the queue: `slot` of them, if there are as many. */
  function Taken(room: Room, now: real, rate: int, maxActive: int, stock: int): nat {
    var slot := Slot(|Purge(room.active, now)|, rate, maxActive, stock);
    if room.status != Some(Opened) || stock <= 0 || slot <= 0 then 0 else Min(slot, |room.queue|)
  }

  /** admit.lua; `stock` is the sum over the event's stock keys. */
  function Admit(room: Room, now: real, rate: int, maxActive: int, ttl: real, stock: int): (Room, AdmitReply) {
    var purged := room.(active := Purge(room.active, now), clock := now);
    if room.status != Some(Opened) then (purged, AdmitReply(0, |purged.active|, NotOpened, stock))
    else if stock <= 0 then (purged, AdmitReply(0, |purged.active|, NoStockLeft, stock))
    else if Slot(|purged.active|, rate, maxActive, stock) <= 0
      then (purged, AdmitReply(0, |purged.active|, Full, stock))
    else
      var k := Taken(room, now, rate, maxActive, stock);
      var popped := room.queue[..k];
      (purged.(queue := room.queue[k..],
               active := AddAll(purged.active, popped, now + ttl),
               admitted := MarkAll(room.admitted, popped, now + ttl),
               hb := RemoveAll(room.hb, popped),
               log := LogTick(room.log, now, k)),
       AdmitReply(k, |purged.active| + k, Admitting, stock))
  }

  /** The members a cleanup call finds stale: the oldest heartbeats at or before the cutoff, at most `batch`. */
  function Stale(room: Room, cutoff: real, batch: nat): seq<Entry> {
    room.hb[..Min(CountUpTo(room.hb, cutoff), batch)]
  }

  /** cleanup.lua */
  function Cleanup(room: Room, cutoff: real, batch: nat): (Room, nat) {
    var stale := Stale(room, cutoff, batch);
    (room.(queue := RemoveAll(room.queue, stale), hb := RemoveAll(room.hb, stale)), |stale|)
  }

  /** leaveQueue */
  function Leave(room: Room, u: Member): Room {
    room.(queue := Remove(room.queue, u), hb := Remove(room.hb, u), active := Remove(room.active, u),
          admitted := room.admitted - {u})
  }

  // ---------- Runs ----------

  datatype Action =
    | DoJoin(user: Member, now: real, lottery: real)
    | DoBeat(user: Member, now: real)
    | DoAdmit(now: real, rate: int, maxActive: int, ttl: real, stock: int)
    | DoCleanup(cutoff: real, batch: nat)
    | DoLeave(user: Member)
    | DoStatus(status: QueueStatus)

  /** Times never run backwards and a lottery score lies in [0, 1). */
  predicate Timely(room: Room, a: Action) {
    match a
    case DoJoin(_, now, lottery) => now >= room.clock && 0.0 <= lottery < 1.0
    case DoBeat(_, now) => now >= room.clock
    case DoAdmit(now, _, _, ttl, _) => now >= room.clock && ttl > 0.0
    case _ => true
  }

  function Do(room: Room, a: Action): Room {
    match a
    case DoJoin(u, now, lottery) => Join(room, u, now, lottery).0
    case DoBeat(u, now) => Beat(room, u, now)
    case DoAdmit(now, rate, maxActive, ttl, stock) => Admit(room, now, rate, maxActive, ttl, stock).0
    case DoCleanup(cutoff, batch) => Cleanup(room, cutoff, batch).0
    case DoLeave(u) => Leave(room, u)
    case DoStatus(status) => room.(status := Some(status))
  }

  function Run(room: Room, actions: seq<Action>): Room {
    if actions == [] then room else Do(Run(room, actions[..|actions| - 1]), actions[|actions| - 1])
  }

  predicate TimelyRun(room: Room, actions: seq<Action>) {
    actions == [] ||
    (TimelyRun(room, actions[..|actions| - 1]) && Timely(Run(room, actions[..|actions| - 1]), actions[|actions| - 1]))
  }

  // ---------- Folds over the popped users ----------

  lemma {:induction false} RemoveAllFacts(s: seq<Entry>, users: seq<Entry>)
    requires ZSet(s)
    ensures ZSet(RemoveAll(s, users))
    ensures Members(RemoveAll(s, users)) == Members(s) - Members(users)
    ensures forall e :: e in RemoveAll(s, users) <==> e in s && e.member !in Members(users)
  {
    if users != [] {
      var init, last := users[..|users| - 1], users[|users| - 1];
      LastEntry(users);
      RemoveAllFacts(s, init);
      RemoveFacts(RemoveAll(s, init), last.member);
    }
  }

  lemma {:induction false} AddAllFacts(s: seq<Entry>, users: seq<Entry>, score: real)
    requires ZSet(s)
    ensures ZSet(AddAll(s, users, score))
    ensures Members(AddAll(s, users, score)) == Members(s) + Members(users)
    ensures forall e :: e in AddAll(s, users, score) <==>
      (e.score == score && e.member in Members(users)) || (e in s && e.member !in Members(users))
  {
    if users != [] {
      var init, last := users[..|users| - 1], users[|users| - 1];
      LastEntry(users);
      AddAllFacts(s, init, score);
      AddFacts(AddAll(s, init, score), Entry(score, last.member));
    }
  }

  lemma {:induction false} AddAllSize(s: seq<Entry>, users: seq<Entry>, score: real)
    requires ZSet(s) && ZSet(users) && Members(s) !! Members(users)
    ensures |AddAll(s, users, score)| == |s| + |users|
  {
    if users != [] {
      var init, last := users[..|users| - 1], users[|users| - 1];
      LastEntry(users);
      AddAllSize(s, init, score);
      AddAllFacts(s, init, score);
      AddFacts(AddAll(s, init, score), Entry(score, last.member));
    }
  }

  lemma {:induction false} MarkAllFacts(admitted: map<Member, real>, users: seq<Entry>, until: real)
    ensures MarkAll(admitted, users, until).Keys == admitted.Keys + Members(users)
    ensures forall m :: m in MarkAll(admitted, users, until) ==>
      MarkAll(admitted, users, until)[m] == if m in Members(users) then until else admitted[m]
  {
    if users != [] {
      var init, last := users[..|users| - 1], users[|users| - 1];
      LastEntry(users);
      MarkAllFacts(admitted, init, until);
    }
  }

  // ---------- What every run keeps ----------

  /** A session is live while its score lies ahead of the clock. */
  predicate Live(room: Room, u: Member) {
    Has(room.active, u) && EntryOf(room.active, u).score > room.clock
  }

  ghost predicate QueueInv(room: Room) {
    && ZSet(room.queue) && ZSet(room.hb) && ZSet(room.active)
    // the queue and the heartbeats have the same members
    && Members(room.queue) == Members(room.hb)
    // a session's key expires with it
    && (forall e :: e in room.active ==> e.member in room.admitted && room.admitted[e.member] == e.score)
    // nobody queues with a live session
    && (forall e :: e in room.active && e.member in Members(room.queue) ==> e.score <= room.clock)
    // nothing is stamped in the future
    && (forall e :: e in room.queue ==> e.score <= room.clock)
    && room.clock >= 1.0
  }

  lemma JoinKeeps(room: Room, u: Member, now: real, lottery: real)
    requires QueueInv(room) && now >= room.clock && 0.0 <= lottery < 1.0
    ensures QueueInv(Join(room, u, now, lottery).0)
  {
    hide Add, Insert, Remove, Rank;
    var after := Join(room, u, now, lottery).0;
    if after != room {
      var score := if room.status.value == PreQueue then lottery else now;
      HasIff(room.queue, u);
      if !Has(room.queue, u) { InsertFacts(room.queue, Entry(score, u)); }
      AddFacts(room.hb, Entry(now, u));
      forall e | e in room.active && e.member == u ensures e.score <= now {
        EntryIs(room.active, e);
      }
    }
  }

  lemma BeatKeeps(room: Room, u: Member, now: real)
    requires QueueInv(room) && now >= room.clock
    ensures QueueInv(Beat(room, u, now))
  {
    hide Add, Insert, Remove, Rank;
    AddFacts(room.hb, Entry(now, u));
  }

  lemma LeaveKeeps(room: Room, u: Member)
    requires QueueInv(room)
    ensures QueueInv(Leave(room, u))
  {
    hide Rank, Remove;
    var after := Leave(room, u);
    RemoveFacts(room.queue, u);
    RemoveFacts(room.hb, u);
    RemoveFacts(room.active, u);
  }

  lemma CleanupKeeps(room: Room, cutoff: real, batch: nat)
    requires QueueInv(room)
    ensures QueueInv(Cleanup(room, cutoff, batch).0)
  {
    hide Rank, RemoveAll;
    var after := Cleanup(room, cutoff, batch).0;
    RemoveAllFacts(room.queue, Stale(room, cutoff, batch));
    RemoveAllFacts(room.hb, Stale(room, cutoff, batch));
  }

  /** After the purge nobody is both queued and active, so the popped users are all new to the sessions. */
  lemma PurgeSeparates(room: Room, now: real)
    requires QueueInv(room) && now >= room.clock
    ensures ZSet(Purge(room.active, now))
    ensures Members(Purge(room.active, now)) !! Members(room.queue)
  {
    PurgeFacts(room.active, now);
  }

  lemma PrefixFacts(s: seq<Entry>, k: nat)
    requires ZSet(s) && k <= |s|
    ensures ZSet(s[..k]) && ZSet(s[k..])
    ensures forall e :: e in s <==> e in s[..k] || e in s[k..]
    ensures Members(s) == Members(s[..k]) + Members(s[k..]) && Members(s[..k]) !! Members(s[k..])
    ensures forall x, y :: x in s[..k] && y in s[k..] ==> Before(x, y)
  {
    assert s == s[..k] + s[k..];
    forall x, y | x in s[..k] && y in s[k..] ensures Before(x, y) && x.member != y.member {
      var i :| 0 <= i < k && s[i] == x;
      var j :| 0 <= j < |s| - k && s[k..][j] == y;
      assert s[k + j] == y;
    }
  }

  lemma AdmitKeeps(room: Room, now: real, rate: int, maxActive: int, ttl: real, stock: int)
    requires QueueInv(room) && now >= room.clock && ttl > 0.0
    ensures QueueInv(Admit(room, now, rate, maxActive, ttl, stock).0)
  {
    hide ZSet, Members, Purge, Rank, RemoveAll, AddAll, MarkAll, LogTick;
    var after := Admit(room, now, rate, maxActive, ttl, stock).0;
    var k := Taken(room, now, rate, maxActive, stock);
    var popped := room.queue[..k];
    var purged := Purge(room.active, now);
    PurgeFacts(room.active, now);
    PurgeSeparates(room, now);
    PrefixFacts(room.queue, k);
    AddAllFacts(purged, popped, now + ttl);
    RemoveAllFacts(room.hb, popped);
    MarkAllFacts(room.admitted, popped, now + ttl);
  }

  lemma DoKeeps(room: Room, a: Action)
    requires QueueInv(room) && Timely(room, a)
    ensures QueueInv(Do(room, a))
  {
    match a
    case DoJoin(u, now, lottery) => JoinKeeps(room, u, now, lottery);
    case DoBeat(u, now) => BeatKeeps(room, u, now);
    case DoAdmit(now, rate, maxActive, ttl, stock) => AdmitKeeps(room, now, rate, maxActive, ttl, stock);
    case DoCleanup(cutoff, batch) => CleanupKeeps(room, cutoff, batch);
    case DoLeave(u) => LeaveKeeps(room, u);
    case DoStatus(_) =>
  }

  ghost predicate EmptyRoom(room: Room) {
    room.queue == [] && room.hb == [] && room.active == [] && room.admitted == map[] && room.log == [] &&
      room.clock >= 1.0
  }

  /** Over every run from an empty room, whoever runs the scripts and however many think they lead. */
  lemma {:induction false} AlwaysSound(room: Room, actions: seq<Action>)
    requires EmptyRoom(room) && TimelyRun(room, actions)
    ensures QueueInv(Run(room, actions))
    ensures forall u :: Has(Run(room, actions).queue, u) ==> !Live(Run(room, actions), u)
  {
    if actions != [] {
      AlwaysSound(room, actions[..|actions| - 1]);
      DoKeeps(Run(room, actions[..|actions| - 1]), actions[|actions| - 1]);
    }
    var now := Run(room, actions);
    forall u | Has(now.queue, u) ensures !Live(now, u) {
      HasIff(now.queue, u);
      HasIff(now.active, u);
    }
  }

  // ---------- The number of sessions ----------

  /** The reply's count is the real number of sessions, and a tick never lifts it past maxActive. */
  lemma AdmitCounts(room: Room, now: real, rate: int, maxActive: int, ttl: real, stock: int)
    requires QueueInv(room) && now >= room.clock && ttl > 0.0
    ensures var (after, reply) := Admit(room, now, rate, maxActive, ttl, stock);
      && reply.active == |after.active|
      && reply.admitted == |room.queue| - |after.queue| == Taken(room, now, rate, maxActive, stock)
      && (|after.active| <= |room.active| || |after.active| <= maxActive)
  {
    hide ZSet, Members, AddAll, RemoveAll, MarkAll, LogTick;
    var k := Taken(room, now, rate, maxActive, stock);
    PurgeSeparates(room, now);
    PrefixFacts(room.queue, k);
    AddAllSize(Purge(room.active, now), room.queue[..k], now + ttl);
  }

  /** A session counts until its end has come. */
  function LiveAt(now: real): Entry -> int {
    (e: Entry) => if e.score > now then 1 else 0
  }

  function LiveSessions(room: Room, now: real): int {
    Total(room.active, LiveAt(now))
  }

  lemma PurgeSize(s: seq<Entry>, now: real)
    requires ZSet(s)
    ensures |Purge(s, now)| == Total(s, LiveAt(now))
  {
    var k := CountUpTo(s, now);
    assert s == s[..k] + s[k..];
    TotalConcat(s[..k], s[k..], LiveAt(now));
    TotalZero(s[..k], LiveAt(now));
    forall i | 0 <= i < |s[k..]| ensures LiveAt(now)(s[k..][i]) == 1 {
      assert i > 0 ==> Before(s[k], s[k + i]);
    }
    TotalCount(s[k..], LiveAt(now));
  }

  /**
    How many a tick admits, exactly, and why none. At OPEN with stock and free places it admits
    as many as the rate, the stock, the free places and the queue all allow; otherwise nobody.
  */
  lemma AdmitsExactly(room: Room, now: real, rate: int, maxActive: int, ttl: real, stock: int)
    requires QueueInv(room) && now >= room.clock && ttl > 0.0
    ensures var (after, reply) := Admit(room, now, rate, maxActive, ttl, stock);
      var n, live := reply.admitted, LiveSessions(room, now);
      && n <= |room.queue| && after.queue == room.queue[n..]
      && (n > 0 ==> room.status == Some(Opened) && n <= rate && n <= stock && live + n <= maxActive)
      && (room.status == Some(Opened) && rate > 0 && stock > 0 && live < maxActive ==>
           n == rate || n == stock || live + n == maxActive || n == |room.queue|)
      && reply.active == |after.active| == live + n && reply.stock == stock
      && (reply.reason == NotOpened <==> room.status != Some(Opened))
      && (reply.reason == NoStockLeft <==> room.status == Some(Opened) && stock <= 0)
      && (reply.reason == Full <==> room.status == Some(Opened) && stock > 0 && (rate <= 0 || live >= maxActive))
      && (after.log == if reply.reason == Admitting then LogTick(room.log, now, n) else room.log)
      && after.status == room.status && after.clock == now
  {
    hide ZSet, Members, AddAll, RemoveAll, MarkAll, LogTick, Purge, Total;
    AdmitCounts(room, now, rate, maxActive, ttl, stock);
    PurgeSize(room.active, now);
    PurgeSeparates(room, now);
    PrefixFacts(room.queue, Taken(room, now, rate, maxActive, stock));
    AddAllSize(Purge(room.active, now), room.queue[..Taken(room, now, rate, maxActive, stock)], now + ttl);
  }

  /**
    Where everyone is after a tick: the admitted have a session and a key that end together and
    no heartbeat, sessions that have ended are gone, and everyone else is as before.
  */
  lemma AdmitMoves(room: Room, now: real, rate: int, maxActive: int, ttl: real, stock: int)
    requires QueueInv(room) && now >= room.clock && ttl > 0.0
    ensures var (after, reply) := Admit(room, now, rate, maxActive, ttl, stock);
      reply.admitted <= |room.queue| &&
      var taken := Members(room.queue[..reply.admitted]);
      && (forall e :: e in after.active <==>
           ((e in room.active && e.score > now) || (e.score == now + ttl && e.member in taken)))
      && (forall e :: e in after.hb <==> (e in room.hb && e.member !in taken))
      && after.admitted.Keys == room.admitted.Keys + taken
      && (forall m :: m in after.admitted ==> after.admitted[m] == if m in taken then now + ttl else room.admitted[m])
  {
    hide ZSet, Members, Purge, Rank, RemoveAll, AddAll, MarkAll, LogTick;
    var k := Taken(room, now, rate, maxActive, stock);
    var popped := room.queue[..k];
    AdmitCounts(room, now, rate, maxActive, ttl, stock);
    PurgeFacts(room.active, now);
    PurgeSeparates(room, now);
    PrefixFacts(room.queue, k);
    AddAllFacts(Purge(room.active, now), popped, now + ttl);
    RemoveAllFacts(room.hb, popped);
    MarkAllFacts(room.admitted, popped, now + ttl);
    MembersOf(Purge(room.active, now));
  }

  lemma MembersOf(s: seq<Entry>)
    ensures forall e :: e in s ==> e.member in Members(s)
  {
  }

  /** The users that the ticks of a run have taken out of the queue. */
  function AdmittedOver(room: Room, actions: seq<Action>): int {
    if actions == [] then 0
    else
      var before, last := Run(room, actions[..|actions| - 1]), actions[|actions| - 1];
      AdmittedOver(room, actions[..|actions| - 1])
      + (if last.DoAdmit? then |before.queue| - |Do(before, last).queue| else 0)
  }

  function RateOf(): Action -> int {
    (a: Action) => if a.DoAdmit? && a.rate > 0 then a.rate else 0
  }

  /** Over every run, no more users are admitted than the rates of its ticks add up to. */
  lemma {:induction false} NeverOverRate(room: Room, actions: seq<Action>)
    requires EmptyRoom(room) && TimelyRun(room, actions)
    ensures 0 <= AdmittedOver(room, actions) <= Total(actions, RateOf())
  {
    hide Do;
    if actions != [] {
      var init, last := actions[..|actions| - 1], actions[|actions| - 1];
      NeverOverRate(room, init);
      AlwaysSound(room, init);
      if last.DoAdmit? {
        AdmitsExactly(Run(room, init), last.now, last.rate, last.maxActive, last.ttl, last.stock);
        AdmitIs(Run(room, init), last);
      }
    }
  }

  lemma AdmitIs(room: Room, a: Action)
    requires a.DoAdmit?
    ensures Do(room, a) == Admit(room, a.now, a.rate, a.maxActive, a.ttl, a.stock).0
  {
    hide Admit;
  }

  // ---------- Joining and staying ----------

  /**
    A join in full. The status decides first, then a running session; whoever passes is queued
    once, by lot before the sale opens and by time after, has a heartbeat of this moment, and
    is told the place where they stand.
  */
  lemma JoinsExactly(room: Room, u: Member, now: real, lottery: real)
    requires QueueInv(room) && now >= room.clock && 0.0 <= lottery < 1.0
    ensures var (after, reply) := Join(room, u, now, lottery);
      var live := u in room.admitted && now <= room.admitted[u] && u in Members(room.active);
      var open := room.status in {Some(PreQueue), Some(Opened), Some(Paused)};
      && (reply.code == NotOpen <==> room.status in {None, Some(Scheduled)})
      && (reply.code == IsSoldOut <==> room.status == Some(SoldOut))
      && (reply.code == IsClosed <==> room.status == Some(Closed))
      && (reply.code == AlreadyAdmitted <==> open && live)
      && (reply.code == WaitingRoom <==> room.status == Some(PreQueue) && !live)
      && (reply.code == Queued <==> room.status in {Some(Opened), Some(Paused)} && !live)
      && (!open || live ==> after == room && reply.rank == -1 && !reply.added)
      && (open && !live ==>
           && after == room.(queue := after.queue, hb := after.hb, clock := now)
           && (reply.added <==> u !in Members(room.queue))
           && (forall e :: e in after.queue <==>
                e in room.queue
                || (reply.added && e == Entry(if room.status == Some(PreQueue) then lottery else now, u)))
           && (forall e :: e in after.hb <==> (e in room.hb && e.member != u) || e == Entry(now, u))
           && 0 <= reply.rank < |after.queue| && after.queue[reply.rank].member == u)
  {
    hide Add, Insert, Remove, ZSet;
    HasIff(room.active, u);
    HasIff(room.queue, u);
    AddFacts(room.hb, Entry(now, u));
    var e := Entry(if room.status == Some(PreQueue) then lottery else now, u);
    if !Has(room.queue, u) { InsertFacts(room.queue, e); }
    HasIff(AddNew(room.queue, e), u);
  }

  /** A look at the status refreshes the heartbeat of a queued user and never adds one. */
  lemma BeatsExactly(room: Room, u: Member, now: real)
    requires ZSet(room.hb)
    ensures var after := Beat(room, u, now);
      && after == room.(hb := after.hb, clock := now)
      && Members(after.hb) == Members(room.hb)
      && (forall e :: e in after.hb <==>
           (if u in Members(room.queue) && u in Members(room.hb)
            then (e in room.hb && e.member != u) || e == Entry(now, u) else e in room.hb))
      && (QueueInv(room) ==> (u in Members(room.queue) <==> u in Members(room.hb)))
  {
    hide Add, Insert, Remove, ZSet, Rank;
    HasIff(room.queue, u);
    HasIff(room.hb, u);
    AddFacts(room.hb, Entry(now, u));
  }

  lemma ActiveShrinks(room: Room, a: Action)
    requires QueueInv(room) && !a.DoAdmit?
    ensures |Do(room, a).active| <= |room.active|
  {
    if a.DoLeave? { RemoveFacts(room.active, a.user); }
  }

  /**
    While every tick uses at most `max`, there are never more than `max` sessions, with any number
    of would-be leaders.
  */
  lemma {:induction false} NeverOverMaxActive(room: Room, actions: seq<Action>, max: nat)
    requires EmptyRoom(room) && TimelyRun(room, actions)
    requires forall i :: 0 <= i < |actions| && actions[i].DoAdmit? ==> actions[i].maxActive <= max
    ensures |Run(room, actions).active| <= max
  {
    if actions != [] {
      var init, last := actions[..|actions| - 1], actions[|actions| - 1];
      NeverOverMaxActive(room, init, max);
      AlwaysSound(room, init);
      match last
      case DoAdmit(now, rate, maxActive, ttl, stock) => AdmitCounts(Run(room, init), now, rate, maxActive, ttl, stock);
      case _ => ActiveShrinks(Run(room, init), last);
    }
  }
}
