/** The sliding-window limiter over pruned, expiring logs, against the full history of requests. */
module RateLimit {
  import opened Measures

  type Key = string
  type Member = nat

  datatype Stamp = Stamp(at: int, member: Member)

  /** One sorted set, oldest first; the key is gone once the clock has passed `expiresAt`. */
  datatype Log = Log(stamps: seq<Stamp>, expiresAt: int)

  type Logs = map<Key, Log>

  datatype Rule = Rule(key: Key, window: int, limit: int)

  datatype Request = Request(now: int, member: Member, rules: seq<Rule>)

  /** `blocked` is the 1-based rule that blocks, 0 if none. */
  datatype Reply = Reply(blocked: nat, retry: int)

  // ---------- ratelimit.lua ----------

  function Fetch(logs: Logs, k: Key, now: int): seq<Stamp> {
    if k in logs && now <= logs[k].expiresAt then logs[k].stamps else []
  }

  /** The stamps later than `bound`. */
  function Prune(s: seq<Stamp>, bound: int): seq<Stamp> {
    if s == [] then []
    else
      var rest := Prune(s[..|s| - 1], bound);
      if s[|s| - 1].at <= bound then rest else rest + [s[|s| - 1]]
  }

  function Without(s: seq<Stamp>, m: Member): seq<Stamp> {
    if s == [] then []
    else
      var rest := Without(s[..|s| - 1], m);
      if s[|s| - 1].member == m then rest else rest + [s[|s| - 1]]
  }

  /** ZREMRANGEBYSCORE; an empty set is no key. */
  function PruneKey(logs: Logs, k: Key, bound: int, now: int): Logs {
    var kept := Prune(Fetch(logs, k, now), bound);
    if kept == [] then logs - {k} else logs[k := Log(kept, logs[k].expiresAt)]
  }

  function Wait(live: seq<Stamp>, window: int, now: int): int {
    var wait := if live == [] then window else live[0].at + window - now;
    if wait < 1 then 1 else wait
  }

  /** The first loop: prune every key and keep the longest wait of a full rule. */
  function Scan(logs: Logs, rules: seq<Rule>, now: int): (Logs, Reply) {
    if rules == [] then (logs, Reply(0, 0))
    else
      var (before, reply) := Scan(logs, rules[..|rules| - 1], now);
      var rule := rules[|rules| - 1];
      var after := PruneKey(before, rule.key, now - rule.window, now);
      var live := Fetch(after, rule.key, now);
      var wait := Wait(live, rule.window, now);
      (after, if |live| >= rule.limit && wait > reply.retry then Reply(|rules|, wait) else reply)
  }

  /** The second loop: stamp every key and renew its life. */
  function Record(logs: Logs, rules: seq<Rule>, now: int, m: Member): Logs {
    if rules == [] then logs
    else
      var before := Record(logs, rules[..|rules| - 1], now, m);
      var rule := rules[|rules| - 1];
      before[rule.key := Log(Without(Fetch(before, rule.key, now), m) + [Stamp(now, m)], now + rule.window)]
  }

  function Checked(logs: Logs, r: Request): (Logs, Reply) {
    var (scanned, reply) := Scan(logs, r.rules, r.now);
    if reply.blocked > 0 then (scanned, reply) else (Record(scanned, r.rules, r.now, r.member), Reply(0, 0))
  }

  class Limiter {
    var logs: Logs

    method ScanRules(rules: seq<Rule>, now: int) returns (blocked: nat, retry: int)
      modifies this
      ensures (logs, Reply(blocked, retry)) == Scan(old(logs), rules, now)
    {
      hide PruneKey, Fetch;
      blocked, retry := 0, 0;
      for i := 0 to |rules|
        invariant (logs, Reply(blocked, retry)) == Scan(old(logs), rules[..i], now)
      {
        assert rules[..i + 1][..i] == rules[..i];
        var rule := rules[i];
        logs := PruneKey(logs, rule.key, now - rule.window, now);
        var live := Fetch(logs, rule.key, now);
        if |live| >= rule.limit {
          var wait := rule.window;
          if live != [] { wait := live[0].at + rule.window - now; }
          if wait < 1 { wait := 1; }
          if wait > retry {
            retry := wait;
            blocked := i + 1;
          }
        }
      }
      assert rules[..|rules|] == rules;
    }

    method RecordRules(rules: seq<Rule>, now: int, m: Member)
      modifies this
      ensures logs == Record(old(logs), rules, now, m)
    {
      hide Fetch, Without;
      for i := 0 to |rules|
        invariant logs == Record(old(logs), rules[..i], now, m)
      {
        assert rules[..i + 1][..i] == rules[..i];
        var rule := rules[i];
        var stamps := Without(Fetch(logs, rule.key, now), m);
        logs := logs[rule.key := Log(stamps + [Stamp(now, m)], now + rule.window)];
      }
      assert rules[..|rules|] == rules;
    }

    /** All rules are checked before any is recorded. */
    method Check(r: Request) returns (reply: Reply)
      modifies this
      ensures (logs, reply) == Checked(old(logs), r)
    {
      hide Scan, Record;
      var blocked, retry := ScanRules(r.rules, r.now);
      if blocked > 0 { return Reply(blocked, retry); }
      RecordRules(r.rules, r.now, r.member);
      reply := Reply(0, 0);
    }
  }

  // ---------- The full history ----------

  datatype Call = Call(request: Request, accepted: bool)

  predicate Covers(rules: seq<Rule>, k: Key) {
    exists i :: 0 <= i < |rules| && rules[i].key == k
  }

  /** Every request ever accepted under key k, oldest first. */
  function Accepts(history: seq<Call>, k: Key): seq<Stamp> {
    if history == [] then []
    else
      var c := history[|history| - 1];
      var rest := Accepts(history[..|history| - 1], k);
      if c.accepted && Covers(c.request.rules, k) then rest + [Stamp(c.request.now, c.request.member)] else rest
  }

  /** The rule as promised: fewer than `limit` accepted requests in (now - window, now], under every key. */
  predicate Allowed(history: seq<Call>, rules: seq<Rule>, now: int) {
    forall i :: 0 <= i < |rules| ==> |Prune(Accepts(history, rules[i].key), now - rules[i].window)| < rules[i].limit
  }

  /** The history that the promise alone would produce. */
  function HistoryOf(requests: seq<Request>): seq<Call> {
    if requests == [] then []
    else
      var before := HistoryOf(requests[..|requests| - 1]);
      var r := requests[|requests| - 1];
      before + [Call(r, Allowed(before, r.rules, r.now))]
  }

  /** The logs that the script leaves. */
  function LogsAfter(requests: seq<Request>): Logs {
    if requests == [] then map[]
    else Checked(LogsAfter(requests[..|requests| - 1]), requests[|requests| - 1]).0
  }

  /** Windows and limits are fixed per key, and the keys of one request are distinct. */
  predicate RulesOk(rules: seq<Rule>, win: Key -> int, lim: Key -> int) {
    (forall i :: 0 <= i < |rules| ==> rules[i].window == win(rules[i].key) && rules[i].limit == lim(rules[i].key)) &&
    (forall i, j :: 0 <= i < j < |rules| ==> rules[i].key != rules[j].key)
  }

  /** Times never run backwards and every request has its own member. */
  ghost predicate Proper(requests: seq<Request>, win: Key -> int, lim: Key -> int) {
    requests == [] ||
    var init, r := requests[..|requests| - 1], requests[|requests| - 1];
    Proper(init, win, lim) && RulesOk(r.rules, win, lim) &&
    (init != [] ==> init[|init| - 1].now <= r.now) &&
    (forall i :: 0 <= i < |init| ==> init[i].member != r.member)
  }

  // ---------- Pruning ----------

  lemma {:induction false} PruneTwice(s: seq<Stamp>, a: int, b: int)
    requires a <= b
    ensures Prune(Prune(s, a), b) == Prune(s, b)
  {
    if s != [] {
      var init, last := s[..|s| - 1], s[|s| - 1];
      PruneTwice(init, a, b);
      if last.at > a {
        assert (Prune(init, a) + [last])[..|Prune(init, a)|] == Prune(init, a);
      }
    }
  }

  lemma PruneAppend(s: seq<Stamp>, x: Stamp, bound: int)
    ensures Prune(s + [x], bound) == if x.at <= bound then Prune(s, bound) else Prune(s, bound) + [x]
  {
    assert (s + [x])[..|s|] == s;
  }

  lemma {:induction false} PruneEmpty(s: seq<Stamp>, bound: int)
    requires forall x :: x in s ==> x.at <= bound
    ensures Prune(s, bound) == []
  {
    if s != [] {
      assert s[|s| - 1] in s;
      PruneEmpty(s[..|s| - 1], bound);
    }
  }

  lemma {:induction false} PruneMembers(s: seq<Stamp>, bound: int)
    ensures forall x :: x in Prune(s, bound) <==> x in s && x.at > bound
    ensures |Prune(s, bound)| <= |s|
  {
    if s != [] {
      PruneMembers(s[..|s| - 1], bound);
      assert s == s[..|s| - 1] + [s[|s| - 1]];
    }
  }

  lemma {:induction false} PruneShrinks(s: seq<Stamp>, a: int, b: int)
    requires a <= b
    ensures |Prune(s, b)| <= |Prune(s, a)|
  {
    PruneTwice(s, a, b);
    PruneMembers(Prune(s, a), b);
  }

  lemma {:induction false} WithoutFresh(s: seq<Stamp>, m: Member)
    requires forall x :: x in s ==> x.member != m
    ensures Without(s, m) == s
  {
    if s != [] {
      assert s[|s| - 1] in s;
      WithoutFresh(s[..|s| - 1], m);
    }
  }

  // ---------- What a key shows ----------

  /** The live part of a key at time t: what the next script would find after its prune. */
  function View(logs: Logs, k: Key, window: int, t: int): seq<Stamp> {
    Prune(Fetch(logs, k, t), t - window)
  }

  /** Pruning at `now` changes nothing that any later script could see. */
  lemma PruneKeyView(logs: Logs, k: Key, now: int, k': Key, win: Key -> int, t: int)
    requires now <= t
    ensures View(PruneKey(logs, k, now - win(k), now), k', win(k'), t) == View(logs, k', win(k'), t)
    ensures Fetch(PruneKey(logs, k, now - win(k), now), k, now) == View(logs, k, win(k), now)
  {
    hide Prune;
    var s := Fetch(logs, k, now);
    PruneTwice(s, now - win(k), t - win(k));
    PruneTwice(s, now - win(k), now - win(k));
    PruneEmpty([], t - win(k));
    PruneEmpty([], now - win(k));
  }

  lemma {:induction false} ScanView(logs: Logs, rules: seq<Rule>, now: int, k: Key, win: Key -> int, t: int)
    requires now <= t && forall i :: 0 <= i < |rules| ==> rules[i].window == win(rules[i].key)
    ensures View(Scan(logs, rules, now).0, k, win(k), t) == View(logs, k, win(k), t)
  {
    hide View, PruneKey, Fetch, Wait;
    if rules != [] {
      ScanView(logs, rules[..|rules| - 1], now, k, win, t);
      PruneKeyView(Scan(logs, rules[..|rules| - 1], now).0, rules[|rules| - 1].key, now, k, win, t);
    }
  }

  predicate FullRule(logs: Logs, rule: Rule, now: int) {
    |View(logs, rule.key, rule.window, now)| >= rule.limit
  }

  function RuleWait(logs: Logs, rule: Rule, now: int): int {
    Wait(View(logs, rule.key, rule.window, now), rule.window, now)
  }

  /** The scan's reply: the first of the full rules with the longest wait, if any rule is full. */
  lemma {:induction false} ScanReply(logs: Logs, rules: seq<Rule>, now: int, win: Key -> int)
    requires forall i :: 0 <= i < |rules| ==> rules[i].window == win(rules[i].key)
    ensures var reply := Scan(logs, rules, now).1;
      && (reply.blocked == 0 <==> forall i :: 0 <= i < |rules| ==> !FullRule(logs, rules[i], now))
      && (reply.blocked == 0 ==> reply.retry == 0)
      && (reply.blocked > 0 ==>
           && reply.blocked <= |rules| && FullRule(logs, rules[reply.blocked - 1], now)
           && reply.retry == RuleWait(logs, rules[reply.blocked - 1], now) >= 1)
      && (forall i :: 0 <= i < |rules| && FullRule(logs, rules[i], now) ==>
        RuleWait(logs, rules[i], now) <= reply.retry)
      && (forall i :: 0 <= i < reply.blocked - 1 && FullRule(logs, rules[i], now) ==>
        RuleWait(logs, rules[i], now) < reply.retry)
  {
    hide Prune, Fetch, PruneKey;
    if rules != [] {
      var init, rule := rules[..|rules| - 1], rules[|rules| - 1];
      ScanReply(logs, init, now, win);
      ScanView(logs, init, now, rule.key, win, now);
      PruneKeyView(Scan(logs, init, now).0, rule.key, now, rule.key, win, now);
      assert forall i :: 0 <= i < |init| ==> init[i] == rules[i];
    }
  }

  // ---------- The script refines the history ----------

  /** Every key shows, now and at any later time, exactly the accepted requests of its window. */
  ghost predicate Shows(logs: Logs, history: seq<Call>, win: Key -> int, now: int) {
    forall k, t :: now <= t ==> View(logs, k, win(k), t) == Prune(Accepts(history, k), t - win(k))
  }

  lemma {:induction false} AcceptsFacts(history: seq<Call>, k: Key, x: Stamp)
    requires x in Accepts(history, k)
    ensures exists i :: 0 <= i < |history| && x == Stamp(history[i].request.now, history[i].request.member)
  {
    var n := |history| - 1;
    if x in Accepts(history[..n], k) {
      AcceptsFacts(history[..n], k, x);
      var i :| 0 <= i < n && x == Stamp(history[..n][i].request.now, history[..n][i].request.member);
      assert history[i] == history[..n][i];
    } else {
      assert x == Stamp(history[n].request.now, history[n].request.member);
    }
  }

  /** The requests of the history are the requests of the run, in order. */
  lemma {:induction false} HistoryRequests(requests: seq<Request>)
    ensures |HistoryOf(requests)| == |requests|
    ensures forall i :: 0 <= i < |requests| ==> HistoryOf(requests)[i].request == requests[i]
  {
    if requests != [] {
      HistoryRequests(requests[..|requests| - 1]);
    }
  }

  lemma {:induction false} TimesGrow(requests: seq<Request>, win: Key -> int, lim: Key -> int)
    requires Proper(requests, win, lim) && requests != []
    ensures forall i :: 0 <= i < |requests| ==> requests[i].now <= requests[|requests| - 1].now
  {
    var init := requests[..|requests| - 1];
    if init != [] {
      TimesGrow(init, win, lim);
      assert forall i :: 0 <= i < |init| ==> requests[i] == init[i];
    }
  }

  /** A new request is later than, or as late as, every accepted one, and its member is new. */
  lemma AcceptsAreOld(requests: seq<Request>, win: Key -> int, lim: Key -> int, k: Key)
    requires Proper(requests, win, lim) && requests != []
    ensures var init, r := requests[..|requests| - 1], requests[|requests| - 1];
      forall x :: x in Accepts(HistoryOf(init), k) ==> x.at <= r.now && x.member != r.member
  {
    var init, r := requests[..|requests| - 1], requests[|requests| - 1];
    TimesGrow(requests, win, lim);
    HistoryRequests(init);
    forall x | x in Accepts(HistoryOf(init), k) ensures x.at <= r.now && x.member != r.member {
      AcceptsFacts(HistoryOf(init), k, x);
      var i :| 0 <= i < |HistoryOf(init)| &&
        x == Stamp(HistoryOf(init)[i].request.now, HistoryOf(init)[i].request.member);
      assert requests[i] == init[i];
    }
  }

  /** Keys that a record does not cover keep what they hold. */
  lemma {:induction false} RecordOther(logs: Logs, rules: seq<Rule>, now: int, m: Member, k: Key)
    requires !Covers(rules, k)
    ensures k in Record(logs, rules, now, m) <==> k in logs
    ensures k in logs ==> Record(logs, rules, now, m)[k] == logs[k]
  {
    hide Fetch, Without;
    if rules != [] {
      var n := |rules| - 1;
      assert forall i :: 0 <= i < n ==> rules[..n][i] == rules[i];
      RecordOther(logs, rules[..n], now, m, k);
    }
  }

  /** A covered key is stamped once and lives for one window more. */
  lemma {:induction false} RecordCovered(logs: Logs, rules: seq<Rule>, now: int, m: Member, j: nat)
    requires j < |rules| && forall a, b :: 0 <= a < b < |rules| ==> rules[a].key != rules[b].key
    ensures rules[j].key in Record(logs, rules, now, m)
    ensures Record(logs, rules, now, m)[rules[j].key] ==
      Log(Without(Fetch(logs, rules[j].key, now), m) + [Stamp(now, m)], now + rules[j].window)
  {
    hide Without;
    var n := |rules| - 1;
    assert forall i :: 0 <= i < n ==> rules[..n][i] == rules[i];
    if j == n {
      assert !Covers(rules[..n], rules[j].key);
      RecordOther(logs, rules[..n], now, m, rules[j].key);
    } else {
      RecordCovered(logs, rules[..n], now, m, j);
    }
  }

  /** After an accepted request, a covered key shows what it showed and the new stamp, until the window has passed. */
  lemma RecordView(logs: Logs, rules: seq<Rule>, now: int, m: Member, k: Key, accepts: seq<Stamp>, win: Key -> int,
    lim: Key -> int, t: int)
    requires RulesOk(rules, win, lim) && now <= t
    requires View(logs, k, win(k), now) == Prune(accepts, now - win(k))
    requires View(logs, k, win(k), t) == Prune(accepts, t - win(k))
    requires forall x :: x in accepts ==> x.at <= now && x.member != m
    requires forall x :: x in Fetch(logs, k, now) ==> x.at <= now && x.member != m
    ensures View(Record(logs, rules, now, m), k, win(k), t)
         == Prune(if Covers(rules, k) then accepts + [Stamp(now, m)] else accepts, t - win(k))
  {
    hide Prune, Without, Record;
    if Covers(rules, k) {
      var j :| 0 <= j < |rules| && rules[j].key == k;
      RecordCovered(logs, rules, now, m, j);
      var held := Fetch(logs, k, now);
      WithoutFresh(held, m);
      PruneAppend(held, Stamp(now, m), t - win(k));
      PruneAppend(accepts, Stamp(now, m), t - win(k));
      PruneTwice(held, now - win(k), t - win(k));
      PruneTwice(accepts, now - win(k), t - win(k));
      PruneEmpty([], t - win(k));
      if t >= now + win(k) { PruneEmpty(accepts, t - win(k)); }
    } else {
      RecordOther(logs, rules, now, m, k);
    }
  }

  /** After the scan, a key of the request holds exactly what it showed. */
  lemma {:induction false} ScanFetch(logs: Logs, rules: seq<Rule>, now: int, win: Key -> int, lim: Key -> int, j: nat)
    requires RulesOk(rules, win, lim) && j < |rules|
    ensures Fetch(Scan(logs, rules, now).0, rules[j].key, now) == View(logs, rules[j].key, win(rules[j].key), now)
  {
    hide Prune, PruneKey, Fetch, View, Wait;
    var n := |rules| - 1;
    var before := Scan(logs, rules[..n], now).0;
    assert forall i :: 0 <= i < n ==> rules[..n][i] == rules[i];
    if j == n {
      ScanView(logs, rules[..n], now, rules[j].key, win, now);
      PruneKeyView(before, rules[j].key, now, rules[j].key, win, now);
    } else {
      ScanFetch(logs, rules[..n], now, win, lim, j);
      PruneKeyOther(before, rules[n].key, now - rules[n].window, now, rules[j].key);
    }
  }

  lemma PruneKeyOther(logs: Logs, k: Key, bound: int, now: int, k': Key)
    requires k != k'
    ensures Fetch(PruneKey(logs, k, bound, now), k', now) == Fetch(logs, k', now)
  {
  }

  lemma FetchSame(a: Logs, b: Logs, k: Key, t: int)
    requires (k in a <==> k in b) && (k in a ==> a[k] == b[k])
    ensures Fetch(a, k, t) == Fetch(b, k, t)
  {
  }

  /** The state before a request at r.now, as that request and all later ones will see it. */
  lemma StepShows(logs: Logs, history: seq<Call>, r: Request, win: Key -> int, lim: Key -> int, k: Key, t: int)
    requires RulesOk(r.rules, win, lim) && r.now <= t
    requires View(logs, k, win(k), t) == Prune(Accepts(history, k), t - win(k))
    requires View(logs, k, win(k), r.now) == Prune(Accepts(history, k), r.now - win(k))
    requires forall x :: x in Accepts(history, k) ==> x.at <= r.now && x.member != r.member
    ensures var (after, reply) := Checked(logs, r);
      View(after, k, win(k), t) == Prune(Accepts(history + [Call(r, reply.blocked == 0)], k), t - win(k))
  {
    hide Prune, Without, Record, Scan, Fetch;
    var (scanned, reply) := Scan(logs, r.rules, r.now);
    ScanView(logs, r.rules, r.now, k, win, t);
    ScanView(logs, r.rules, r.now, k, win, r.now);
    var call := Call(r, reply.blocked == 0);
    assert (history + [call])[..|history|] == history;
    if reply.blocked == 0 {
      if Covers(r.rules, k) {
        var j :| 0 <= j < |r.rules| && r.rules[j].key == k;
        ScanFetch(logs, r.rules, r.now, win, lim, j);
        PruneMembers(Accepts(history, k), r.now - win(k));
        RecordView(scanned, r.rules, r.now, r.member, k, Accepts(history, k), win, lim, t);
      } else {
        RecordOther(scanned, r.rules, r.now, r.member, k);
        FetchSame(scanned, Record(scanned, r.rules, r.now, r.member), k, t);
      }
    }
  }

  /** The script accepts iff the history allows. */
  lemma VerdictAgrees(logs: Logs, history: seq<Call>, r: Request, win: Key -> int, lim: Key -> int)
    requires RulesOk(r.rules, win, lim)
    requires forall k :: View(logs, k, win(k), r.now) == Prune(Accepts(history, k), r.now - win(k))
    ensures Checked(logs, r).1.blocked == 0 <==> Allowed(history, r.rules, r.now)
  {
    hide Prune, Scan, Record, Accepts;
    ScanReply(logs, r.rules, r.now, win);
    assert forall i :: 0 <= i < |r.rules| ==>
      View(logs, r.rules[i].key, win(r.rules[i].key), r.now) ==
        Prune(Accepts(history, r.rules[i].key), r.now - r.rules[i].window);
  }

  /**
    Refinement: over every run of requests, the pruned and expiring sets show, at every moment
    from the last request on, exactly the requests accepted in their window, and the script
    accepts each request exactly when the full history allows it.
  */
  lemma {:induction false} RefinesHistory(requests: seq<Request>, win: Key -> int, lim: Key -> int)
    requires Proper(requests, win, lim) && requests != []
    ensures Shows(LogsAfter(requests), HistoryOf(requests), win, requests[|requests| - 1].now)
    ensures var init, r := requests[..|requests| - 1], requests[|requests| - 1];
      Checked(LogsAfter(init), r).1.blocked == 0 <==> Allowed(HistoryOf(init), r.rules, r.now)
  {
    hide Prune, Scan, Record, Accepts, View, Checked, Allowed;
    var init, r := requests[..|requests| - 1], requests[|requests| - 1];
    var logs, history := LogsAfter(init), HistoryOf(init);
    if init == [] { NothingShown(win, r.now); } else { RefinesHistory(init, win, lim); }
    VerdictAgrees(logs, history, r, win, lim);
    forall k, t | r.now <= t
      ensures View(LogsAfter(requests), k, win(k), t) == Prune(Accepts(HistoryOf(requests), k), t - win(k))
    {
      AcceptsAreOld(requests, win, lim, k);
      StepShows(logs, history, r, win, lim, k, t);
    }
  }

  lemma NothingShown(win: Key -> int, now: int)
    ensures Shows(map[], [], win, now)
  {
  }

  // ---------- No window overflows ----------

  /** The accepted requests of key k in (t - win(k), t]. */
  function AcceptedIn(history: seq<Call>, k: Key, window: int, t: int): seq<Stamp> {
    UpTo(Prune(Accepts(history, k), t - window), t)
  }

  function UpTo(s: seq<Stamp>, t: int): seq<Stamp> {
    if s == [] then []
    else
      var rest := UpTo(s[..|s| - 1], t);
      if s[|s| - 1].at > t then rest else rest + [s[|s| - 1]]
  }

  lemma {:induction false} UpToShrinks(s: seq<Stamp>, t: int)
    ensures |UpTo(s, t)| <= |s|
    ensures (forall x :: x in s ==> x.at <= t) ==> UpTo(s, t) == s
  {
    if s != [] {
      UpToShrinks(s[..|s| - 1], t);
      assert s[|s| - 1] in s && forall x :: x in s[..|s| - 1] ==> x in s;
    }
  }

  lemma OneMoreLogged(s: seq<Stamp>, x: Stamp, bound: int, t: int)
    ensures |UpTo(Prune(s + [x], bound), t)| == |UpTo(Prune(s, bound), t)| + (if bound < x.at <= t then 1 else 0)
  {
    PruneAppend(s, x, bound);
    assert (Prune(s, bound) + [x])[..|Prune(s, bound)|] == Prune(s, bound);
  }

  /** What one more request adds under a key. */
  lemma OneMoreAccept(requests: seq<Request>, k: Key)
    requires requests != []
    ensures var history, r := HistoryOf(requests[..|requests| - 1]), requests[|requests| - 1];
      Accepts(HistoryOf(requests), k) ==
        Accepts(history, k) +
        (if Allowed(history, r.rules, r.now) && Covers(r.rules, k) then [Stamp(r.now, r.member)] else [])
  {
    hide Allowed, Covers;
    var history, r := HistoryOf(requests[..|requests| - 1]), requests[|requests| - 1];
    var call := Call(r, Allowed(history, r.rules, r.now));
    assert (history + [call])[..|history|] == history;
    assert Accepts(history, k) + [] == Accepts(history, k);
  }

  /** No window of the rule's length, wherever it lies, ever holds more than `limit` accepted requests. */
  lemma {:induction false} NoWindowOverflows(requests: seq<Request>, win: Key -> int, lim: Key -> int, k: Key, t: int)
    requires Proper(requests, win, lim) && lim(k) >= 0
    ensures |AcceptedIn(HistoryOf(requests), k, win(k), t)| <= lim(k)
  {
    hide Prune, UpTo, Accepts, HistoryOf, Allowed, Covers;
    if requests == [] {
      NothingAccepted(k, win(k), t);
    } else {
      var init, r := requests[..|requests| - 1], requests[|requests| - 1];
      var history := HistoryOf(init);
      var accepts := Accepts(history, k);
      NoWindowOverflows(init, win, lim, k, t);
      OneMoreAccept(requests, k);
      OneMoreLogged(accepts, Stamp(r.now, r.member), t - win(k), t);
      assert accepts + [] == accepts;
      if Allowed(history, r.rules, r.now) && Covers(r.rules, k) && t - win(k) < r.now <= t {
        AllowedAt(history, r, win, lim, k);
        PruneShrinks(accepts, r.now - win(k), t - win(k));
        UpToShrinks(Prune(accepts, t - win(k)), t);
      }
    }
  }

  lemma NothingAccepted(k: Key, window: int, t: int)
    ensures AcceptedIn(HistoryOf([]), k, window, t) == []
  {
  }

  /** A request that is allowed and covers key k finds fewer than the limit under it. */
  lemma AllowedAt(history: seq<Call>, r: Request, win: Key -> int, lim: Key -> int, k: Key)
    requires RulesOk(r.rules, win, lim) && Allowed(history, r.rules, r.now) && Covers(r.rules, k)
    ensures |Prune(Accepts(history, k), r.now - win(k))| < lim(k)
  {
    hide Prune, Accepts;
  }

  /** A rejected request leaves every key showing what it showed. */
  lemma RejectedCostsNothing(logs: Logs, r: Request, win: Key -> int, lim: Key -> int, k: Key, t: int)
    requires RulesOk(r.rules, win, lim) && Checked(logs, r).1.blocked > 0 && t >= r.now
    ensures View(Checked(logs, r).0, k, win(k), t) == View(logs, k, win(k), t)
  {
    hide Prune, Scan, Record, Fetch;
    ScanView(logs, r.rules, r.now, k, win, t);
  }

  // ---------- The retry delay ----------

  predicate Sorted(s: seq<Stamp>) {
    forall i, j :: 0 <= i < j < |s| ==> s[i].at <= s[j].at
  }

  lemma {:induction false} AcceptsSorted(requests: seq<Request>, win: Key -> int, lim: Key -> int, k: Key)
    requires Proper(requests, win, lim)
    ensures Sorted(Accepts(HistoryOf(requests), k))
  {
    if requests != [] {
      var init := requests[..|requests| - 1];
      AcceptsSorted(init, win, lim, k);
      AcceptsAreOld(requests, win, lim, k);
      var h := HistoryOf(init);
      assert HistoryOf(requests)[..|h|] == h;
      assert forall i :: 0 <= i < |Accepts(h, k)| ==> Accepts(h, k)[i] in Accepts(h, k);
    }
  }

  lemma {:induction false} PruneSorted(s: seq<Stamp>, bound: int)
    requires Sorted(s)
    ensures Sorted(Prune(s, bound))
  {
    if s != [] {
      var init := s[..|s| - 1];
      PruneSorted(init, bound);
      PruneMembers(init, bound);
      assert forall i :: 0 <= i < |Prune(init, bound)| ==> Prune(init, bound)[i] in init;
    }
  }

  /** Pruning a sorted log shortens it exactly from the moment its oldest stamp falls out. */
  lemma {:induction false} PruneBites(s: seq<Stamp>, bound: int)
    requires Sorted(s) && s != []
    ensures if s[0].at <= bound then |Prune(s, bound)| < |s| else Prune(s, bound) == s
  {
    var init := s[..|s| - 1];
    if init == [] {
      assert Prune(init, bound) == [];
    } else {
      PruneBites(init, bound);
    }
  }

  /** When one full rule opens again: exactly its wait from now on. */
  lemma FullRuleOpens(accepts: seq<Stamp>, window: int, limit: int, now: int, e: nat)
    requires Sorted(accepts) && limit >= 1 && |Prune(accepts, now - window)| == limit
    ensures |Prune(accepts, now + e - window)| < limit <==> e >= Wait(Prune(accepts, now - window), window, now)
    ensures Wait(Prune(accepts, now - window), window, now) >= 1
  {
    hide Prune;
    var live := Prune(accepts, now - window);
    PruneSorted(accepts, now - window);
    PruneMembers(accepts, now - window);
    assert live[0] in live;
    PruneTwice(accepts, now - window, now + e - window);
    PruneBites(live, now + e - window);
  }

  /** The count of a rule at the moment of a request is within its limit. */
  lemma CountWithinLimit(requests: seq<Request>, win: Key -> int, lim: Key -> int, k: Key)
    requires Proper(requests, win, lim) && requests != [] && lim(k) >= 0
    ensures var init, r := requests[..|requests| - 1], requests[|requests| - 1];
      |Prune(Accepts(HistoryOf(init), k), r.now - win(k))| <= lim(k)
  {
    hide Prune, Accepts, HistoryOf;
    var init, r := requests[..|requests| - 1], requests[|requests| - 1];
    NoWindowOverflows(init, win, lim, k, r.now);
    AcceptsAreOld(requests, win, lim, k);
    PruneMembers(Accepts(HistoryOf(init), k), r.now - win(k));
    UpToShrinks(Prune(Accepts(HistoryOf(init), k), r.now - win(k)), r.now);
  }

  /**
    The retry delay is exact: a blocked request would pass again, if nothing else is accepted
    meanwhile, after e milliseconds if and only if e is at least the delay returned.
  */
  lemma RetryIsExact(requests: seq<Request>, win: Key -> int, lim: Key -> int, e: nat)
    requires Proper(requests, win, lim) && requests != []
    requires var r := requests[|requests| - 1]; forall i :: 0 <= i < |r.rules| ==> r.rules[i].limit >= 1
    requires Checked(LogsAfter(requests[..|requests| - 1]), requests[|requests| - 1]).1.blocked > 0
    ensures var init, r := requests[..|requests| - 1], requests[|requests| - 1];
      var retry := Checked(LogsAfter(init), r).1.retry;
      retry >= 1 && (Allowed(HistoryOf(init), r.rules, r.now + e) <==> e >= retry)
  {
    hide Prune, Scan, Record, Accepts, HistoryOf, LogsAfter, Fetch, Wait, Proper;
    var init, r := requests[..|requests| - 1], requests[|requests| - 1];
    var logs, history := LogsAfter(init), HistoryOf(init);
    LastIsProper(requests, win, lim);
    ScanReply(logs, r.rules, r.now, win);
    forall i | 0 <= i < |r.rules|
      ensures |Prune(Accepts(history, r.rules[i].key), r.now + e - r.rules[i].window)| < r.rules[i].limit
        <==> (FullRule(logs, r.rules[i], r.now) ==> e >= RuleWait(logs, r.rules[i], r.now))
    {
      RuleOpens(requests, win, lim, r.rules[i], e);
    }
  }

  lemma LastIsProper(requests: seq<Request>, win: Key -> int, lim: Key -> int)
    requires Proper(requests, win, lim) && requests != []
    ensures RulesOk(requests[|requests| - 1].rules, win, lim)
  {
  }

  /** One rule of a request: closed until its wait has passed if it is full, open all along if it is not. */
  lemma RuleOpens(requests: seq<Request>, win: Key -> int, lim: Key -> int, rule: Rule, e: nat)
    requires Proper(requests, win, lim) && requests != []
    requires rule in requests[|requests| - 1].rules && rule.limit >= 1
    ensures var init, r := requests[..|requests| - 1], requests[|requests| - 1];
      |Prune(Accepts(HistoryOf(init), rule.key), r.now + e - rule.window)| < rule.limit
      <==> (FullRule(LogsAfter(init), rule, r.now) ==> e >= RuleWait(LogsAfter(init), rule, r.now))
  {
    hide Prune, Accepts, HistoryOf, LogsAfter, Wait;
    var init, r := requests[..|requests| - 1], requests[|requests| - 1];
    var accepts := Accepts(HistoryOf(init), rule.key);
    LastIsProper(requests, win, lim);
    CountWithinLimit(requests, win, lim, rule.key);
    BeforeShows(requests, win, lim, rule.key);
    AcceptsSorted(init, win, lim, rule.key);
    PruneShrinks(accepts, r.now - rule.window, r.now + e - rule.window);
    if FullRule(LogsAfter(init), rule, r.now) {
      FullRuleOpens(accepts, rule.window, rule.limit, r.now, e);
    }
  }

  /** What a request finds under a key. */
  lemma BeforeShows(requests: seq<Request>, win: Key -> int, lim: Key -> int, k: Key)
    requires Proper(requests, win, lim) && requests != []
    ensures var init, r := requests[..|requests| - 1], requests[|requests| - 1];
      View(LogsAfter(init), k, win(k), r.now) == Prune(Accepts(HistoryOf(init), k), r.now - win(k))
  {
    hide Prune, Accepts, View, Proper, Shows, LogsAfter, HistoryOf;
    var init, r := requests[..|requests| - 1], requests[|requests| - 1];
    if init == [] {
      EmptyRun();
      NothingShown(win, r.now);
      ShowsAt(map[], [], win, r.now, k, r.now);
    } else {
      LastIsLatest(requests, win, lim);
      RefinesHistory(init, win, lim);
      ShowsAt(LogsAfter(init), HistoryOf(init), win, init[|init| - 1].now, k, r.now);
    }
  }

  lemma EmptyRun()
    ensures LogsAfter([]) == map[] && HistoryOf([]) == []
  {
  }

  lemma LastIsLatest(requests: seq<Request>, win: Key -> int, lim: Key -> int)
    requires Proper(requests, win, lim) && |requests| > 1
    ensures Proper(requests[..|requests| - 1], win, lim)
    ensures requests[|requests| - 2].now <= requests[|requests| - 1].now
  {
  }

  lemma ShowsAt(logs: Logs, history: seq<Call>, win: Key -> int, now: int, k: Key, t: int)
    requires Shows(logs, history, win, now) && now <= t
    ensures View(logs, k, win(k), t) == Prune(Accepts(history, k), t - win(k))
  {
  }

  /** A rule whose limit is below one never opens: no delay returned for it can be right. */
  lemma ZeroLimitNeverOpens(history: seq<Call>, rules: seq<Rule>, i: nat, t: int)
    requires i < |rules| && rules[i].limit <= 0
    ensures !Allowed(history, rules, t)
  {
    assert |Prune(Accepts(history, rules[i].key), t - rules[i].window)| >= rules[i].limit;
  }

  /** Whole seconds, rounded up, as sent in Retry-After (section 10.2.3 of RFC 9110). */
  function RetryAfter(ms: int): int {
    if ms % 1000 == 0 then ms / 1000 else ms / 1000 + 1
  }

  /** No second more than the delay needs. */
  lemma RetryAfterRoundsUp(ms: int)
    ensures 1000 * (RetryAfter(ms) - 1) < ms <= 1000 * RetryAfter(ms)
  {
  }

  /** Waiting the seconds sent always suffices. */
  lemma RetryAfterSuffices(requests: seq<Request>, win: Key -> int, lim: Key -> int)
    requires Proper(requests, win, lim) && requests != []
    requires var r := requests[|requests| - 1]; forall i :: 0 <= i < |r.rules| ==> r.rules[i].limit >= 1
    requires Checked(LogsAfter(requests[..|requests| - 1]), requests[|requests| - 1]).1.blocked > 0
    ensures var init, r := requests[..|requests| - 1], requests[|requests| - 1];
      var seconds := RetryAfter(Checked(LogsAfter(init), r).1.retry);
      seconds >= 1 && Allowed(HistoryOf(init), r.rules, r.now + 1000 * seconds)
  {
    hide Allowed, Checked, LogsAfter, HistoryOf, Proper;
    var retry := Checked(LogsAfter(requests[..|requests| - 1]), requests[|requests| - 1]).1.retry;
    RetryIsExact(requests, win, lim, 0);
    RetryIsExact(requests, win, lim, 1000 * RetryAfter(retry));
  }
}
