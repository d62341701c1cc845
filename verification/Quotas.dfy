/** What the limits mean for clients: who may do what how often, and the only reasons for a refusal. */
module Quotas {
  import opened Measures
  import opened RateLimit
  import opened Protection

  /** What is counted: all requests of an address, joins of an address or a user, status reads and orders of a user. */
  datatype Tally =
    | Requests(ip: string)
    | JoinsFrom(ip: string)
    | JoinsBy(user: string)
    | ReadsBy(user: string)
    | OrdersBy(user: string)

  predicate Counts(t: Tally, v: Visit) {
    match t
    case Requests(ip) => v.ip == ip
    case JoinsFrom(ip) => v.route == "POST /events/:id/queue" && v.ip == ip
    case JoinsBy(user) => v.route == "POST /events/:id/queue" && v.user == Some(user)
    case ReadsBy(user) =>
      (v.route == "GET /events/:id/queue/status" || v.route == "GET /events/:id/queue/stream") && v.user == Some(user)
    case OrdersBy(user) => v.route == "POST /events/:id/orders" && v.user == Some(user)
  }

  function LimitFor(limits: Limits, t: Tally): int {
    match t
    case Requests(_) => limits.globalIp
    case JoinsFrom(_) => limits.join
    case JoinsBy(_) => limits.join
    case ReadsBy(_) => limits.status
    case OrdersBy(_) => limits.checkout
  }

  /** Is v let through, after the visits so far? */
  predicate Passes(limits: Limits, visits: seq<Visit>, v: Visit) {
    Checked(LogsAfter(AllGuarded(limits, visits)), Guarded(limits, v)).1.blocked == 0
  }

  /** How many visits of a kind were let through in (now - 60 s, now]. */
  function LetThrough(limits: Limits, visits: seq<Visit>, t: Tally, now: int): nat {
    if visits == [] then 0
    else
      var init, v := visits[..|visits| - 1], visits[|visits| - 1];
      LetThrough(limits, init, t, now)
      + (if Counts(t, v) && now - 60_000 < v.now <= now && Passes(limits, init, v) then 1 else 0)
  }

  // ---------- Tallies and keys ----------

  function ScopeFor(t: Tally): string {
    match t
    case Requests(_) => "ip"
    case JoinsFrom(_) => "join-ip"
    case JoinsBy(_) => "join-user"
    case ReadsBy(_) => "status"
    case OrdersBy(_) => "checkout"
  }

  function IdFor(t: Tally): string {
    match t
    case Requests(ip) => ip
    case JoinsFrom(ip) => ip
    case JoinsBy(user) => user
    case ReadsBy(user) => user
    case OrdersBy(user) => user
  }

  function KeyFor(t: Tally): Key {
    KeyOf(ScopeFor(t), IdFor(t))
  }

  lemma KeyForTells(t: Tally, limits: Limits)
    ensures ScopeOf(KeyFor(t)) == ScopeFor(t) && LimitOf(limits)(KeyFor(t)) == LimitFor(limits, t)
  {
    hide KeyOf, ScopeOf, LimitOf;
    KeyTellsScope(ScopeFor(t), IdFor(t), limits);
    assert |"ip"| == 2 && |"join-ip"| == 7 && |"join-user"| == 9 && |"status"| == 6 && |"checkout"| == 8;
  }

  lemma KeyEndsInId(scope: string, id: string)
    ensures KeyOf(scope, id)[|scope| + 4..] == id
  {
    assert KeyOf(scope, id) == "rl:" + scope + ":" + id;
  }

  /** A tally has its own key, which no other tally has. */
  lemma KeysDiffer(t: Tally, u: Tally, limits: Limits)
    ensures KeyFor(t) == KeyFor(u) <==> t == u
  {
    hide KeyOf, ScopeOf;
    if KeyFor(t) == KeyFor(u) {
      KeyForTells(t, limits);
      KeyForTells(u, limits);
      KeyEndsInId(ScopeFor(t), IdFor(t));
      KeyEndsInId(ScopeFor(u), IdFor(u));
      assert |"ip"| == 2 && |"join-ip"| == 7 && |"join-user"| == 9 && |"status"| == 6 && |"checkout"| == 8;
    }
  }

  /** The tallies that a visit counts in. */
  function TalliesOf(v: Visit): seq<Tally> {
    if v.route == JOIN then [Requests(v.ip), JoinsFrom(v.ip)] + (if v.user.Some? then [JoinsBy(v.user.value)] else [])
    else if v.user.Some? && (v.route == STATUS || v.route == STREAM) then [Requests(v.ip), ReadsBy(v.user.value)]
    else if v.user.Some? && v.route == ORDER then [Requests(v.ip), OrdersBy(v.user.value)]
    else [Requests(v.ip)]
  }

  lemma TalliesCount(v: Visit, t: Tally)
    ensures t in TalliesOf(v) <==> Counts(t, v)
  {
    RoutesDiffer();
  }

  /** Each rule of a visit is for one of its tallies, in order. */
  lemma RulesAreTallies(limits: Limits, v: Visit)
    ensures var rules, tallies := Guarded(limits, v).rules, TalliesOf(v);
      |rules| == |tallies| &&
      forall i :: 0 <= i < |rules| ==>
        rules[i].key == KeyFor(tallies[i]) && rules[i].limit == LimitFor(limits, tallies[i])
  {
    hide KeyOf, LimitOf;
    RoutesDiffer();
    var who := if v.user.Some? then v.user.value else "";
    RuleForScope(limits, v.ip, who);
  }

  lemma CoversIff(limits: Limits, v: Visit, t: Tally)
    ensures Covers(Guarded(limits, v).rules, KeyFor(t)) <==> Counts(t, v)
  {
    hide KeyFor, Counts, TalliesOf, LimitFor, Guarded;
    var rules, tallies := Guarded(limits, v).rules, TalliesOf(v);
    RulesAreTallies(limits, v);
    TalliesCount(v, t);
    forall i | 0 <= i < |rules| ensures rules[i].key == KeyFor(t) <==> tallies[i] == t {
      KeysDiffer(tallies[i], t, limits);
    }
    if t in tallies {
      var i :| 0 <= i < |tallies| && tallies[i] == t;
      assert rules[i].key == KeyFor(t);
    }
  }

  // ---------- Counting visits is counting stamps ----------

  lemma PassesIffAllowed(limits: Limits, visits: seq<Visit>, v: Visit)
    requires Arriving(visits + [v])
    ensures Passes(limits, visits, v) <==>
      Allowed(HistoryOf(AllGuarded(limits, visits)), Guarded(limits, v).rules, v.now)
  {
    hide Allowed, Checked, LogsAfter, HistoryOf, Proper, AllGuarded, Arriving, RulesOf;
    GuardedIsProper(limits, visits + [v]);
    OneMoreGuarded(limits, visits, v);
    RefinesHistory(AllGuarded(limits, visits + [v]), WindowOf(), LimitOf(limits));
  }

  lemma {:induction false} LetThroughIsLogged(limits: Limits, visits: seq<Visit>, t: Tally, now: int)
    requires Arriving(visits)
    ensures LetThrough(limits, visits, t, now)
         == |AcceptedIn(HistoryOf(AllGuarded(limits, visits)), KeyFor(t), 60_000, now)|
  {
    hide KeyFor, Prune, UpTo, Allowed, Accepts, HistoryOf, Covers, RulesOf, Counts, Passes;
    if visits == [] {
      NothingAccepted(KeyFor(t), 60_000, now);
    } else {
      var init, v := visits[..|visits| - 1], visits[|visits| - 1];
      assert visits == init + [v];
      LetThroughIsLogged(limits, init, t, now);
      PassesIffAllowed(limits, init, v);
      OneMoreGuarded(limits, init, v);
      OneMoreAccept(AllGuarded(limits, visits), KeyFor(t));
      CoversIff(limits, v, t);
      var accepts := Accepts(HistoryOf(AllGuarded(limits, init)), KeyFor(t));
      OneMoreLogged(accepts, Stamp(v.now, v.member), now - 60_000, now);
      assert accepts + [] == accepts;
    }
  }

  /**
    Over every series of HTTP requests and in any 60 s: an address gets no more requests of all
    kinds through than its limit and no more joins than the limit of joins; a user no more joins,
    status reads and orders than the limit of each.
  */
  lemma TallyNeverOverflows(limits: Limits, visits: seq<Visit>, t: Tally, now: int)
    requires Arriving(visits) && LimitFor(limits, t) >= 0
    ensures LetThrough(limits, visits, t, now) <= LimitFor(limits, t)
  {
    hide KeyFor, LimitFor, Proper, Arriving, LetThrough, AcceptedIn;
    GuardedIsProper(limits, visits);
    LetThroughIsLogged(limits, visits, t, now);
    KeyForTells(t, limits);
    NoWindowOverflows(AllGuarded(limits, visits), WindowOf(), LimitOf(limits), KeyFor(t), now);
  }

  /** At the moment of a visit, everything let through so far lies in the past. */
  lemma CountNow(limits: Limits, visits: seq<Visit>, v: Visit, t: Tally)
    requires Arriving(visits + [v])
    ensures LetThrough(limits, visits, t, v.now)
         == |Prune(Accepts(HistoryOf(AllGuarded(limits, visits)), KeyFor(t)), v.now - 60_000)|
  {
    hide KeyFor, Prune, UpTo, Accepts, HistoryOf, LetThrough, Proper, RulesOf;
    GuardedIsProper(limits, visits + [v]);
    OneMoreGuarded(limits, visits, v);
    assert Arriving(visits) by { assert visits == (visits + [v])[..|visits|]; }
    LetThroughIsLogged(limits, visits, t, v.now);
    AcceptsAreOld(AllGuarded(limits, visits + [v]), WindowOf(), LimitOf(limits), KeyFor(t));
    var accepts := Accepts(HistoryOf(AllGuarded(limits, visits)), KeyFor(t));
    PruneMembers(accepts, v.now - 60_000);
    UpToShrinks(Prune(accepts, v.now - 60_000), v.now);
  }

  /** A visit is refused if and only if one of the counts that it adds to has reached its limit in the last 60 s. */
  lemma RefusedIffFull(limits: Limits, visits: seq<Visit>, v: Visit)
    requires Arriving(visits + [v])
    ensures !Passes(limits, visits, v) <==>
      exists t :: Counts(t, v) && LetThrough(limits, visits, t, v.now) >= LimitFor(limits, t)
  {
    hide KeyFor, Prune, Accepts, HistoryOf, LetThrough, Passes, Counts, TalliesOf, LimitFor, Arriving, AllGuarded;
    var history, rules, tallies := HistoryOf(AllGuarded(limits, visits)), Guarded(limits, v).rules, TalliesOf(v);
    PassesIffAllowed(limits, visits, v);
    RulesAreTallies(limits, v);
    RulesAreProper(limits, v.route, v.ip, v.user);
    forall i | 0 <= i < |rules|
      ensures Counts(tallies[i], v)
      ensures |Prune(Accepts(history, rules[i].key), v.now - rules[i].window)|
           == LetThrough(limits, visits, tallies[i], v.now)
    {
      TalliesCount(v, tallies[i]);
      CountNow(limits, visits, v, tallies[i]);
    }
    forall t | Counts(t, v) ensures t in tallies {
      TalliesCount(v, t);
    }
  }
}
