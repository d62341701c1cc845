/** The rules that guard one HTTP request, and the keys they are counted under. */
module Protection {
  import opened Measures
  import opened RateLimit

  const WINDOW_MS := 60_000

  datatype Limits = Limits(globalIp: int, join: int, status: int, checkout: int)

  function KeyOf(scope: string, id: string): Key {
    "rl:" + scope + ":" + id
  }

  /** The limit that a key is counted against, read off its scope. */
  function LimitOf(limits: Limits): Key -> int {
    (k: Key) =>
      if "rl:ip:" <= k then limits.globalIp
      else if "rl:join-ip:" <= k || "rl:join-user:" <= k then limits.join
      else if "rl:status:" <= k then limits.status
      else limits.checkout
  }

  function WindowOf(): Key -> int {
    (k: Key) => WINDOW_MS
  }

  /** The scope a key was made for. */
  function ScopeOf(k: Key): string {
    if "rl:ip:" <= k then "ip"
    else if "rl:join-ip:" <= k then "join-ip"
    else if "rl:join-user:" <= k then "join-user"
    else if "rl:status:" <= k then "status"
    else if "rl:checkout:" <= k then "checkout"
    else ""
  }

  /** A key tells its scope, whatever the id contains: keys of different scopes never meet. */
  lemma KeyTellsScope(scope: string, id: string, limits: Limits)
    requires scope == "ip" || scope == "join-ip" || scope == "join-user" || scope == "status" || scope == "checkout"
    ensures ScopeOf(KeyOf(scope, id)) == scope
    ensures LimitOf(limits)(KeyOf(scope, id)) ==
      match scope
      case "ip" => limits.globalIp
      case "join-ip" => limits.join
      case "join-user" => limits.join
      case "status" => limits.status
      case _ => limits.checkout
  {
    var k := KeyOf(scope, id);
    if scope == "ip" {
      assert k[..6] == "rl:ip:";
    } else if scope == "join-ip" {
      assert k[..11] == "rl:join-ip:" && k[3] == 'j';
    } else if scope == "join-user" {
      assert k[..13] == "rl:join-user:" && k[3] == 'j' && k[8] == 'u';
    } else if scope == "status" {
      assert k[..10] == "rl:status:" && k[3] == 's';
    } else {
      assert k[..12] == "rl:checkout:" && k[3] == 'c';
    }
  }

  const JOIN := "POST /events/:id/queue"
  const STATUS := "GET /events/:id/queue/status"
  const STREAM := "GET /events/:id/queue/stream"
  const ORDER := "POST /events/:id/orders"

  /** The scopes that count a request: the address always, the rest by route and by whether the user is known. */
  function Scopes(route: string, known: bool): seq<string> {
    if route == JOIN then (if known then ["ip", "join-ip", "join-user"] else ["ip", "join-ip"])
    else if known && (route == STATUS || route == STREAM) then ["ip", "status"]
    else if known && route == ORDER then ["ip", "checkout"]
    else ["ip"]
  }

  function RuleFor(limits: Limits, scope: string, ip: string, user: string): Rule {
    var k := KeyOf(scope, if scope == "ip" || scope == "join-ip" then ip else user);
    Rule(k, WINDOW_MS, LimitOf(limits)(k))
  }

  function RulesOf(limits: Limits, route: string, ip: string, user: Option<string>): (r: seq<Rule>)
    ensures |r| == |Scopes(route, user.Some?)|
  {
    var scopes := Scopes(route, user.Some?);
    seq(|scopes|, i requires 0 <= i < |scopes| => RuleFor(limits, scopes[i], ip, if user.Some? then user.value else ""))
  }

  /**
    What the limiter's guarantees rest on: whatever the address and the user id contain, the
    keys of one request are pairwise distinct, and a key always carries the same window and limit.
  */
  lemma RulesAreProper(limits: Limits, route: string, ip: string, user: Option<string>)
    ensures RulesOk(RulesOf(limits, route, ip, user), WindowOf(), LimitOf(limits))
  {
    var rules, scopes := RulesOf(limits, route, ip, user), Scopes(route, user.Some?);
    var who := if user.Some? then user.value else "";
    forall i, j | 0 <= i < j < |rules| ensures rules[i].key != rules[j].key {
      KeyTellsScope(scopes[i], if scopes[i] == "ip" || scopes[i] == "join-ip" then ip else who, limits);
      KeyTellsScope(scopes[j], if scopes[j] == "ip" || scopes[j] == "join-ip" then ip else who, limits);
    }
  }

  lemma RoutesDiffer()
    ensures JOIN != STATUS && JOIN != STREAM && JOIN != ORDER && ORDER != STATUS && ORDER != STREAM
  {
    assert JOIN[0] == ORDER[0] == 'P' && STATUS[0] == STREAM[0] == 'G';
    assert |JOIN| != |ORDER|;
  }

  lemma RuleForScope(limits: Limits, ip: string, who: string)
    ensures RuleFor(limits, "ip", ip, who) == Rule(KeyOf("ip", ip), WINDOW_MS, limits.globalIp)
    ensures RuleFor(limits, "join-ip", ip, who) == Rule(KeyOf("join-ip", ip), WINDOW_MS, limits.join)
    ensures RuleFor(limits, "join-user", ip, who) == Rule(KeyOf("join-user", who), WINDOW_MS, limits.join)
    ensures RuleFor(limits, "status", ip, who) == Rule(KeyOf("status", who), WINDOW_MS, limits.status)
    ensures RuleFor(limits, "checkout", ip, who) == Rule(KeyOf("checkout", who), WINDOW_MS, limits.checkout)
  {
    hide KeyOf, LimitOf, ScopeOf;
    KeyTellsScope("ip", ip, limits);
    KeyTellsScope("join-ip", ip, limits);
    KeyTellsScope("join-user", who, limits);
    KeyTellsScope("status", who, limits);
    KeyTellsScope("checkout", who, limits);
    assert |"join-user"| != |"ip"| && |"status"| != |"ip"| && |"checkout"| != |"ip"|;
    assert |"join-user"| != |"join-ip"| && |"status"| != |"join-ip"| && |"checkout"| != |"join-ip"|;
  }

  /** rateLimitRulesFor */
  method RulesFor(limits: Limits, verb: string, path: string, ip: string, user: Option<string>)
    returns (rules: seq<Rule>)
    ensures rules == RulesOf(limits, verb + " " + path, ip, user)
  {
    hide KeyOf, LimitOf, ScopeOf;
    ghost var who := if user.Some? then user.value else "";
    RuleForScope(limits, ip, who);
    RoutesDiffer();
    var join, status, stream, order := JOIN, STATUS, STREAM, ORDER;
    rules := [Rule(KeyOf("ip", ip), WINDOW_MS, limits.globalIp)];
    var key := verb + " " + path;
    if key == join {
      rules := rules + [Rule(KeyOf("join-ip", ip), WINDOW_MS, limits.join)];
      if user.Some? {
        rules := rules + [Rule(KeyOf("join-user", user.value), WINDOW_MS, limits.join)];
      }
    }
    var isStatus := key == status || key == stream;
    if isStatus && user.Some? {
      rules := rules + [Rule(KeyOf("status", user.value), WINDOW_MS, limits.status)];
    }
    if key == order && user.Some? {
      rules := rules + [Rule(KeyOf("checkout", user.value), WINDOW_MS, limits.checkout)];
    }
  }

  // ---------- Every guarded request ----------

  /** One HTTP request; `member` is the unique name it is stamped with. */
  datatype Visit = Visit(route: string, ip: string, user: Option<string>, now: int, member: Member)

  function Guarded(limits: Limits, v: Visit): Request {
    Request(v.now, v.member, RulesOf(limits, v.route, v.ip, v.user))
  }

  function AllGuarded(limits: Limits, visits: seq<Visit>): (r: seq<Request>)
    ensures |r| == |visits|
  {
    if visits == [] then [] else AllGuarded(limits, visits[..|visits| - 1]) + [Guarded(limits, visits[|visits| - 1])]
  }

  /** Times never run backwards and no member is used twice. */
  predicate Arriving(visits: seq<Visit>) {
    forall i, j :: 0 <= i < j < |visits| ==> visits[i].now <= visits[j].now && visits[i].member != visits[j].member
  }

  lemma {:induction false} GuardedAt(limits: Limits, visits: seq<Visit>, i: nat)
    requires i < |visits|
    ensures AllGuarded(limits, visits)[i] == Guarded(limits, visits[i])
  {
    if i < |visits| - 1 { GuardedAt(limits, visits[..|visits| - 1], i); }
  }

  /** Whatever clients send, the limiter is used as its guarantees ask. */
  lemma {:induction false} GuardedIsProper(limits: Limits, visits: seq<Visit>)
    requires Arriving(visits)
    ensures Proper(AllGuarded(limits, visits), WindowOf(), LimitOf(limits))
  {
    if visits != [] {
      var init, v := visits[..|visits| - 1], visits[|visits| - 1];
      GuardedIsProper(limits, init);
      RulesAreProper(limits, v.route, v.ip, v.user);
      forall i | 0 <= i < |init|
        ensures AllGuarded(limits, init)[i].member != v.member && AllGuarded(limits, init)[i].now <= v.now
      {
        GuardedAt(limits, init, i);
      }
      assert AllGuarded(limits, visits)[..|init|] == AllGuarded(limits, init);
    }
  }

  /** enforceRateLimits: the seconds to send in Retry-After, or None if the request may pass. */
  method EnforceRateLimits(limiter: Limiter, limits: Limits, v: Visit) returns (retryAfter: Option<int>)
    modifies limiter
    ensures var (logs, reply) := Checked(old(limiter.logs), Guarded(limits, v));
      limiter.logs == logs && retryAfter == if reply.blocked > 0 then Some(RetryAfter(reply.retry)) else None
  {
    var reply := limiter.Check(Guarded(limits, v));
    retryAfter := if reply.blocked > 0 then Some(RetryAfter(reply.retry)) else None;
  }

  lemma OneMoreGuarded(limits: Limits, visits: seq<Visit>, v: Visit)
    ensures AllGuarded(limits, visits + [v]) == AllGuarded(limits, visits) + [Guarded(limits, v)]
    ensures AllGuarded(limits, visits + [v])[..|visits|] == AllGuarded(limits, visits)
  {
    hide Guarded;
    assert (visits + [v])[..|visits|] == visits;
  }

  lemma LimitsPositive(limits: Limits)
    requires limits.globalIp >= 1 && limits.join >= 1 && limits.status >= 1 && limits.checkout >= 1
    ensures forall k: Key :: LimitOf(limits)(k) >= 1
  {
  }

  /** A blocked visitor who waits the seconds sent is let through, if no one else is meanwhile. */
  lemma RetryAfterIsKept(limits: Limits, visits: seq<Visit>, v: Visit)
    requires Arriving(visits + [v])
    requires limits.globalIp >= 1 && limits.join >= 1 && limits.status >= 1 && limits.checkout >= 1
    requires Checked(LogsAfter(AllGuarded(limits, visits)), Guarded(limits, v)).1.blocked > 0
    ensures var seconds := RetryAfter(Checked(LogsAfter(AllGuarded(limits, visits)), Guarded(limits, v)).1.retry);
      seconds >= 1 && Allowed(HistoryOf(AllGuarded(limits, visits)), Guarded(limits, v).rules, v.now + 1000 * seconds)
  {
    hide Allowed, Checked, LogsAfter, HistoryOf, Proper, RetryAfter, RulesOf, AllGuarded, LimitOf, Arriving;
    GuardedIsProper(limits, visits + [v]);
    OneMoreGuarded(limits, visits, v);
    RulesAreProper(limits, v.route, v.ip, v.user);
    LimitsPositive(limits);
    RetryAfterSuffices(AllGuarded(limits, visits + [v]), WindowOf(), LimitOf(limits));
  }
}
