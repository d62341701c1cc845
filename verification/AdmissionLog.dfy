/** The pruned admission log of admit.lua against the full history of ticks. */
module AdmissionLog {
  import opened Measures

  const KEEP := 300_000.0

  /** One log member, "time:count", at its own time. */
  datatype LogEntry = LogEntry(at: real, count: nat)

  function CountSince(from: real): LogEntry -> int {
    (e: LogEntry) => if e.at >= from then e.count else 0
  }

  /** What status.lua and the admin reader add up: the counts at or after `from`. */
  function WindowSum(log: seq<LogEntry>, from: real): int {
    Total(log, CountSince(from))
  }

  function DropUpTo(log: seq<LogEntry>, bound: real): seq<LogEntry> {
    if log == [] then []
    else
      var rest := DropUpTo(log[..|log| - 1], bound);
      if log[|log| - 1].at <= bound then rest else rest + [log[|log| - 1]]
  }

  /** The end of a tick that admitted `count`: a set never holds the same member twice. */
  function LogTick(log: seq<LogEntry>, now: real, count: nat): seq<LogEntry> {
    var e := LogEntry(now, count);
    DropUpTo(if count > 0 && e !in log then log + [e] else log, now - KEEP)
  }

  function LogOf(history: seq<LogEntry>): seq<LogEntry> {
    if history == [] then []
    else LogTick(LogOf(history[..|history| - 1]), history[|history| - 1].at, history[|history| - 1].count)
  }

  /** The clock never runs backwards; two ticks may fall into one millisecond. */
  predicate Ordered(history: seq<LogEntry>) {
    forall i, j :: 0 <= i < j < |history| ==> history[i].at <= history[j].at
  }

  /** The counts in [from, cutoff], and those at or after `from` but past the cutoff. */
  function CountBetween(from: real, cutoff: real): LogEntry -> int {
    (e: LogEntry) => if from <= e.at <= cutoff then e.count else 0
  }

  function CountPast(from: real, cutoff: real): LogEntry -> int {
    (e: LogEntry) => if e.at >= from && e.at > cutoff then e.count else 0
  }

  lemma {:induction false} DropFacts(log: seq<LogEntry>, bound: real, w: LogEntry -> int)
    requires forall e :: e in log && e.at <= bound ==> w(e) == 0
    ensures Total(DropUpTo(log, bound), w) == Total(log, w)
    ensures forall e :: e in DropUpTo(log, bound) <==> e in log && e.at > bound
  {
    if log != [] {
      var last := log[|log| - 1];
      assert forall e :: e in log <==> e in log[..|log| - 1] || e == last;
      DropFacts(log[..|log| - 1], bound, w);
      if last.at > bound {
        TotalAppend(DropUpTo(log[..|log| - 1], bound), w, last);
      }
    }
  }

  /** One tick, not earlier than anything logged: an entry that is already there is not added again. */
  lemma TickFacts(log: seq<LogEntry>, e: LogEntry, w: LogEntry -> int)
    requires forall x :: x in log ==> x.at <= e.at
    requires forall x :: x in log && x.at <= e.at - KEEP ==> w(x) == 0
    requires e.count == 0 ==> w(e) == 0
    ensures Total(LogTick(log, e.at, e.count), w) == Total(log, w) + (if e in log then 0 else w(e))
    ensures forall x :: x in LogTick(log, e.at, e.count) <==>
      (x in log && x.at > e.at - KEEP) || (x == e && e.count > 0)
  {
    hide DropUpTo, Total;
    TotalAppend(log, w, e);
    DropFacts(if e.count > 0 && e !in log then log + [e] else log, e.at - KEEP, w);
  }

  /** The weight of the ticks that found their own entry, same time and same count, already in the log. */
  function Hidden(history: seq<LogEntry>, w: LogEntry -> int): int {
    if history == [] then 0
    else
      var last := history[|history| - 1];
      Hidden(history[..|history| - 1], w) + (if last.count > 0 && last in history[..|history| - 1] then w(last) else 0)
  }

  lemma LastOf(history: seq<LogEntry>)
    requires history != []
    ensures forall e :: e in history <==> e in history[..|history| - 1] || e == history[|history| - 1]
    ensures Ordered(history) ==> Ordered(history[..|history| - 1])
    ensures Ordered(history) ==> forall e :: e in history ==> e.at <= history[|history| - 1].at
  {
    assert history == history[..|history| - 1] + [history[|history| - 1]];
  }

  /**
    The log holds exactly the distinct admitting ticks of the last 300 s: any weight that
    ignores older and empty ticks adds up to the same over the log and over the history, but
    for the ticks that repeat an entry.
  */
  lemma {:induction false} LogHolds(history: seq<LogEntry>, w: LogEntry -> int)
    requires Ordered(history) && history != []
    requires forall e :: e in history && (e.at <= history[|history| - 1].at - 300_000.0 || e.count == 0) ==> w(e) == 0
    ensures Total(LogOf(history), w) == Total(history, w) - Hidden(history, w)
    ensures forall e :: e in LogOf(history) <==>
      e in history && e.count > 0 && e.at > history[|history| - 1].at - 300_000.0
  {
    hide LogTick, Ordered;
    var init, e := history[..|history| - 1], history[|history| - 1];
    LastOf(history);
    if init != [] {
      LastOf(init);
      LogHolds(init, w);
    }
    TickFacts(LogOf(init), e, w);
  }

  lemma {:induction false} SplitSum(s: seq<LogEntry>, from: real, cutoff: real)
    ensures WindowSum(s, from) == Total(s, CountBetween(from, cutoff)) + Total(s, CountPast(from, cutoff))
  {
    if s != [] {
      SplitSum(s[..|s| - 1], from, cutoff);
    }
  }

  /**
    The readers fall short of the history by the users admitted between `from` and the last tick's
    cutoff, and by the repeats.
  */
  lemma ReadersFallShortBy(history: seq<LogEntry>, from: real)
    requires Ordered(history) && history != []
    ensures var cutoff := history[|history| - 1].at - 300_000.0;
      WindowSum(LogOf(history), from) ==
        WindowSum(history, from) - Total(history, CountBetween(from, cutoff)) - Hidden(history, CountPast(from, cutoff))
  {
    hide LogOf, Hidden, Ordered;
    var cutoff := history[|history| - 1].at - KEEP;
    LogHolds(history, CountPast(from, cutoff));
    SplitSum(history, from, cutoff);
    var log := LogOf(history);
    assert forall k :: 0 <= k < |log| ==> log[k] in log;
    TotalSame(log, CountSince(from), CountPast(from, cutoff));
  }

  /** No two admitting ticks at or after `from`, and past the cutoff, have the same time and the same count. */
  predicate Distinct(history: seq<LogEntry>, from: real, cutoff: real) {
    forall i, j :: 0 <= i < j < |history| && history[i] == history[j] && history[j].count > 0 ==>
      history[j].at < from || history[j].at <= cutoff
  }

  /** Nobody was admitted between `from` and the cutoff. */
  predicate NobodyIn(history: seq<LogEntry>, from: real, cutoff: real) {
    forall e :: e in history && from <= e.at <= cutoff ==> e.count == 0
  }

  lemma {:induction false} HiddenNothing(history: seq<LogEntry>, from: real, cutoff: real)
    ensures Hidden(history, CountPast(from, cutoff)) >= 0
    ensures Hidden(history, CountPast(from, cutoff)) == 0 <==> Distinct(history, from, cutoff)
  {
    if history != [] {
      var n := |history| - 1;
      var init, last := history[..n], history[n];
      HiddenNothing(init, from, cutoff);
      assert forall i :: 0 <= i < n ==> init[i] == history[i];
      if Distinct(history, from, cutoff) {
        if last in init {
          var i :| 0 <= i < n && init[i] == last;
          assert history[i] == history[n];
        }
      } else if Distinct(init, from, cutoff) {
        var i, j :| 0 <= i < j <= n && history[i] == history[j] && history[j].count > 0 &&
          history[j].at >= from && history[j].at > cutoff;
        assert j == n && init[i] == last;
      }
    }
  }

  lemma {:induction false} BetweenNothing(s: seq<LogEntry>, from: real, cutoff: real)
    ensures Total(s, CountBetween(from, cutoff)) >= 0
    ensures Total(s, CountBetween(from, cutoff)) == 0 <==> NobodyIn(s, from, cutoff)
  {
    if s != [] {
      BetweenNothing(s[..|s| - 1], from, cutoff);
      LastOf(s);
    }
  }

  /**
    When a reader's sum is right, exactly: for every start of the window, whatever the ticks,
    it is the number of users admitted since then if and only if nobody was admitted between
    the start and the last tick's cutoff, and no two admitting ticks since the start have the
    same time and the same count.
  */
  lemma ReadersAreRight(history: seq<LogEntry>, from: real)
    requires Ordered(history) && history != []
    ensures var cutoff := history[|history| - 1].at - 300_000.0;
      WindowSum(LogOf(history), from) == WindowSum(history, from)
      <==> NobodyIn(history, from, cutoff) && Distinct(history, from, cutoff)
  {
    hide Total, LogOf, Hidden, Ordered, NobodyIn, Distinct;
    var cutoff := history[|history| - 1].at - KEEP;
    ReadersFallShortBy(history, from);
    HiddenNothing(history, from, cutoff);
    BetweenNothing(history, from, cutoff);
  }

  /**
    For a window that starts after the last cutoff, that is of less than 300 s, or of 300 s
    once the clock has passed the last tick, the second condition alone decides.
  */
  lemma LogAgreesWithHistory(history: seq<LogEntry>, from: real)
    requires Ordered(history) && history != [] && from > history[|history| - 1].at - 300_000.0
    ensures WindowSum(LogOf(history), from) == WindowSum(history, from) <==>
      forall i, j :: 0 <= i < j < |history| && history[i] == history[j] && history[j].count > 0 ==> history[j].at < from
  {
    hide LogOf, Ordered;
    ReadersAreRight(history, from);
  }

  /**
    A full 300 s window read in the very millisecond of a tick also misses whoever was admitted
    exactly 300 s before.
  */
  lemma FullWindowAtTick(history: seq<LogEntry>)
    requires Ordered(history) && history != []
    ensures var from := history[|history| - 1].at - 300_000.0;
      WindowSum(LogOf(history), from) == WindowSum(history, from) <==>
        (forall e :: e in history && e.at == from ==> e.count == 0) &&
        (forall i, j :: 0 <= i < j < |history| && history[i] == history[j] && history[j].count > 0 ==>
          history[j].at < from)
  {
    hide LogOf, Ordered;
    var from := history[|history| - 1].at - KEEP;
    ReadersAreRight(history, from);
    assert forall j :: 0 <= j < |history| ==> history[j] in history;
  }

  /**
    For instance two ticks in one millisecond: counted apart if they admit differently many, once
    if they admit equally many.
  */
  lemma TwoTicksAtOnce(at: real, m: nat, n: nat)
    requires m > 0 && n > 0
    ensures var history := [LogEntry(at, m), LogEntry(at, n)];
      WindowSum(LogOf(history), at) == WindowSum(history, at) <==> m != n
  {
    var history := [LogEntry(at, m), LogEntry(at, n)];
    LogAgreesWithHistory(history, at);
    if m == n { assert history[0] == history[1]; }
  }
}
