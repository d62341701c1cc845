/**
  Redis sorted sets as sequences in their own order: by score, then by member. Members stand
  for user ids by their place in the byte order Redis compares them in; scores are reals.
*/
module SortedSets {
  import opened Measures

  type Member = nat

  datatype Entry = Entry(score: real, member: Member)

  predicate Before(a: Entry, b: Entry) {
    a.score < b.score || (a.score == b.score && a.member < b.member)
  }

  /** Strictly ordered, and every member at most once. */
  predicate ZSet(s: seq<Entry>) {
    forall i, j :: 0 <= i < j < |s| ==> Before(s[i], s[j]) && s[i].member != s[j].member
  }

  /** ZRANK */
  function Rank(s: seq<Entry>, m: Member): (r: Option<nat>)
    ensures r.Some? ==> r.value < |s| && s[r.value].member == m
    ensures r.None? ==> forall i :: 0 <= i < |s| ==> s[i].member != m
  {
    if s == [] then None
    else if s[|s| - 1].member == m then Some(|s| - 1)
    else Rank(s[..|s| - 1], m)
  }

  predicate Has(s: seq<Entry>, m: Member) {
    Rank(s, m).Some?
  }

  function Members(s: seq<Entry>): set<Member> {
    set e | e in s :: e.member
  }

  /** The entry of a member that is present. */
  function EntryOf(s: seq<Entry>, m: Member): Entry
    requires Has(s, m)
  {
    s[Rank(s, m).value]
  }

  /** The number of leading entries that precede e. */
  function Place(s: seq<Entry>, e: Entry): (k: nat)
    ensures k <= |s|
    ensures k > 0 ==> Before(s[k - 1], e)
    ensures forall i :: k <= i < |s| ==> !Before(s[i], e)
  {
    if s == [] then 0 else if Before(s[|s| - 1], e) then |s| else Place(s[..|s| - 1], e)
  }

  /** ZREM */
  function Remove(s: seq<Entry>, m: Member): seq<Entry> {
    match Rank(s, m)
    case None => s
    case Some(k) => s[..k] + s[k + 1..]
  }

  function Insert(s: seq<Entry>, e: Entry): seq<Entry> {
    var k := Place(s, e);
    s[..k] + [e] + s[k..]
  }

  /** ZADD, ZADD NX and ZADD XX */
  function Add(s: seq<Entry>, e: Entry): seq<Entry> {
    Insert(Remove(s, e.member), e)
  }

  function AddNew(s: seq<Entry>, e: Entry): seq<Entry> {
    if Has(s, e.member) then s else Insert(s, e)
  }

  function AddExisting(s: seq<Entry>, e: Entry): seq<Entry> {
    if Has(s, e.member) then Add(s, e) else s
  }

  /** The number of leading entries with a score of at most `bound`. */
  function CountUpTo(s: seq<Entry>, bound: real): (k: nat)
    ensures k <= |s|
    ensures forall i :: 0 <= i < k ==> s[i].score <= bound
    ensures k < |s| ==> s[k].score > bound
  {
    if s == [] || s[0].score > bound then 0 else 1 + CountUpTo(s[1..], bound)
  }

  /** ZREMRANGEBYSCORE -inf bound */
  function Purge(s: seq<Entry>, bound: real): seq<Entry> {
    s[CountUpTo(s, bound)..]
  }

  // ---------- Facts ----------

  /** A member's rank is the one index where it stands. */
  lemma RankIs(s: seq<Entry>, k: nat)
    requires ZSet(s) && k < |s|
    ensures Rank(s, s[k].member) == Some(k)
  {
  }

  lemma RemoveEntries(s: seq<Entry>, m: Member)
    requires ZSet(s)
    ensures ZSet(Remove(s, m))
    ensures forall e :: e in Remove(s, m) <==> e in s && e.member != m
    ensures |Remove(s, m)| == |s| - (if Has(s, m) then 1 else 0)
  {
    var r := Remove(s, m);
    if Has(s, m) {
      var k := Rank(s, m).value;
      assert forall i :: 0 <= i < |r| ==> r[i] == if i < k then s[i] else s[i + 1];
      forall e | e in s && e.member != m ensures e in r {
        var i :| 0 <= i < |s| && s[i] == e;
        assert r[if i < k then i else i - 1] == e;
      }
    }
  }

  lemma RemoveFacts(s: seq<Entry>, m: Member)
    requires ZSet(s)
    ensures ZSet(Remove(s, m))
    ensures Members(Remove(s, m)) == Members(s) - {m}
    ensures forall e :: e in Remove(s, m) <==> e in s && e.member != m
    ensures |Remove(s, m)| == |s| - (if m in Members(s) then 1 else 0)
  {
    hide ZSet, Remove;
    RemoveEntries(s, m);
    HasIff(s, m);
  }

  /** What stands where after an insertion. */
  lemma InsertAt(s: seq<Entry>, e: Entry, i: nat)
    requires i <= |s|
    ensures Insert(s, e)[i] == if i < Place(s, e) then s[i] else if i == Place(s, e) then e else s[i - 1]
  {
  }

  lemma InsertOrder(s: seq<Entry>, e: Entry)
    requires ZSet(s) && !Has(s, e.member)
    ensures ZSet(Insert(s, e))
  {
    hide Place, Insert, Rank;
    InsertSize(s, e);
    var k := Place(s, e);
    forall i | 0 <= i < k ensures Before(s[i], e) {
      assert i < k - 1 ==> Before(s[i], s[k - 1]);
    }
    forall i, j | 0 <= i < j <= |s|
      ensures Before(Insert(s, e)[i], Insert(s, e)[j]) && Insert(s, e)[i].member != Insert(s, e)[j].member
    {
      InsertAt(s, e, i);
      InsertAt(s, e, j);
    }
  }

  lemma InsertSize(s: seq<Entry>, e: Entry)
    ensures |Insert(s, e)| == |s| + 1
    ensures forall x :: x in Insert(s, e) <==> x in s || x == e
  {
    hide Place;
    var k := Place(s, e);
    assert s == s[..k] + s[k..];
  }

  lemma InsertFacts(s: seq<Entry>, e: Entry)
    requires ZSet(s) && e.member !in Members(s)
    ensures ZSet(Insert(s, e))
    ensures Members(Insert(s, e)) == Members(s) + {e.member}
    ensures |Insert(s, e)| == |s| + 1
    ensures forall x :: x in Insert(s, e) <==> x in s || x == e
  {
    hide ZSet, Insert;
    HasIff(s, e.member);
    InsertOrder(s, e);
    InsertSize(s, e);
  }

  /** A sequence by its last entry. */
  lemma LastEntry(s: seq<Entry>)
    requires s != []
    ensures Members(s) == Members(s[..|s| - 1]) + {s[|s| - 1].member}
    ensures forall e :: e in s <==> e in s[..|s| - 1] || e == s[|s| - 1]
    ensures ZSet(s) ==> ZSet(s[..|s| - 1]) && s[|s| - 1].member !in Members(s[..|s| - 1])
  {
    assert s == s[..|s| - 1] + [s[|s| - 1]];
  }

  lemma AddFacts(s: seq<Entry>, e: Entry)
    requires ZSet(s)
    ensures ZSet(Add(s, e))
    ensures Members(Add(s, e)) == Members(s) + {e.member}
    ensures forall x :: x in Add(s, e) <==> x == e || (x in s && x.member != e.member)
    ensures |Add(s, e)| == |s| + (if e.member in Members(s) then 0 else 1)
  {
    RemoveFacts(s, e.member);
    InsertFacts(Remove(s, e.member), e);
  }

  lemma HasIff(s: seq<Entry>, m: Member)
    ensures Has(s, m) <==> m in Members(s)
    ensures Has(s, m) ==> EntryOf(s, m) in s && EntryOf(s, m).member == m
  {
    if Has(s, m) { assert s[Rank(s, m).value] in s; }
  }

  lemma PurgeFacts(s: seq<Entry>, bound: real)
    requires ZSet(s)
    ensures ZSet(Purge(s, bound))
    ensures forall e :: e in Purge(s, bound) <==> e in s && e.score > bound
  {
    var k := CountUpTo(s, bound);
    forall i | k <= i < |s| ensures s[i].score > bound {
      assert i > k ==> Before(s[k], s[i]);
    }
    forall e | e in s && e.score > bound ensures e in s[k..] {
      var i :| 0 <= i < |s| && s[i] == e;
      assert s[k..][i - k] == e;
    }
  }

  /** Same entry, same place in the order: ranks follow the entries. */
  lemma RankOrder(s: seq<Entry>, a: Member, b: Member)
    requires ZSet(s) && Has(s, a) && Has(s, b)
    ensures Rank(s, a).value < Rank(s, b).value <==> Before(EntryOf(s, a), EntryOf(s, b))
  {
  }

  lemma EntryIs(s: seq<Entry>, e: Entry)
    requires ZSet(s) && e in s
    ensures Has(s, e.member) && EntryOf(s, e.member) == e
  {
    var i :| 0 <= i < |s| && s[i] == e;
    RankIs(s, i);
  }
}
