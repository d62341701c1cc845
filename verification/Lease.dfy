/** The leader lock: acquire or renew, as a lease that ends by itself. */
module Lease {
  import opened Measures

  type Id = nat

  /** The lock key; it is gone once the clock has passed `expiresAt`. */
  datatype Lock = Free | Held(owner: Id, expiresAt: int)

  datatype Call = Call(id: Id, now: int)

  function OwnerAt(lock: Lock, now: int): Option<Id> {
    if lock.Held? && now <= lock.expiresAt then Some(lock.owner) else None
  }

  /** leader.lua */
  function Acquired(lock: Lock, c: Call, ttl: int): (Lock, bool) {
    var owner := OwnerAt(lock, c.now);
    if owner == Some(c.id) then (Held(c.id, c.now + ttl), true)
    else if owner.None? then (Held(c.id, c.now + ttl), true)
    else (lock, false)
  }

  class LockKey {
    var lock: Lock

    method Acquire(id: Id, now: int, ttl: int) returns (leader: bool)
      modifies this
      ensures (lock, leader) == Acquired(old(lock), Call(id, now), ttl)
    {
      if lock.Held? && now <= lock.expiresAt {
        if lock.owner == id {
          lock := lock.(expiresAt := now + ttl);
          return true;
        }
        return false;
      }
      lock := Held(id, now + ttl);
      leader := true;
    }
  }

  // ---------- Runs ----------

  /** The lock after a run of calls, with the reply to each. */
  function Played(calls: seq<Call>, ttl: int): (r: (Lock, seq<bool>))
    ensures |r.1| == |calls|
  {
    if calls == [] then (Free, [])
    else
      var before := Played(calls[..|calls| - 1], ttl);
      var step := Acquired(before.0, calls[|calls| - 1], ttl);
      (step.0, before.1 + [step.1])
  }

  predicate Ordered(calls: seq<Call>) {
    forall i, j :: 0 <= i < j < |calls| ==> calls[i].now <= calls[j].now
  }

  /** No other instance got the lock ttl or less before call j. */
  predicate FreeFor(calls: seq<Call>, granted: seq<bool>, ttl: int, j: nat)
    requires |granted| == |calls| && j < |calls|
  {
    forall i :: 0 <= i < j && granted[i] && calls[i].id != calls[j].id ==> calls[i].now + ttl < calls[j].now
  }

  /** The lock is that of the last grant k, and every grant to another instance had run out by then. */
  predicate LastGrant(lock: Lock, calls: seq<Call>, granted: seq<bool>, ttl: int, k: nat)
    requires |granted| == |calls|
  {
    && k < |calls| && granted[k]
    && lock == Held(calls[k].id, calls[k].now + ttl)
    && FreeFor(calls, granted, ttl, k)
    && (forall i :: k < i < |calls| ==> !granted[i])
  }

  ghost predicate LockInv(lock: Lock, calls: seq<Call>, granted: seq<bool>, ttl: int)
    requires |granted| == |calls|
  {
    match lock
    case Free => forall i :: 0 <= i < |calls| ==> !granted[i]
    case Held(_, _) => exists k :: LastGrant(lock, calls, granted, ttl, k)
  }

  /** One more call: it is granted exactly when the lock is free for it, and LockInv goes on to hold. */
  lemma CallKeeps(lock: Lock, calls: seq<Call>, granted: seq<bool>, c: Call, ttl: int)
    requires |granted| == |calls| && Ordered(calls + [c])
    requires LockInv(lock, calls, granted, ttl)
    ensures
      var (lock', reply) := Acquired(lock, c, ttl);
      && LockInv(lock', calls + [c], granted + [reply], ttl)
      && (reply <==> FreeFor(calls + [c], granted + [reply], ttl, |calls|))
  {
    var n := |calls|;
    var (lock', reply) := Acquired(lock, c, ttl);
    var calls', granted' := calls + [c], granted + [reply];
    if lock.Held? {
      var k: nat :| LastGrant(lock, calls, granted, ttl, k);
      assert calls'[k] == calls[k] && granted'[k] && calls'[k].now <= calls'[n].now;
      if reply {
        forall i | 0 <= i < n && granted'[i] && calls'[i].id != c.id ensures calls'[i].now + ttl < c.now {
          if i != k && calls'[i].id == calls'[k].id { assert calls'[i].now <= calls'[k].now; }
        }
        assert LastGrant(lock', calls', granted', ttl, n);
      } else {
        assert LastGrant(lock', calls', granted', ttl, k);
      }
    } else {
      assert LastGrant(lock', calls', granted', ttl, n);
    }
  }

  lemma NoCalls(ttl: int)
    ensures LockInv(Free, [], [], ttl)
  {
  }

  /**
    The lease, over every run of acquire calls by any number of instances: a call is granted
    if and only if no other instance was granted the lock ttl or less before. So whoever got it
    keeps all others out until its last renewal plus ttl has passed, and then anyone gets it.
  */
  lemma {:induction false} GrantedIffFree(calls: seq<Call>, ttl: int)
    requires Ordered(calls)
    ensures LockInv(Played(calls, ttl).0, calls, Played(calls, ttl).1, ttl)
    ensures forall j :: 0 <= j < |calls| ==> (Played(calls, ttl).1[j] <==> FreeFor(calls, Played(calls, ttl).1, ttl, j))
  {
    hide Acquired, LockInv;
    if calls == [] {
      NoCalls(ttl);
    } else {
      var init, c := calls[..|calls| - 1], calls[|calls| - 1];
      assert init + [c] == calls;
      GrantedIffFree(init, ttl);
      var before := Played(init, ttl);
      CallKeeps(before.0, init, before.1, c, ttl);
      var granted := Played(calls, ttl).1;
      forall j | 0 <= j < |init| ensures granted[j] <==> FreeFor(calls, granted, ttl, j) {
        assert granted[j] == before.1[j];
        assert FreeFor(init, before.1, ttl, j) == FreeFor(calls, granted, ttl, j);
      }
    }
  }

  /** Two instances are never inside the same term: successive owners are more than ttl apart. */
  lemma TermsDoNotOverlap(calls: seq<Call>, ttl: int, i: nat, j: nat)
    requires Ordered(calls) && i < j < |calls| && calls[i].id != calls[j].id
    requires Played(calls, ttl).1[i] && Played(calls, ttl).1[j]
    ensures calls[i].now + ttl < calls[j].now
  {
    GrantedIffFree(calls, ttl);
    assert FreeFor(calls, Played(calls, ttl).1, ttl, j);
  }
}
