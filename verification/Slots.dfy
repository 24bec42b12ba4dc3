/**
 * Time slots after a block: slot 0 is one interval after it, and the members of a sequence own the
 * slots in turn.
 */
module Slots {
  import opened Wrappers
  import opened Arithmetic

  // ---------- Arithmetic ----------

  /** The time of a slot. */
  function SlotTime(parent: nat, interval: nat, k: nat): nat {
    if k == 0 then parent + interval else SlotTime(parent, interval, k - 1) + interval
  }

  lemma {:induction false} SlotTimeIs(parent: nat, interval: nat, k: nat)
    ensures SlotTime(parent, interval, k) == parent + k * interval + interval
  {
    if k > 0 {
      SlotTimeIs(parent, interval, k - 1);
      assert k * interval == (k - 1) * interval + interval;
    }
  }

  lemma {:induction false} SlotsApart(parent: nat, interval: nat, j: nat, k: nat)
    requires interval >= 1 && j < k
    ensures SlotTime(parent, interval, j) + interval <= SlotTime(parent, interval, k)
    decreases k
  {
    if j < k - 1 {
      SlotsApart(parent, interval, j, k - 1);
    }
  }

  lemma {:induction false} SlotTimePositive(parent: nat, interval: nat, k: nat)
    requires interval >= 1
    ensures SlotTime(parent, interval, k) > parent
  {
    if k > 0 {
      SlotsApart(parent, interval, 0, k);
    }
  }

  /** Adding slots adds intervals. */
  lemma {:induction false} SlotTimeSum(parent: nat, interval: nat, j: nat, i: nat)
    ensures SlotTime(parent, interval, j + i) == SlotTime(parent, interval, j) + i * interval
  {
    if i > 0 {
      SlotTimeSum(parent, interval, j, i - 1);
      assert i * interval == (i - 1) * interval + interval;
    }
  }

  /** The slot that an aligned time after the parent belongs to. */
  method SlotAt(parent: nat, interval: nat, t: nat) returns (k: nat)
    requires interval >= 1 && t > parent && (t - parent) % interval == 0
    ensures k == (t - parent - interval) / interval && SlotTime(parent, interval, k) == t
  {
    Aligned(t - parent, interval);
    k := (t - parent - interval) / interval;
    SlotTimeIs(parent, interval, k);
  }

  lemma {:induction false} Aligned(d: nat, interval: nat)
    requires interval >= 1 && d > 0 && d % interval == 0
    ensures d >= interval && (d - interval) / interval >= 0 && (d - interval) / interval * interval == d - interval
  {
    var q := d / interval;
    assert d == q * interval;
    Multiples(q, interval);
    QuotientOfMultiple(q - 1, interval);
  }

  lemma {:induction false} Multiples(q: int, interval: nat)
    requires q * interval > 0
    ensures q >= 1 && q * interval == (q - 1) * interval + interval && (q - 1) * interval >= 0
  {
  }

  lemma {:induction false} QuotientOfMultiple(q: nat, interval: nat)
    requires interval >= 1
    ensures q * interval / interval == q && q * interval % interval == 0
  {
    DivModUnique(q * interval, interval, q, 0);
  }

  /** Times that are not aligned, or not after the parent, are in no slot. */
  lemma {:induction false} SlotsAligned(parent: nat, interval: nat, k: nat)
    requires interval >= 1
    ensures var t := SlotTime(parent, interval, k);
            t > parent && (t - parent) % interval == 0 && (t - parent - interval) / interval == k
  {
    SlotTimeIs(parent, interval, k);
    SlotTimePositive(parent, interval, k);
    QuotientOfMultiple(k, interval);
    QuotientOfMultiple(k + 1, interval);
    assert (k + 1) * interval == k * interval + interval;
  }

  // ---------- Remainders ----------

  function Turn(k: nat, n: nat): (r: nat)
    requires n > 0
    ensures r < n
  {
    if k < n then k else Turn(k - n, n)
  }

  lemma {:induction false} TurnIsRemainder(k: nat, n: nat)
    requires n > 0
    ensures Turn(k, n) == k % n
  {
    if k >= n {
      TurnIsRemainder(k - n, n);
      RemainderStep(k - n, n);
    }
  }

  lemma {:induction false} RemainderStep(k: nat, n: nat)
    requires n > 0
    ensures (k + n) % n == k % n
  {
    var q, r := k / n, k % n;
    assert (q + 1) * n == q * n + n;
    DivModUnique(k + n, n, q + 1, r);
  }

  lemma {:induction false} TurnShift(k: nat, i: nat, n: nat)
    requires n > 0
    ensures Turn(k + i, n) == Turn(Turn(k, n) + i, n)
  {
    if k >= n {
      TurnShift(k - n, i, n);
    }
  }

  // ---------- Owners of slots ----------

  predicate Distinct(members: seq<Address>) {
    forall i, j :: 0 <= i < j < |members| ==> members[i] != members[j]
  }

  function Owner(members: seq<Address>, k: nat): Address
    requires |members| > 0
  {
    members[Turn(k, |members|)]
  }

  /** Within as many slots as there are members, every member has a slot. */
  lemma {:induction false} EachHasSlot(members: seq<Address>, k: nat, j: nat) returns (i: nat)
    requires j < |members|
    ensures i < |members| && Owner(members, k + i) == members[j]
  {
    var n := |members|;
    var r := Turn(k, n);
    i := if j >= r then j - r else j + n - r;
    TurnShift(k, i, n);
  }

  /** And only one. */
  lemma {:induction false} EachHasOneSlot(members: seq<Address>, k: nat, i: nat, j: nat)
    requires Distinct(members) && i < j < |members|
    ensures Owner(members, k + i) != Owner(members, k + j)
  {
    TurnShift(k, i, |members|);
    TurnShift(k, j, |members|);
  }

  /** Where and when: the parent's time, the interval and the members in turn. */
  datatype Plan = Plan(parent: nat, interval: nat, members: seq<Address>)

  predicate Proper(p: Plan) {
    p.interval >= 1 && |p.members| > 0
  }

  function Time(p: Plan, k: nat): nat {
    SlotTime(p.parent, p.interval, k)
  }

  ghost predicate OwnsSlot(p: Plan, a: Address, t: nat, k: nat)
    requires Proper(p)
  {
    Time(p, k) == t && Owner(p.members, k) == a
  }

  /** A member may produce a block at this time: it owns a slot there. */
  ghost predicate Owns(p: Plan, a: Address, t: nat)
    requires Proper(p)
  {
    exists k: nat :: OwnsSlot(p, a, t, k)
  }

  /** No time belongs to two. */
  lemma {:induction false} OwnerUnique(p: Plan, a: Address, b: Address, t: nat)
    requires Proper(p) && Owns(p, a, t) && Owns(p, b, t)
    ensures a == b
  {
    var j: nat :| OwnsSlot(p, a, t, j);
    var k: nat :| OwnsSlot(p, b, t, k);
    if j < k {
      SlotsApart(p.parent, p.interval, j, k);
    } else if k < j {
      SlotsApart(p.parent, p.interval, k, j);
    }
  }

  method IsScheduled(p: Plan, t: nat, a: Address) returns (r: bool)
    requires Proper(p)
    ensures r <==> Owns(p, a, t)
  {
    if p.parent >= t || (t - p.parent) % p.interval != 0 {
      forall k: nat ensures Time(p, k) != t {
        SlotsAligned(p.parent, p.interval, k);
      }
      return false;
    }
    var k := SlotAt(p.parent, p.interval, t);
    TurnIsRemainder(k, |p.members|);
    r := p.members[k % |p.members|] == a;
    assert r ==> OwnsSlot(p, a, t, k);
    if !r {
      forall j: nat ensures !OwnsSlot(p, a, t, j) {
        SlotsAligned(p.parent, p.interval, j);
      }
    }
  }

  lemma {:induction false} Ceiling(d: nat, interval: nat)
    requires interval >= 1 && d >= 1
    ensures var m := (d + interval - 1) / interval; m >= 1 && m * interval >= d && (m - 1) * interval < d
  {
    var m := (d + interval - 1) / interval;
    assert d + interval - 1 == m * interval + (d + interval - 1) % interval;
    assert (m - 1) * interval == m * interval - interval;
    MulGap(m, 1, interval);
  }

  /** The first slot that is not before a time. */
  method FirstSlot(p: Plan, now: nat) returns (t: nat, k: nat)
    requires Proper(p)
    ensures Time(p, k) == t && t >= now && (k == 0 || Time(p, k - 1) < now)
  {
    t := p.parent + p.interval;
    ghost var m := 0;
    if now > t {
      Ceiling(now - t, p.interval);
      m := (now - t + p.interval - 1) / p.interval;
      SlotTimeSum(p.parent, p.interval, 0, m - 1);
      t := t + (now - t + p.interval - 1) / p.interval * p.interval;
    }
    SlotTimeSum(p.parent, p.interval, 0, m);
    SlotTimeIs(p.parent, p.interval, m);
    assert (m + 1) * p.interval == m * p.interval + p.interval;
    DivModUnique(t - p.parent, p.interval, m + 1, 0);
    k := (t - p.parent) / p.interval - 1;
  }

  method OwnerAt(members: seq<Address>, k: nat) returns (a: Address)
    requires |members| > 0
    ensures a == Owner(members, k)
  {
    TurnIsRemainder(k, |members|);
    return members[k % |members|];
  }

  method TimeAfter(p: Plan, k: nat, start: nat, i: nat) returns (t: nat)
    requires Proper(p) && start == Time(p, k)
    ensures t == Time(p, k + i) && t >= start && t > p.parent
  {
    SlotTimeSum(p.parent, p.interval, k, i);
    SlotTimePositive(p.parent, p.interval, k + i);
    return start + i * p.interval;
  }

  /** The least time, not before `now`, at which the proposer may produce a block. */
  method Schedule(p: Plan, proposer: Address, now: nat) returns (t: nat)
    requires Proper(p) && proposer in p.members
    ensures t >= now && t > p.parent && Owns(p, proposer, t)
    ensures forall u :: u >= now && Owns(p, proposer, u) ==> t <= u
  {
    var start, offset := FirstSlot(p, now);
    var n := |p.members|;
    ghost var j :| 0 <= j < n && p.members[j] == proposer;
    ghost var hit := EachHasSlot(p.members, offset, j);
    for i := 0 to n
      invariant forall k :: offset <= k < offset + i ==> Owner(p.members, k) != proposer
    {
      var a := OwnerAt(p.members, i + offset);
      if a == proposer {
        t := TimeAfter(p, offset, start, i);
        assert OwnsSlot(p, proposer, t, offset + i);
        NoEarlierSlot(p, proposer, now, offset, i);
        return;
      }
    }
    assert false;
  }

  lemma {:induction false} NoEarlierSlot(p: Plan, proposer: Address, now: nat, offset: nat, i: nat)
    requires Proper(p) && (offset == 0 || Time(p, offset - 1) < now)
    requires forall k :: offset <= k < offset + i ==> Owner(p.members, k) != proposer
    ensures forall u :: u >= now && Owns(p, proposer, u) ==> Time(p, offset + i) <= u
  {
    forall u | u >= now && Owns(p, proposer, u) ensures Time(p, offset + i) <= u {
      var k: nat :| OwnsSlot(p, proposer, u, k);
      if k < offset {
        if k < offset - 1 {
          SlotsApart(p.parent, p.interval, k, offset - 1);
        }
      } else if offset + i < k {
        SlotsApart(p.parent, p.interval, offset + i, k);
      }
    }
  }

  // ---------- Missed slots ----------

  /** The owner of some slot strictly between the parent and a time. */
  ghost predicate Missed(p: Plan, t: nat, a: Address)
    requires Proper(p)
  {
    exists k: nat :: Time(p, k) < t && Owner(p.members, k) == a
  }

  /** One round of the members is enough to look at, however many slots have passed. */
  lemma {:induction false} MissedInFirstRound(p: Plan, t: nat, n: nat, a: Address)
    requires Proper(p) && n <= |p.members| && (n == |p.members| || Time(p, n) >= t)
    requires forall k :: 0 <= k < n ==> Time(p, k) < t
    ensures Missed(p, t, a) <==> exists i :: 0 <= i < n && p.members[i] == a
  {
    if Missed(p, t, a) {
      var k: nat :| Time(p, k) < t && Owner(p.members, k) == a;
      if n < |p.members| {
        if n < k {
          SlotsApart(p.parent, p.interval, n, k);
        }
      }
      assert p.members[Turn(k, |p.members|)] == a;
    }
    if i :| 0 <= i < n && p.members[i] == a {
      assert Time(p, i) < t && Owner(p.members, i) == a;
    }
  }
}
