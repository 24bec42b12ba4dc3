/**
 * The first scheduler: a pseudo-random process picks the owner of every slot.
 */
module SchedulersV1 {
  import opened Wrappers
  import opened Slots
  import opened Schedulers

  const INITIAL_MAX_BLOCK_PROPOSERS: nat := 101

  /** As other schedulers, but with the members in the order of the list. */
  ghost predicate BuiltV1(s: Scheduler, u: Setup, addr: Address) {
    && s.proposer in u.ps && s.proposer.address == addr && s.parent == u.parent && s.interval == u.interval
    && s.sequence == Selected(u.ps, addr, u.key)
  }

  lemma {:induction false} BuiltV1Proper(s: Scheduler, u: Setup, addr: Address)
    requires Sane(u) && BuiltV1(s, u, addr)
    ensures Proper(PlanOf(s)) && SetOf(PlanOf(s).members) == Eligible(u.ps, addr)
    ensures addr in Eligible(u.ps, addr) && |s.sequence| == |Eligible(u.ps, addr)|
  {
    SelectedExact(u.ps, addr, u.key);
    SetOfAddresses(s.sequence);
    assert addr in Eligible(u.ps, addr);
  }

  /** Whose turn it is at a time, by the pseudo-random process. */
  function WhoseTurn(s: Scheduler, random: nat -> nat, t: nat): Address
    requires |s.sequence| > 0
  {
    s.sequence[random(t) % |s.sequence|].address
  }

  /** The owner of one of the last slots before slot `k`, at most as many as there can be proposers. */
  ghost predicate MissedLately(s: Scheduler, random: nat -> nat, k: nat, a: Address)
    requires |s.sequence| > 0
  {
    exists j: nat :: j < k <= j + 101 && TurnAt(s, random, j, a)
  }

  ghost predicate TurnAt(s: Scheduler, random: nat -> nat, j: nat, a: Address)
    requires |s.sequence| > 0
  {
    PlanOf(s).members[random(Time(PlanOf(s), j)) % |s.sequence|] == a
  }

  // ---------- Looking back ----------

  /** One interval earlier, in 64 bits. */
  function Back(t: nat, interval: nat): (r: nat)
    requires t < U64 && interval < U64
    ensures r < U64 && (r + interval) % 0x1_0000_0000_0000_0000 == t
  {
    if t >= interval then t - interval else U64 - (interval - t)
  }

  /** `i + 1` intervals before `t`. */
  function BackTime(t: nat, interval: nat, i: nat): (r: nat)
    requires t < U64 && interval < U64
    ensures r < U64
  {
    Back(if i == 0 then t else BackTime(t, interval, i - 1), interval)
  }

  /** The time is looked at: as many as there can be proposers, until one is not after the parent. */
  predicate LookedAt(s: Scheduler, t: nat, i: nat)
    requires t < U64 && s.interval < U64
  {
    i < INITIAL_MAX_BLOCK_PROPOSERS && BackTime(t, s.interval, i) > s.parent && (i > 0 ==> LookedAt(s, t, i - 1))
  }

  ghost predicate OwnedBack(s: Scheduler, random: nat -> nat, t: nat, i: nat, a: Address)
    requires |s.sequence| > 0 && t < U64 && s.interval < U64
  {
    PlanOf(s).members[random(BackTime(t, s.interval, i)) % |s.sequence|] == a
  }

  ghost predicate OwnedWithin(s: Scheduler, random: nat -> nat, t: nat, n: nat, a: Address)
    requires |s.sequence| > 0 && t < U64 && s.interval < U64
  {
    exists i: nat :: i < n && OwnedBack(s, random, t, i, a)
  }

  lemma {:induction false} OwnedNext(s: Scheduler, random: nat -> nat, t: nat, n: nat)
    requires |s.sequence| > 0 && t < U64 && s.interval < U64
    ensures forall a :: OwnedWithin(s, random, t, n + 1, a) <==>
              OwnedWithin(s, random, t, n, a) || a == WhoseTurn(s, random, BackTime(t, s.interval, n))
  {
    forall a ensures OwnedWithin(s, random, t, n + 1, a) <==>
                       OwnedWithin(s, random, t, n, a) || a == WhoseTurn(s, random, BackTime(t, s.interval, n))
    {
      OwnedOneMore(s, random, t, n, a);
    }
  }

  lemma {:induction false} OwnedOneMore(s: Scheduler, random: nat -> nat, t: nat, n: nat, a: Address)
    requires |s.sequence| > 0 && t < U64 && s.interval < U64
    ensures OwnedWithin(s, random, t, n + 1, a) <==>
              OwnedWithin(s, random, t, n, a) || a == WhoseTurn(s, random, BackTime(t, s.interval, n))
  {
    assert OwnedBack(s, random, t, n, a) <==> a == WhoseTurn(s, random, BackTime(t, s.interval, n));
    if OwnedWithin(s, random, t, n + 1, a) {
      var i: nat :| i < n + 1 && OwnedBack(s, random, t, i, a);
      assert i < n || i == n;
    }
  }

  /** Someone else than the proposer, who owned a time that is looked at. */
  ghost predicate MissedBack(s: Scheduler, random: nat -> nat, t: nat, a: Address)
    requires |s.sequence| > 0 && t < U64 && s.interval < U64
  {
    a != s.proposer.address && exists i: nat :: LookedAt(s, t, i) && OwnedBack(s, random, t, i, a)
  }

  method LookBack(s: Scheduler, random: nat -> nat, newBlockTime: nat) returns (off: set<Address>)
    requires |s.sequence| > 0 && s.interval < U64 && newBlockTime < U64
    ensures forall a :: a in off <==> MissedBack(s, random, newBlockTime, a)
    ensures off <= SetOf(PlanOf(s).members) - {s.proposer.address}
  {
    off := {};
    var t := Back(newBlockTime, s.interval);
    var i := 0;
    while i < INITIAL_MAX_BLOCK_PROPOSERS && t > s.parent
      invariant i <= INITIAL_MAX_BLOCK_PROPOSERS && t == BackTime(newBlockTime, s.interval, i)
      invariant forall j: nat :: j < i ==> LookedAt(s, newBlockTime, j)
      invariant forall a :: a in off <==> a != s.proposer.address && OwnedWithin(s, random, newBlockTime, i, a)
      invariant off <= SetOf(PlanOf(s).members) - {s.proposer.address}
    {
      var p := WhoseTurn(s, random, t);
      assert PlanOf(s).members[random(t) % |s.sequence|] == p;
      OwnedNext(s, random, newBlockTime, i);
      if p != s.proposer.address {
        off := off + {p};
      }
      t := Back(t, s.interval);
      i := i + 1;
    }
    forall j: nat | LookedAt(s, newBlockTime, j) ensures j < i {
      LookedBefore(s, newBlockTime, i, j);
    }
  }

  lemma {:induction false} LookedBefore(s: Scheduler, t: nat, i: nat, j: nat)
    requires t < U64 && s.interval < U64 && !LookedAt(s, t, i) && LookedAt(s, t, j)
    ensures j < i
  {
    if j > i {
      LookedBefore(s, t, i, j - 1);
    }
  }

  /** At the time of a slot, the times looked at are those of the slots before it. */
  lemma {:induction false} BackFromSlot(s: Scheduler, k: nat, i: nat)
    requires 1 <= s.interval < U64 && Time(PlanOf(s), k) < U64 && i <= k
    ensures BackTime(Time(PlanOf(s), k), s.interval, i) == if i < k then Time(PlanOf(s), k - 1 - i) else s.parent
    ensures LookedAt(s, Time(PlanOf(s), k), i) <==> i < k && i < INITIAL_MAX_BLOCK_PROPOSERS
  {
    if i < k {
      SlotTimePositive(s.parent, s.interval, k - 1 - i);
    }
    if i > 0 {
      BackFromSlot(s, k, i - 1);
    }
  }

  /** There, who owned a time that is looked at missed one of the last slots. */
  lemma {:induction false} MissedBackIsLately(s: Scheduler, random: nat -> nat, k: nat, a: Address)
    requires |s.sequence| > 0 && 1 <= s.interval < U64 && Time(PlanOf(s), k) < U64
    ensures MissedBack(s, random, Time(PlanOf(s), k), a) <==> a != s.proposer.address && MissedLately(s, random, k, a)
  {
    var t := Time(PlanOf(s), k);
    if i: nat :| LookedAt(s, t, i) && OwnedBack(s, random, t, i, a) {
      BackFromSlot(s, k, k);
      LookedBefore(s, t, k, i);
      BackFromSlot(s, k, i);
      assert TurnAt(s, random, k - 1 - i, a);
    }
    if j: nat :| j < k <= j + 101 && TurnAt(s, random, j, a) {
      BackFromSlot(s, k, k - 1 - j);
      assert OwnedBack(s, random, t, k - 1 - j, a);
    }
  }

  lemma {:induction false} OffOf(updates: seq<Update>, d: Update)
    requires !d.active
    ensures Off(updates + [d]) == Off(updates) + {d.address}
  {
  }

  method Deactivations(off: set<Address>) returns (updates: seq<Update>)
    ensures Off(updates) == off && |updates| == |off| && forall d :: d in updates ==> !d.active
  {
    updates := [];
    var rest := off;
    while rest != {}
      invariant rest <= off && Off(updates) == off - rest && |updates| + |rest| == |off|
      invariant forall d :: d in updates ==> !d.active
      decreases |rest|
    {
      var a :| a in rest;
      OffOf(updates, Update(a, false));
      updates := updates + [Update(a, false)];
      rest := rest - {a};
    }
  }

  /** Deactivates who missed a slot lately, and tells how many proposers stay active. */
  method UpdatesV1(s: Scheduler, u: Setup, random: nat -> nat, newBlockTime: nat) returns (updates: seq<Update>, score: nat)
    requires Sane(u) && BuiltV1(s, u, s.proposer.address) && s.interval < U64 && newBlockTime < U64
    ensures |s.sequence| > 0
    ensures forall a :: a in Off(updates) <==> MissedBack(s, random, newBlockTime, a)
    ensures score == |ActiveAfter(u.ps, updates)| && score >= 1
  {
    BuiltV1Proper(s, u, s.proposer.address);
    var off := LookBack(s, random, newBlockTime);
    updates := Deactivations(off);
    StillActive(s, u, updates);
    score := |s.sequence| - |off|;
    if !s.proposer.active {
      OffActive(updates, s.proposer.address);
      updates := updates + [Update(s.proposer.address, true)];
    } else {
      assert updates + [] == updates;
    }
  }

  lemma {:induction false} OffActive(updates: seq<Update>, a: Address)
    ensures Off(updates + [Update(a, true)]) == Off(updates)
  {
  }

  /** Who stays active, by count. */
  lemma {:induction false} StillActive(s: Scheduler, u: Setup, updates: seq<Update>)
    requires Sane(u) && BuiltV1(s, u, s.proposer.address) && Off(updates) <= Eligible(u.ps, s.proposer.address) - {s.proposer.address}
    requires forall d :: d in updates ==> !d.active
    ensures |ActiveAfter(u.ps, WithProposer(updates, s.proposer))| == |s.sequence| - |Off(updates)| >= 1
  {
    var all, off := Eligible(u.ps, s.proposer.address), Off(updates);
    BuiltV1Proper(s, u, s.proposer.address);
    DifferenceCount(all, off);
    WithoutOne(all, s.proposer.address);
    Subset(off, all - {s.proposer.address});
    AppliedUpdates(u.ps, s.proposer, updates);
  }
}
