/**
 * Schedulers of block proposers: who is in the sequence, who is deactivated for missed slots, and the
 * score of a block.
 */
module Schedulers {
  import opened Wrappers
  import opened Arithmetic
  import opened Slots

  datatype Proposer = Proposer(address: Address, active: bool, weight: nat)

  /** A change of the status of a proposer. */
  datatype Update = Update(address: Address, active: bool)

  // ---------- The sequence ----------

  /** A proposer in the sequence, with the key it is sorted by. */
  datatype Entry = Entry(address: Address, weight: nat, active: bool, key: real)

  predicate NoTwins(ps: seq<Proposer>) {
    forall i, j :: 0 <= i < j < |ps| ==> ps[i].address != ps[j].address
  }

  predicate Listed(ps: seq<Proposer>, addr: Address) {
    exists i :: 0 <= i < |ps| && ps[i].address == addr
  }

  /** The active proposers, and the one to be scheduled, in the order of the list; the key may depend on the position. */
  function Selected(ps: seq<Proposer>, addr: Address, key: (nat, Proposer) -> real): seq<Entry> {
    if ps == [] then []
    else
      var n := |ps| - 1;
      Selected(ps[..n], addr, key) +
      if ps[n].active || ps[n].address == addr then [Entry(ps[n].address, ps[n].weight, ps[n].active, key(n, ps[n]))] else []
  }

  /** Inserts behind all entries whose key is not larger. */
  function Insert(s: seq<Entry>, e: Entry): seq<Entry> {
    if s == [] then [e]
    else if s[|s| - 1].key <= e.key then s + [e]
    else Insert(s[..|s| - 1], e) + [s[|s| - 1]]
  }

  /** Stable sort by key. */
  function Sorted(s: seq<Entry>): seq<Entry> {
    if s == [] then [] else Insert(Sorted(s[..|s| - 1]), s[|s| - 1])
  }

  predicate Ascending(s: seq<Entry>) {
    forall i, j :: 0 <= i < j < |s| ==> s[i].key <= s[j].key
  }

  lemma {:induction false} InsertPermutes(s: seq<Entry>, e: Entry)
    ensures multiset(Insert(s, e)) == multiset(s) + multiset{e} && |Insert(s, e)| == |s| + 1
  {
    if s != [] {
      assert s == s[..|s| - 1] + [s[|s| - 1]];
      InsertPermutes(s[..|s| - 1], e);
    }
  }

  lemma {:induction false} InsertBounded(s: seq<Entry>, e: Entry, max: real)
    requires e.key <= max && forall i :: 0 <= i < |s| ==> s[i].key <= max
    ensures forall i :: 0 <= i < |Insert(s, e)| ==> Insert(s, e)[i].key <= max
  {
    if s != [] {
      InsertBounded(s[..|s| - 1], e, max);
    }
  }

  lemma {:induction false} InsertAscends(s: seq<Entry>, e: Entry)
    requires Ascending(s)
    ensures Ascending(Insert(s, e))
  {
    if s != [] && s[|s| - 1].key > e.key {
      InsertAscends(s[..|s| - 1], e);
      InsertBounded(s[..|s| - 1], e, s[|s| - 1].key);
    }
  }

  /** Sorting orders the entries and neither drops nor adds any. */
  lemma {:induction false} SortedIsSorted(s: seq<Entry>)
    ensures Ascending(Sorted(s)) && multiset(Sorted(s)) == multiset(s) && |Sorted(s)| == |s|
  {
    if s != [] {
      var n := |s| - 1;
      assert s == s[..n] + [s[n]];
      SortedIsSorted(s[..n]);
      InsertPermutes(Sorted(s[..n]), s[n]);
      InsertAscends(Sorted(s[..n]), s[n]);
    }
  }

  /** The entries with a key, in their order. */
  ghost function OfKey(s: seq<Entry>, key: real): seq<Entry> {
    if s == [] then [] else OfKey(s[..|s| - 1], key) + if s[|s| - 1].key == key then [s[|s| - 1]] else []
  }

  lemma {:induction false} OfKeyLast(s: seq<Entry>, e: Entry, key: real)
    ensures OfKey(s + [e], key) == if e.key == key then OfKey(s, key) + [e] else OfKey(s, key)
  {
    assert (s + [e])[..|s|] == s;
  }

  lemma {:induction false} InsertStable(s: seq<Entry>, e: Entry, key: real)
    ensures OfKey(Insert(s, e), key) == OfKey(s + [e], key)
  {
    OfKeyLast(s, e, key);
    if s == [] {
      assert [] + [e] == [e];
    } else if s[|s| - 1].key > e.key {
      var n := |s| - 1;
      InsertStable(s[..n], e, key);
      OfKeyLast(s[..n], e, key);
      OfKeyLast(Insert(s[..n], e), s[n], key);
      assert OfKey(s, key) == if s[n].key == key then OfKey(s[..n], key) + [s[n]] else OfKey(s[..n], key) by {
        assert s == s[..n] + [s[n]];
        OfKeyLast(s[..n], s[n], key);
      }
    }
  }

  /** Entries with the same key stay in the order of the list. */
  lemma {:induction false} SortedStable(s: seq<Entry>, key: real)
    ensures OfKey(Sorted(s), key) == OfKey(s, key)
  {
    if s != [] {
      var n := |s| - 1;
      SortedStable(s[..n], key);
      InsertStable(Sorted(s[..n]), s[n], key);
      OfKeyLast(Sorted(s[..n]), s[n], key);
    }
  }

  // ---------- Members ----------

  function Addresses(s: seq<Entry>): (r: seq<Address>)
    ensures |r| == |s| && forall i :: 0 <= i < |s| ==> r[i] == s[i].address
  {
    seq(|s|, i requires 0 <= i < |s| => s[i].address)
  }

  function AddressSet(s: seq<Entry>): set<Address> {
    set e | e in s :: e.address
  }

  /** The proposers who take part when `addr` is to be scheduled: it, and the active ones. */
  function Eligible(ps: seq<Proposer>, addr: Address): set<Address> {
    set p | p in ps && (p.active || p.address == addr) :: p.address
  }

  lemma {:induction false} EligibleAppend(ps: seq<Proposer>, p: Proposer, addr: Address)
    ensures Eligible(ps + [p], addr) == if p.active || p.address == addr then Eligible(ps, addr) + {p.address} else Eligible(ps, addr)
  {
    assert forall q :: q in ps + [p] <==> q in ps || q == p;
  }

  lemma {:induction false} EligibleLast(ps: seq<Proposer>, addr: Address)
    requires NoTwins(ps) && ps != []
    ensures var p := ps[|ps| - 1];
            var before := Eligible(ps[..|ps| - 1], addr);
            p.address !in before && Eligible(ps, addr) == if p.active || p.address == addr then before + {p.address} else before
  {
    var n := |ps| - 1;
    EligibleAppend(ps[..n], ps[n], addr);
    assert ps == ps[..n] + [ps[n]];
    forall p | p in ps[..n] ensures p.address != ps[n].address {
      var i :| 0 <= i < n && ps[..n][i] == p;
      assert ps[i] == p;
    }
  }

  lemma {:induction false} AddressSetLast(s: seq<Entry>, e: Entry)
    ensures AddressSet(s + [e]) == AddressSet(s) + {e.address}
  {
  }

  lemma {:induction false} SelectedExact(ps: seq<Proposer>, addr: Address, key: (nat, Proposer) -> real)
    requires NoTwins(ps)
    ensures AddressSet(Selected(ps, addr, key)) == Eligible(ps, addr)
    ensures |Eligible(ps, addr)| == |Selected(ps, addr, key)|
  {
    if ps != [] {
      var n := |ps| - 1;
      SelectedExact(ps[..n], addr, key);
      EligibleLast(ps, addr);
      AddressSetLast(Selected(ps[..n], addr, key), Entry(ps[n].address, ps[n].weight, ps[n].active, key(n, ps[n])));
    }
  }

  function SetOf(members: seq<Address>): set<Address> {
    set a | a in members
  }

  lemma {:induction false} SetOfLast(members: seq<Address>)
    requires members != []
    ensures var n := |members| - 1;
            var before := SetOf(members[..n]);
            SetOf(members) == before + {members[n]} && |SetOf(members)| == if members[n] in before then |before| else |before| + 1
  {
    var n := |members| - 1;
    assert members == members[..n] + [members[n]];
    assert SetOf(members) == SetOf(members[..n]) + {members[n]};
    if members[n] in SetOf(members[..n]) {
      assert SetOf(members) == SetOf(members[..n]);
    }
  }

  lemma {:induction false} SetOfBound(members: seq<Address>)
    ensures |SetOf(members)| <= |members|
  {
    if members != [] {
      SetOfLast(members);
      SetOfBound(members[..|members| - 1]);
    }
  }

  lemma {:induction false} DistinctIfAllCount(members: seq<Address>)
    requires |SetOf(members)| == |members|
    ensures Distinct(members)
  {
    if members != [] {
      var n := |members| - 1;
      SetOfLast(members);
      SetOfBound(members[..n]);
      DistinctIfAllCount(members[..n]);
      forall i, j | 0 <= i < j < |members| ensures members[i] != members[j] {
        assert members[..n][i] in SetOf(members[..n]);
      }
    }
  }

  /** The sequence: the eligible proposers, each once, by ascending key. */
  function SequenceOf(ps: seq<Proposer>, addr: Address, key: (nat, Proposer) -> real): seq<Entry> {
    Sorted(Selected(ps, addr, key))
  }

  lemma {:induction false} SequenceExact(ps: seq<Proposer>, addr: Address, key: (nat, Proposer) -> real)
    requires NoTwins(ps)
    ensures var s := SequenceOf(ps, addr, key);
            Ascending(s) && Distinct(Addresses(s)) && SetOf(Addresses(s)) == Eligible(ps, addr) && |s| == |Eligible(ps, addr)|
  {
    var t, s := Selected(ps, addr, key), SequenceOf(ps, addr, key);
    SelectedExact(ps, addr, key);
    SortedIsSorted(t);
    SameAddresses(s, t);
    SetOfAddresses(s);
    DistinctIfAllCount(Addresses(s));
  }

  lemma {:induction false} SameAddresses(s: seq<Entry>, t: seq<Entry>)
    requires multiset(s) == multiset(t)
    ensures AddressSet(s) == AddressSet(t)
  {
    forall e ensures e in s <==> e in t {
      assert e in multiset(s) <==> e in multiset(t);
    }
  }

  lemma {:induction false} SetOfAddresses(s: seq<Entry>)
    ensures SetOf(Addresses(s)) == AddressSet(s)
  {
    forall a ensures a in Addresses(s) <==> a in AddressSet(s) {
      if e :| e in s && e.address == a {
        var i :| 0 <= i < |s| && s[i] == e;
        assert Addresses(s)[i] == a;
      }
      if a in Addresses(s) {
        var i :| 0 <= i < |s| && Addresses(s)[i] == a;
        assert s[i] in s;
      }
    }
  }

  // ---------- Schedulers ----------

  datatype Scheduler = Scheduler(proposer: Proposer, parent: nat, interval: nat, sequence: seq<Entry>, totalWeight: nat)

  function PlanOf(s: Scheduler): Plan {
    Plan(s.parent, s.interval, Addresses(s.sequence))
  }

  /** What a scheduler is built from: the list, the parent's time, the interval, the sort keys and the total weight. */
  datatype Setup = Setup(ps: seq<Proposer>, parent: nat, interval: nat, key: (nat, Proposer) -> real, totalWeight: nat)

  ghost predicate Sane(u: Setup) {
    NoTwins(u.ps) && u.interval >= 1
  }

  ghost predicate BuiltFrom(s: Scheduler, u: Setup, addr: Address) {
    && s.proposer in u.ps && s.proposer.address == addr
    && s.parent == u.parent && s.interval == u.interval && s.totalWeight == u.totalWeight
    && s.sequence == SequenceOf(u.ps, addr, u.key)
  }

  method NewScheduler(u: Setup, addr: Address) returns (r: Option<Scheduler>)
    ensures r.Some? <==> Listed(u.ps, addr)
    ensures r.Some? ==> BuiltFrom(r.value, u, addr)
  {
    var proposer := None;
    var list: seq<Entry> := [];
    for i := 0 to |u.ps|
      invariant list == Selected(u.ps[..i], addr, u.key)
      invariant proposer.Some? ==> proposer.value in u.ps && proposer.value.address == addr
      invariant proposer.None? ==> forall k :: 0 <= k < i ==> u.ps[k].address != addr
    {
      var p := u.ps[i];
      assert u.ps[..i + 1][..i] == u.ps[..i];
      if p.address == addr {
        proposer := Some(p);
      }
      if p.active || p.address == addr {
        list := list + [Entry(p.address, p.weight, p.active, u.key(i, p))];
      }
    }
    assert u.ps[..|u.ps|] == u.ps;
    if proposer.None? {
      return None;
    }
    return Some(Scheduler(proposer.value, u.parent, u.interval, Sorted(list), u.totalWeight));
  }

  /** The plan of a scheduler is proper, and its proposer is a member, once. */
  lemma {:induction false} BuiltProper(s: Scheduler, u: Setup, addr: Address)
    requires Sane(u) && BuiltFrom(s, u, addr)
    ensures Proper(PlanOf(s)) && addr in PlanOf(s).members && Distinct(PlanOf(s).members)
    ensures SetOf(PlanOf(s).members) == Eligible(u.ps, addr) && |s.sequence| == |Eligible(u.ps, addr)|
  {
    SequenceExact(u.ps, addr, u.key);
    assert addr in Eligible(u.ps, addr);
    assert addr in SetOf(PlanOf(s).members);
  }

  predicate IsActive(ps: seq<Proposer>, addr: Address) {
    exists i :: 0 <= i < |ps| && ps[i].address == addr && ps[i].active
  }

  lemma {:induction false} SelectedSame(ps: seq<Proposer>, a: Address, b: Address, key: (nat, Proposer) -> real)
    requires forall i :: 0 <= i < |ps| && (ps[i].address == a || ps[i].address == b) ==> ps[i].active
    ensures Selected(ps, a, key) == Selected(ps, b, key)
  {
    if ps != [] {
      SelectedSame(ps[..|ps| - 1], a, b, key);
    }
  }

  /** Two active proposers who look at the same parent never both find a time to be theirs. */
  lemma {:induction false} NeverBoth(s: Scheduler, r: Scheduler, u: Setup, a: Address, b: Address, t: nat)
    requires Sane(u) && BuiltFrom(s, u, a) && BuiltFrom(r, u, b) && a != b && IsActive(u.ps, a) && IsActive(u.ps, b)
    ensures Proper(PlanOf(s)) && Proper(PlanOf(r)) && !(Owns(PlanOf(s), a, t) && Owns(PlanOf(r), b, t))
  {
    BuiltProper(s, u, a);
    BuiltProper(r, u, b);
    SelectedSame(u.ps, a, b, u.key);
    if Owns(PlanOf(s), a, t) && Owns(PlanOf(r), b, t) {
      OwnerUnique(PlanOf(s), a, b, t);
      assert false;
    }
  }

  method ScheduleFor(s: Scheduler, u: Setup, now: nat) returns (t: nat)
    requires Sane(u) && BuiltFrom(s, u, s.proposer.address)
    ensures Proper(PlanOf(s)) && t >= now && t > s.parent && Owns(PlanOf(s), s.proposer.address, t)
    ensures forall v :: v >= now && Owns(PlanOf(s), s.proposer.address, v) ==> t <= v
  {
    BuiltProper(s, u, s.proposer.address);
    t := Schedule(PlanOf(s), s.proposer.address, now);
  }

  // ---------- Updates ----------

  /** Deactivations of the first `n` members other than the proposer. */
  function Others(members: seq<Address>, n: nat, addr: Address): seq<Update>
    requires n <= |members|
  {
    if n == 0 then []
    else Others(members, n - 1, addr) + if members[n - 1] != addr then [Update(members[n - 1], false)] else []
  }

  /** The accounts that updates switch off. */
  function Off(updates: seq<Update>): set<Address> {
    set d | d in updates && !d.active :: d.address
  }

  lemma {:induction false} OffLast(updates: seq<Update>, d: Update)
    ensures Off(updates + [d]) == if d.active then Off(updates) else Off(updates) + {d.address}
  {
  }

  lemma {:induction false} OthersInactive(members: seq<Address>, n: nat, addr: Address)
    requires n <= |members|
    ensures forall d :: d in Others(members, n, addr) ==> !d.active
  {
    if n > 0 {
      OthersInactive(members, n - 1, addr);
    }
  }

  lemma {:induction false} OthersLast(members: seq<Address>, n: nat, addr: Address)
    requires 0 < n <= |members|
    ensures var before := Off(Others(members, n - 1, addr));
            Off(Others(members, n, addr)) == if members[n - 1] == addr then before else before + {members[n - 1]}
  {
    var before := Others(members, n - 1, addr);
    if members[n - 1] == addr {
      assert Others(members, n, addr) == before + [] == before;
    } else {
      OffLast(before, Update(members[n - 1], false));
    }
  }

  lemma {:induction false} SetOfPrefix(members: seq<Address>, n: nat)
    requires 0 < n <= |members|
    ensures SetOf(members[..n]) == SetOf(members[..n - 1]) + {members[n - 1]}
  {
    assert members[..n] == members[..n - 1] + [members[n - 1]];
  }

  lemma {:induction false} OneMore(off: set<Address>, first: set<Address>, member: Address, addr: Address)
    requires off == first - {addr}
    ensures (if member == addr then off else off + {member}) == first + {member} - {addr}
  {
  }

  /** What they switch off are the members that come first, without the proposer. */
  lemma {:induction false} OthersExact(members: seq<Address>, n: nat, addr: Address)
    requires n <= |members|
    ensures Off(Others(members, n, addr)) == SetOf(members[..n]) - {addr}
  {
    if n == 0 {
      assert Others(members, 0, addr) == [] && members[..0] == [];
    } else {
      OthersExact(members, n - 1, addr);
      OthersLast(members, n, addr);
      SetOfPrefix(members, n);
      OneMore(Off(Others(members, n - 1, addr)), SetOf(members[..n - 1]), members[n - 1], addr);
    }
  }

  lemma {:induction false} OthersCount(members: seq<Address>, n: nat, addr: Address)
    requires n <= |members| && EachNew(members, n)
    ensures |Others(members, n, addr)| == n - if addr in SetOf(members[..n]) then 1 else 0
    ensures |SetOf(members[..n])| == n
  {
    if n > 0 {
      OthersCount(members, n - 1, addr);
      SetOfLast(members[..n]);
      assert members[..n][..n - 1] == members[..n - 1];
    }
  }

  lemma {:induction false} WithoutOne(s: set<Address>, addr: Address)
    ensures |s - {addr}| == |s| - if addr in s then 1 else 0
  {
    if addr in s {
      assert s == (s - {addr}) + {addr};
    } else {
      assert s - {addr} == s;
    }
  }

  /** None of the first members occurs twice. */
  predicate EachNew(members: seq<Address>, n: nat)
    requires n <= |members|
  {
    n == 0 || (EachNew(members, n - 1) && members[n - 1] !in SetOf(members[..n - 1]))
  }

  lemma {:induction false} DistinctNew(members: seq<Address>, n: nat)
    requires n <= |members| && Distinct(members)
    ensures EachNew(members, n)
  {
    if n > 0 {
      DistinctNew(members, n - 1);
    }
  }

  /** Who is active once the updates are applied to the list. */
  function ActiveAfter(ps: seq<Proposer>, updates: seq<Update>): set<Address> {
    set p | p in ps && p.address !in Off(updates) && (p.active || Update(p.address, true) in updates) :: p.address
  }

  /** Deactivations, and the activation of a proposer that was not active. */
  function WithProposer(deactivations: seq<Update>, proposer: Proposer): seq<Update> {
    deactivations + if proposer.active then [] else [Update(proposer.address, true)]
  }

  lemma {:induction false} AppliedUpdates(ps: seq<Proposer>, proposer: Proposer, deactivations: seq<Update>)
    requires NoTwins(ps) && proposer in ps && proposer.address !in Off(deactivations)
    requires forall d :: d in deactivations ==> !d.active
    ensures ActiveAfter(ps, WithProposer(deactivations, proposer)) == Eligible(ps, proposer.address) - Off(deactivations)
  {
    var updates := WithProposer(deactivations, proposer);
    assert Off(updates) == Off(deactivations);
    forall p | p in ps && p.address == proposer.address ensures p == proposer {
      var i, j :| 0 <= i < |ps| && 0 <= j < |ps| && ps[i] == p && ps[j] == proposer;
      assert i < j || j < i || i == j;
    }
  }

  lemma {:induction false} DifferenceCount(all: set<Address>, off: set<Address>)
    requires off <= all
    ensures |all - off| == |all| - |off|
  {
    assert (all - off) + off == all;
  }

  /** The missed slots and the score of a block at a time. */
  ghost predicate ExactUpdates(s: Scheduler, u: Setup, t: nat, deactivations: seq<Update>)
    requires Proper(PlanOf(s))
  {
    && (forall a :: a in Off(deactivations) <==> a != s.proposer.address && Missed(PlanOf(s), t, a))
    && |Off(deactivations)| == |deactivations| < |s.sequence|
    && ActiveAfter(u.ps, WithProposer(deactivations, s.proposer)) == Eligible(u.ps, s.proposer.address) - Off(deactivations)
    && |ActiveAfter(u.ps, WithProposer(deactivations, s.proposer))| == |s.sequence| - |deactivations|
  }

  lemma {:induction false} FirstMissed(s: Scheduler, u: Setup, t: nat, n: nat)
    requires Sane(u) && BuiltFrom(s, u, s.proposer.address) && n <= |s.sequence|
    requires (n == |s.sequence| || Time(PlanOf(s), n) >= t) && forall k :: 0 <= k < n ==> Time(PlanOf(s), k) < t
    ensures Proper(PlanOf(s)) && ExactUpdates(s, u, t, Others(PlanOf(s).members, n, s.proposer.address))
  {
    var members, addr := PlanOf(s).members, s.proposer.address;
    BuiltProper(s, u, addr);
    DistinctNew(members, n);
    OthersExact(members, n, addr);
    OthersCount(members, n, addr);
    WithoutOne(SetOf(members[..n]), addr);
    OthersInactive(members, n, addr);
    var deactivations := Others(members, n, addr);
    forall a ensures a in SetOf(members[..n]) <==> Missed(PlanOf(s), t, a) {
      MissedInFirstRound(PlanOf(s), t, n, a);
      if i :| 0 <= i < n && members[i] == a {
        assert members[..n][i] == a;
      }
    }
    assert addr in SetOf(members);
    assert Off(deactivations) <= SetOf(members) - {addr};
    DifferenceCount(SetOf(members), Off(deactivations));
    DifferenceCount(SetOf(members), {addr});
    Subset(Off(deactivations), SetOf(members) - {addr});
    AppliedUpdates(u.ps, s.proposer, deactivations);
  }

  lemma {:induction false} Subset(x: set<Address>, y: set<Address>)
    requires x <= y
    ensures |x| <= |y|
  {
    DifferenceCount(y, x);
  }

  /** Deactivates who missed a slot before the new block, and tells how many proposers stay active. */
  method UpdatesV2(s: Scheduler, u: Setup, t: nat) returns (updates: seq<Update>, score: nat, ghost deactivations: seq<Update>)
    requires Sane(u) && BuiltFrom(s, u, s.proposer.address)
    ensures Proper(PlanOf(s)) && ExactUpdates(s, u, t, deactivations) && updates == WithProposer(deactivations, s.proposer)
    ensures score == |ActiveAfter(u.ps, updates)| && score >= 1
  {
    var members := Addresses(s.sequence);
    updates := [];
    var i := 0;
    while i < |members| && s.parent + s.interval + i * s.interval < t
      invariant i <= |members| && updates == Others(members, i, s.proposer.address)
      invariant forall k :: 0 <= k < i ==> Time(PlanOf(s), k) < t
    {
      SlotTimeIs(s.parent, s.interval, i);
      if members[i] != s.proposer.address {
        updates := updates + [Update(members[i], false)];
      }
      i := i + 1;
    }
    SlotTimeIs(s.parent, s.interval, i);
    FirstMissed(s, u, t, i);
    deactivations := updates;
    score := |members| - |updates|;
    if !s.proposer.active {
      updates := updates + [Update(s.proposer.address, true)];
    }
  }

  // ---------- Weights ----------

  /** The weight of the first `k` entries. */
  function Weight(s: seq<Entry>, k: nat): nat
    requires k <= |s|
  {
    if k == 0 then 0 else Weight(s, k - 1) + s[k - 1].weight
  }

  /** The weight of the first `k` entries that are not among the first `n`, or are the proposer's. */
  function Remaining(s: seq<Entry>, k: nat, n: nat, addr: Address): nat
    requires k <= |s|
  {
    if k == 0 then 0
    else Remaining(s, k - 1, n, addr) + if k - 1 >= n || s[k - 1].address == addr then s[k - 1].weight else 0
  }

  lemma {:induction false} RemainingAll(s: seq<Entry>, k: nat, n: nat, addr: Address)
    requires k <= |s|
    ensures Remaining(s, k, 0, addr) == Weight(s, k) && Remaining(s, k, n, addr) <= Weight(s, k)
  {
    if k > 0 {
      RemainingAll(s, k - 1, n, addr);
    }
  }

  /** Looking at one more entry takes its weight away, unless it is the proposer's. */
  lemma {:induction false} RemainingStep(s: seq<Entry>, k: nat, n: nat, addr: Address)
    requires k <= |s|
    ensures Remaining(s, k, n + 1, addr) == Remaining(s, k, n, addr) - if n < k && s[n].address != addr then s[n].weight else 0
  {
    if k > 0 {
      RemainingStep(s, k - 1, n, addr);
    }
  }

  function WeightOf(ps: seq<Proposer>): nat {
    if ps == [] then 0 else WeightOf(ps[..|ps| - 1]) + ps[|ps| - 1].weight
  }

  lemma {:induction false} WeightLast(s: seq<Entry>, e: Entry, k: nat)
    requires k <= |s|
    ensures Weight(s + [e], k) == Weight(s, k) && Weight(s + [e], |s| + 1) == Weight(s, |s|) + e.weight
  {
    if k > 0 {
      WeightLast(s, e, k - 1);
    }
    if k < |s| {
      WeightPrefix(s, s + [e], |s|);
    }
  }

  lemma {:induction false} WeightPrefix(s: seq<Entry>, t: seq<Entry>, k: nat)
    requires k <= |s| && k <= |t| && s[..k] == t[..k]
    ensures Weight(s, k) == Weight(t, k)
  {
    if k > 0 {
      assert s[..k - 1] == s[..k][..k - 1] && t[..k - 1] == t[..k][..k - 1];
      assert s[k - 1] == s[..k][k - 1] && t[k - 1] == t[..k][k - 1];
      WeightPrefix(s, t, k - 1);
    }
  }

  lemma {:induction false} InsertWeight(s: seq<Entry>, e: Entry)
    ensures Weight(Insert(s, e), |Insert(s, e)|) == Weight(s, |s|) + e.weight
  {
    if s == [] {
      assert Weight([e], 0) == 0;
    } else if s[|s| - 1].key <= e.key {
      WeightLast(s, e, |s|);
    } else {
      var n := |s| - 1;
      InsertWeight(s[..n], e);
      WeightLast(Insert(s[..n], e), s[n], |Insert(s[..n], e)|);
      WeightPrefix(s[..n], s, n);
    }
  }

  lemma {:induction false} SortedWeight(s: seq<Entry>)
    ensures Weight(Sorted(s), |Sorted(s)|) == Weight(s, |s|)
  {
    if s != [] {
      var n := |s| - 1;
      SortedWeight(s[..n]);
      InsertWeight(Sorted(s[..n]), s[n]);
      WeightPrefix(s[..n], s, n);
    }
  }

  /** The members weigh no more than all listed proposers, and as much if all are active. */
  lemma {:induction false} SelectedWeight(ps: seq<Proposer>, addr: Address, key: (nat, Proposer) -> real)
    ensures Weight(Selected(ps, addr, key), |Selected(ps, addr, key)|) <= WeightOf(ps)
    ensures (forall i :: 0 <= i < |ps| ==> ps[i].active) ==> Weight(Selected(ps, addr, key), |Selected(ps, addr, key)|) == WeightOf(ps)
  {
    if ps != [] {
      var n := |ps| - 1;
      SelectedWeight(ps[..n], addr, key);
      var before := Selected(ps[..n], addr, key);
      WeightLast(before, Entry(ps[n].address, ps[n].weight, ps[n].active, key(n, ps[n])), |before|);
      assert before + [] == before;
    }
  }

  /** The weight of those of the first `k` entries that are in a set. */
  function WeightIn(s: seq<Entry>, k: nat, who: set<Address>): nat
    requires k <= |s|
  {
    if k == 0 then 0 else WeightIn(s, k - 1, who) + if s[k - 1].address in who then s[k - 1].weight else 0
  }

  lemma {:induction false} RemainingIsIn(s: seq<Entry>, k: nat, n: nat, addr: Address, who: set<Address>)
    requires k <= |s| && forall i :: 0 <= i < k ==> (s[i].address in who <==> i >= n || s[i].address == addr)
    ensures Remaining(s, k, n, addr) == WeightIn(s, k, who)
  {
    if k > 0 {
      RemainingIsIn(s, k - 1, n, addr, who);
    }
  }

  lemma {:induction false} WhoStays(members: seq<Address>, n: nat, i: nat)
    requires Distinct(members) && n <= |members| && i < |members|
    ensures members[i] in SetOf(members) && (members[i] in SetOf(members[..n]) <==> i < n)
  {
    if i < n {
      assert members[..n][i] == members[i];
    }
  }

  /** What remains is the weight of the proposers that stay active. */
  lemma {:induction false} RemainingIsActive(s: Scheduler, u: Setup, t: nat, n: nat)
    requires Sane(u) && BuiltFrom(s, u, s.proposer.address) && n <= |s.sequence|
    requires Proper(PlanOf(s)) && ExactUpdates(s, u, t, Others(PlanOf(s).members, n, s.proposer.address))
    ensures Remaining(s.sequence, |s.sequence|, n, s.proposer.address)
         == WeightIn(s.sequence, |s.sequence|, ActiveAfter(u.ps, WithProposer(Others(PlanOf(s).members, n, s.proposer.address), s.proposer)))
  {
    var members, addr := PlanOf(s).members, s.proposer.address;
    BuiltProper(s, u, addr);
    OthersExact(members, n, addr);
    var who := Eligible(u.ps, addr) - (SetOf(members[..n]) - {addr});
    forall i | 0 <= i < |s.sequence| ensures s.sequence[i].address in who <==> i >= n || s.sequence[i].address == addr {
      WhoStays(members, n, i);
      assert s.sequence[i].address == members[i];
    }
    RemainingIsIn(s.sequence, |s.sequence|, n, addr, who);
  }

  method TotalWeight(s: seq<Entry>) returns (w: nat)
    ensures w == Weight(s, |s|)
  {
    w := 0;
    for i := 0 to |s|
      invariant w == Weight(s, i)
    {
      w := w + s[i].weight;
    }
  }

  /** Deactivates who missed a slot before the new block; the score is the share of the weight that stays active. */
  method UpdatesPos(s: Scheduler, u: Setup, t: nat) returns (updates: seq<Update>, score: nat, ghost deactivations: seq<Update>)
    requires Sane(u) && BuiltFrom(s, u, s.proposer.address)
    ensures Proper(PlanOf(s)) && ExactUpdates(s, u, t, deactivations) && updates == WithProposer(deactivations, s.proposer)
    ensures score == ScoreOf(WeightIn(s.sequence, |s.sequence|, ActiveAfter(u.ps, updates)), s.totalWeight)
    ensures WeightOf(u.ps) <= s.totalWeight ==> score <= 10000
  {
    var n, active: nat;
    updates, n, active := Deactivate(s, t);
    FirstMissed(s, u, t, n);
    RemainingIsActive(s, u, t, n);
    deactivations := updates;
    if !s.proposer.active {
      updates := updates + [Update(s.proposer.address, true)];
    }
    SelectedWeight(u.ps, s.proposer.address, u.key);
    SortedWeight(Selected(u.ps, s.proposer.address, u.key));
    RemainingAll(s.sequence, |s.sequence|, n, s.proposer.address);
    score := ScoreOf(active, s.totalWeight);
  }

  const U64: nat := 0x1_0000_0000_0000_0000

  /** The share of the total, in parts of 10000; the product is taken in 64 bits. */
  function ScoreOf(active: nat, totalWeight: nat): (score: nat)
    ensures active <= totalWeight ==> score <= 10000
    ensures totalWeight == 0 ==> score == 0
    ensures totalWeight > 0 ==>
              totalWeight * score <= active * 10000 % 0x1_0000_0000_0000_0000 < totalWeight * score + totalWeight
  {
    if totalWeight == 0 then 0
    else
      var product := active * 10000 % 0x1_0000_0000_0000_0000;
      QuotientNatural(product, totalWeight);
      ScoreBound(product, active, totalWeight);
      product / totalWeight
  }

  lemma {:induction false} ScoreBound(product: nat, active: nat, totalWeight: nat)
    requires totalWeight > 0 && product <= active * 10000
    ensures active <= totalWeight ==> product / totalWeight <= 10000
  {
    if active <= totalWeight && product / totalWeight > 10000 {
      assert product == product / totalWeight * totalWeight + product % totalWeight;
      MulGap(10000, product / totalWeight, totalWeight);
    }
  }

  lemma {:induction false} QuotientNatural(x: nat, d: nat)
    requires d > 0
    ensures x / d >= 0
  {
    assert x == x / d * d + x % d;
    MulGap(x / d, 0, d);
  }

  /** The loop over the members whose slots are before the new block, and the weight that is left. */
  method Deactivate(s: Scheduler, t: nat) returns (updates: seq<Update>, n: nat, active: nat)
    requires s.interval >= 1
    ensures n <= |s.sequence| && updates == Others(PlanOf(s).members, n, s.proposer.address)
    ensures (n == |s.sequence| || Time(PlanOf(s), n) >= t) && forall k :: 0 <= k < n ==> Time(PlanOf(s), k) < t
    ensures active == Remaining(s.sequence, |s.sequence|, n, s.proposer.address)
  {
    active := TotalWeight(s.sequence);
    RemainingAll(s.sequence, |s.sequence|, 0, s.proposer.address);
    updates, n := [], 0;
    while n < |s.sequence| && s.parent + s.interval + n * s.interval < t
      invariant n <= |s.sequence| && updates == Others(PlanOf(s).members, n, s.proposer.address)
      invariant forall k :: 0 <= k < n ==> Time(PlanOf(s), k) < t
      invariant active == Remaining(s.sequence, |s.sequence|, n, s.proposer.address)
    {
      SlotTimeIs(s.parent, s.interval, n);
      RemainingStep(s.sequence, |s.sequence|, n, s.proposer.address);
      if s.sequence[n].address != s.proposer.address {
        updates := updates + [Update(s.sequence[n].address, false)];
        active := active - s.sequence[n].weight;
      }
      n := n + 1;
    }
    SlotTimeIs(s.parent, s.interval, n);
  }
}
