/**
 * The list of block proposer candidates, copied on write: copies share the list until one of them changes it.
 */
module CandidateLists {
  import opened Wrappers

  datatype Candidate = Candidate(master: Address, endorsor: Address, active: bool)

  datatype Proposer = Proposer(address: Address, active: bool)

  // ---------- What is picked ----------

  /** The candidates from `i` on that satisfy the condition, at most `room` of them. */
  function Satisfying(list: seq<Candidate>, i: nat, room: nat, ok: (Address, Address) -> bool): (r: seq<nat>)
    requires i <= |list|
    ensures forall k :: k in r ==> i <= k < |list|
    decreases |list| - i
  {
    if i == |list| || room == 0 then []
    else if ok(list[i].master, list[i].endorsor) then [i] + Satisfying(list, i + 1, room - 1, ok)
    else Satisfying(list, i + 1, room, ok)
  }

  /** Nobody is passed over: what is picked satisfies the condition, and who is left out of the range seen does not, or comes too late. */
  lemma {:induction false} SatisfyingExact(list: seq<Candidate>, i: nat, room: nat, ok: (Address, Address) -> bool, k: nat)
    requires i <= k < |list|
    ensures |Satisfying(list, i, room, ok)| <= room
    ensures k in Satisfying(list, i, room, ok) ==> ok(list[k].master, list[k].endorsor)
    ensures ok(list[k].master, list[k].endorsor) && k !in Satisfying(list, i, room, ok) ==>
              |Satisfying(list, i, room, ok)| == room && forall j :: j in Satisfying(list, i, room, ok) ==> j < k
    decreases |list| - i
  {
    if room > 0 {
      if ok(list[i].master, list[i].endorsor) {
        SatisfyingRoom(list, i + 1, room - 1, ok);
        if i < k {
          SatisfyingExact(list, i + 1, room - 1, ok, k);
        }
      } else {
        if i < k {
          SatisfyingExact(list, i + 1, room, ok, k);
        } else {
          SatisfyingRoom(list, i + 1, room, ok);
        }
      }
    }
  }

  ghost predicate Ascending(s: seq<nat>) {
    forall m, n :: 0 <= m < n < |s| ==> s[m] < s[n]
  }

  /** Candidates are picked in the order of the list. */
  lemma {:induction false} SatisfyingAscends(list: seq<Candidate>, i: nat, room: nat, ok: (Address, Address) -> bool)
    requires i <= |list|
    ensures Ascending(Satisfying(list, i, room, ok))
    decreases |list| - i
  {
    if i < |list| && room > 0 {
      if ok(list[i].master, list[i].endorsor) {
        var rest := Satisfying(list, i + 1, room - 1, ok);
        SatisfyingAscends(list, i + 1, room - 1, ok);
        assert forall n :: 0 <= n < |rest| ==> rest[n] in rest;
      } else {
        SatisfyingAscends(list, i + 1, room, ok);
      }
    }
  }

  lemma {:induction false} SatisfyingRoom(list: seq<Candidate>, i: nat, room: nat, ok: (Address, Address) -> bool)
    requires i <= |list|
    ensures |Satisfying(list, i, room, ok)| <= room
    decreases |list| - i
  {
    if i < |list| && room > 0 {
      SatisfyingRoom(list, i + 1, if ok(list[i].master, list[i].endorsor) then room - 1 else room, ok);
    }
  }

  predicate Within(picked: seq<nat>, n: nat) {
    forall i :: 0 <= i < |picked| ==> picked[i] < n
  }

  function ProposersOf(list: seq<Candidate>, picked: seq<nat>): (r: seq<Proposer>)
    requires Within(picked, |list|)
    ensures |r| == |picked|
    ensures forall i :: 0 <= i < |picked| ==> r[i] == Proposer(list[picked[i]].master, list[picked[i]].active)
  {
    if picked == [] then []
    else ProposersOf(list, picked[..|picked| - 1]) + [Proposer(list[picked[|picked| - 1]].master, list[picked[|picked| - 1]].active)]
  }

  /** The map finds every master in the list, and only those. */
  ghost predicate MastersOf(list: seq<Candidate>, masters: map<Address, nat>) {
    && (forall a :: a in masters ==> masters[a] < |list| && list[masters[a]].master == a)
    && (forall i :: 0 <= i < |list| ==> list[i].master in masters)
  }

  /** Everything a candidate list can report. */
  datatype View = View(list: seq<Candidate>, satisfied: seq<nat>, masters: map<Address, nat>, endorsors: set<Address>)

  class Candidates {
    var list: array<Candidate>
    const masters: map<Address, nat>
    const endorsors: set<Address>
    var satisfied: seq<nat>
    var referenced: bool

    ghost function Look(): View
      reads this, list
    {
      View(list[..], satisfied, masters, endorsors)
    }

    ghost predicate Valid()
      reads this, list
    {
      MastersOf(list[..], masters) && Within(satisfied, list.Length)
    }

    constructor (list: array<Candidate>)
      ensures Valid() && this.list == list && !referenced && satisfied == []
      ensures forall a :: a in endorsors <==> exists i :: 0 <= i < list.Length && list[i].endorsor == a
    {
      var masters: map<Address, nat>, endorsors: set<Address> := map[], {};
      for i := 0 to list.Length
        invariant forall a :: a in masters ==> masters[a] < i && list[masters[a]].master == a
        invariant forall k :: 0 <= k < i ==> list[k].master in masters
        invariant forall a :: a in endorsors <==> exists k :: 0 <= k < i && list[k].endorsor == a
      {
        masters := masters[list[i].master := i];
        endorsors := endorsors + {list[i].endorsor};
      }
      this.list, this.masters, this.endorsors := list, masters, endorsors;
      satisfied, referenced := [], false;
    }

    constructor Sharing(c: Candidates)
      requires c.Valid()
      ensures Valid() && list == c.list && Look() == c.Look() && referenced == c.referenced
    {
      list, masters, endorsors := c.list, c.masters, c.endorsors;
      satisfied, referenced := c.satisfied, c.referenced;
    }

    /** Makes a copy that shares the list. */
    method Copy(ghost family: set<Candidates>) returns (cpy: Candidates)
      requires Valid() && this in family && Independent(family)
      modifies this`referenced
      ensures fresh(cpy) && Valid() && cpy.Valid() && Independent(family + {cpy}) && cpy.Look() == Look()
      ensures forall d :: d in family ==> d.Look() == old(d.Look())
    {
      referenced := true;
      cpy := new Candidates.Sharing(this);
    }

    /** Picks the first candidates that satisfy the condition; remembers which until told otherwise. */
    method Pick(max: nat, ok: (Address, Address) -> bool, ghost family: set<Candidates>) returns (r: seq<Proposer>)
      requires Valid() && this in family && Independent(family)
      modifies this`satisfied
      ensures Valid() && Independent(family) && forall d :: d in family && d != this ==> d.Look() == old(d.Look())
      ensures list[..] == old(list[..])
      ensures satisfied == if old(satisfied) == [] then Satisfying(list[..], 0, max, ok) else old(satisfied)
      ensures old(satisfied) == [] ==> Ascending(satisfied)
      ensures r == ProposersOf(list[..], satisfied)
    {
      if |satisfied| == 0 {
        satisfied := Choose(max, ok);
        SatisfyingAscends(list[..], 0, max, ok);
      }
      r := List();
    }

    method Choose(max: nat, ok: (Address, Address) -> bool) returns (picked: seq<nat>)
      ensures picked == Satisfying(list[..], 0, max, ok) && Within(picked, list.Length)
    {
      picked := [];
      var i := 0;
      ghost var all := Satisfying(list[..], 0, max, ok);
      assert [] + all == all;
      while i < list.Length && |picked| < max
        invariant 0 <= i <= list.Length && |picked| <= max
        invariant picked + Satisfying(list[..], i, max - |picked|, ok) == all
      {
        if ok(list[i].master, list[i].endorsor) {
          ghost var rest := Satisfying(list[..], i + 1, max - |picked| - 1, ok);
          assert picked + ([i] + rest) == (picked + [i]) + rest;
          picked := picked + [i];
        }
        i := i + 1;
      }
      assert picked + [] == picked;
      assert forall k :: 0 <= k < |all| ==> all[k] in all;
    }

    method List() returns (r: seq<Proposer>)
      requires Within(satisfied, list.Length)
      ensures r == ProposersOf(list[..], satisfied)
    {
      r := [];
      for n := 0 to |satisfied|
        invariant r == ProposersOf(list[..], satisfied[..n])
      {
        var i := satisfied[n];
        assert satisfied[..n + 1][..n] == satisfied[..n];
        r := r + [Proposer(list[i].master, list[i].active)];
      }
      assert satisfied[..|satisfied|] == satisfied;
    }

    /** Sets the activity of a candidate by its master address, in a list of its own; tells whether there is such a master. */
    method Update(addr: Address, active: bool, ghost family: set<Candidates>) returns (found: bool)
      requires Valid() && this in family && Independent(family)
      modifies this`list, this`referenced, list
      ensures Valid() && Independent(family) && forall d :: d in family && d != this ==> d.Look() == old(d.Look())
      ensures found <==> addr in masters
      ensures !found ==> Look() == old(Look())
      ensures found ==> Look() == old(Look()).(list := old(list[..])[masters[addr] := old(list[masters[addr]]).(active := active)])
    {
      if addr !in masters {
        return false;
      }
      var i := masters[addr];
      Own(family);
      assert forall d :: d in family && d != this ==> d.list != list;
      ghost var others := family - {this};
      label before:
      list[i] := list[i].(active := active);
      assert forall d :: d in others ==> d.list[..] == old@before(d.list[..]);
      return true;
    }

    /** Takes a copy of a shared list. */
    method Own(ghost family: set<Candidates>)
      requires Valid() && this in family && Independent(family)
      modifies this`list, this`referenced
      ensures Valid() && Independent(family) && !referenced && Look() == old(Look()) && (list == old(list) || fresh(list))
      ensures forall d :: d in family && d != this ==> d.Look() == old(d.Look())
    {
      if referenced {
        var clone := new Candidate[list.Length](k requires 0 <= k < list.Length reads this, list => list[k]);
        assert clone[..] == list[..];
        list := clone;
        referenced := false;
      }
    }

    method InvalidateCache(ghost family: set<Candidates>)
      requires Valid() && this in family && Independent(family)
      modifies this`satisfied
      ensures Valid() && Independent(family) && forall d :: d in family && d != this ==> d.Look() == old(d.Look())
      ensures Look() == old(Look()).(satisfied := [])
    {
      satisfied := [];
    }
  }

  /** Two lists of a family that share their array both know it. */
  ghost predicate Independent(family: set<Candidates>)
    reads family
  {
    forall c, d :: c in family && d in family && c != d && c.list == d.list ==> c.referenced && d.referenced
  }
}
