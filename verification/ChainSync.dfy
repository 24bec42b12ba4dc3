/**
 * Synchronization with a peer: the height up to which the own best chain and the peer's agree.
 */
module ChainSync {
  import opened BlockTree
  import opened ChainRepository

  /** Both chains have the same block at this height. */
  predicate Overlaps(mine: Id, theirs: Id, n: nat) {
    n <= Number(mine) && n <= Number(theirs) && Ancestor(mine, n) == Ancestor(theirs, n)
  }

  /** Chains agree below every height at which they agree. */
  lemma {:induction false} OverlapsBelow(mine: Id, theirs: Id, m: nat, n: nat)
    requires m <= n && Overlaps(mine, theirs, n)
    ensures Overlaps(mine, theirs, m)
  {
    AncestorTwice(mine, n, m);
    AncestorTwice(theirs, n, m);
  }

  /** The last height at which the chains agree. */
  ghost predicate IsForkPoint(mine: Id, theirs: Id, n: nat) {
    Overlaps(mine, theirs, n) && forall m :: n < m ==> !Overlaps(mine, theirs, m)
  }

  lemma {:induction false} ForkPointSplits(mine: Id, theirs: Id, g: nat, n: nat)
    requires IsForkPoint(mine, theirs, g)
    ensures Overlaps(mine, theirs, n) <==> n <= g
  {
    if n <= g {
      OverlapsBelow(mine, theirs, n, g);
    }
  }

  /** Chains with a common genesis have one. */
  lemma {:induction false} ForkPointExists(mine: Id, theirs: Id, n: nat) returns (g: nat)
    requires Root(mine) == Root(theirs) && forall m :: n < m ==> !Overlaps(mine, theirs, m)
    ensures IsForkPoint(mine, theirs, g)
  {
    AncestorZero(mine);
    AncestorZero(theirs);
    if n == 0 || Overlaps(mine, theirs, n) {
      g := n;
    } else {
      g := ForkPointExists(mine, theirs, n - 1);
    }
  }

  /** Sums in 32 bits. */
  function Add32(x: nat, y: nat): nat {
    (x + y) % 0x1_0000_0000
  }

  /** Half of a sum in 32 bits lies between two heights if and only if the sum does not wrap around. */
  lemma {:induction false} MiddleIff(start: nat, end: nat)
    requires start <= end < 0x1_0000_0000
    ensures start <= Add32(start, end) / 2 <= end <==> start + end < 0x1_0000_0000
    ensures (Add32(start, end) - (start + end)) % 0x1_0000_0000 == 0
  {
  }

  /** Searches between two heights; `ancestor` is the best height known so far. */
  function Find(mine: Id, theirs: Id, start: nat, end: nat, ancestor: nat): nat
    requires start <= end < 0x8000_0000
    decreases end - start
  {
    if start == end then
      if Overlaps(mine, theirs, start) then start else ancestor
    else
      var mid := Add32(start, end) / 2;
      if Overlaps(mine, theirs, mid) then Find(mine, theirs, mid + 1, end, mid)
      else if mid > start then Find(mine, theirs, start, mid - 1, ancestor)
      else ancestor
  }

  /** The search finds the fork point if that is in the range, or is the height known so far. */
  lemma {:induction false} FindsForkPoint(mine: Id, theirs: Id, start: nat, end: nat, ancestor: nat, g: nat)
    requires start <= end < 0x8000_0000 && IsForkPoint(mine, theirs, g) && (start <= g <= end || g == ancestor < start)
    ensures Find(mine, theirs, start, end, ancestor) == g
    decreases end - start
  {
    if start == end {
      ForkPointSplits(mine, theirs, g, start);
    } else {
      var mid := Add32(start, end) / 2;
      ForkPointSplits(mine, theirs, g, mid);
      if mid <= g {
        FindsForkPoint(mine, theirs, mid + 1, end, mid, g);
      } else if mid > start {
        FindsForkPoint(mine, theirs, start, mid - 1, ancestor, g);
      }
    }
  }

  /** Steps back from the head by growing strides to a height at which the chains agree. */
  method FastSeek(mine: Id, theirs: Id, head: nat) returns (n: nat)
    requires Root(mine) == Root(theirs) && 0 < head == Number(mine) < 0x8000_0000
    ensures n <= head && Overlaps(mine, theirs, n)
  {
    var backward := 0;
    while true
      invariant 0 <= backward < 0x1_0000_0000 && (backward == 0 || backward < 2 * head)
      decreases head - backward
    {
      if backward >= head {
        AncestorZero(mine);
        AncestorZero(theirs);
        return 0;
      }
      if Overlaps(mine, theirs, head - backward) {
        return head - backward;
      }
      if backward == 0 {
        backward := 1;
      } else {
        backward := Add32(backward, backward);
      }
    }
  }

  /** The greatest height, not above the head, at which the best chain and the peer's chain agree. */
  method FindCommonAncestor(mine: Id, theirs: Id) returns (n: nat)
    requires Root(mine) == Root(theirs) && Number(mine) < 0x8000_0000
    ensures IsForkPoint(mine, theirs, n)
  {
    var head := Number(mine);
    ghost var g := ForkPointExists(mine, theirs, head);
    if head == 0 {
      return 0;
    }
    var seek := FastSeek(mine, theirs, head);
    ForkPointSplits(mine, theirs, g, seek);
    if seek == head {
      return head;
    }
    FindsForkPoint(mine, theirs, seek, head, 0, g);
    return Find(mine, theirs, seek, head, 0);
  }
}
