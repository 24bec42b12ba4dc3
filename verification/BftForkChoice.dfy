/** Which of two heads is preferred, and why the order of arrival does not matter if their qualities do not change. */
module BftForkChoice {
  import opened BlockTree
  import opened BftRounds
  import opened BftAnswers

  /** Byte-wise comparison of two ids: the number comes first in an id, big endian. */
  predicate IdLess(a: Id, b: Id) {
    Number(a) < Number(b) || (Number(a) == Number(b) && a.digest < b.digest)
  }

  /** The higher total score wins, then the smaller id. */
  predicate BetterThan(a: Id, b: Id) {
    if a.header.totalScore != b.header.totalScore then a.header.totalScore > b.header.totalScore else IdLess(a, b)
  }

  /** The higher quality wins, then the better block. */
  predicate PreferredBy(a: Id, aQuality: nat, b: Id, bQuality: nat) {
    if aQuality != bQuality then aQuality > bQuality else BetterThan(a, b)
  }

  ghost predicate Preferred(c: Config, a: Id, b: Id)
    requires ValidConfig(c)
  {
    PreferredBy(a, QualityOf(c, a), b, QualityOf(c, b))
  }

  /** Different blocks have different ids. */
  ghost predicate DistinctIds(bs: set<Id>) {
    forall a, b :: a in bs && b in bs && a != b ==> Number(a) != Number(b) || a.digest != b.digest
  }

  /** The best block after the given arrivals, if it is replaced exactly by blocks that are preferred. */
  ghost function BestAfter(c: Config, best: Id, arrivals: seq<Id>): Id
    requires ValidConfig(c)
    decreases |arrivals|
  {
    if arrivals == [] then best
    else BestAfter(c, if Preferred(c, arrivals[0], best) then arrivals[0] else best, arrivals[1..])
  }

  /** `best` is one of the blocks and is preferred to all others. */
  ghost predicate IsMaximum(c: Config, best: Id, bs: set<Id>)
    requires ValidConfig(c)
  {
    best in bs && forall b :: b in bs && b != best ==> Preferred(c, best, b)
  }

  lemma {:induction false} PreferredTrans(c: Config, x: Id, y: Id, z: Id)
    requires ValidConfig(c) && Preferred(c, x, y) && Preferred(c, y, z)
    ensures Preferred(c, x, z)
  {
  }

  lemma {:induction false} PreferredTotal(c: Config, x: Id, y: Id)
    requires ValidConfig(c) && (Number(x) != Number(y) || x.digest != y.digest)
    ensures Preferred(c, x, y) <==> !Preferred(c, y, x)
  {
  }

  lemma {:induction false} MaximumUnique(c: Config, x: Id, y: Id, bs: set<Id>)
    requires ValidConfig(c) && DistinctIds(bs) && IsMaximum(c, x, bs) && IsMaximum(c, y, bs)
    ensures x == y
  {
    if x != y {
      PreferredTotal(c, x, y);
    }
  }

  lemma {:induction false} BestIsMaximumOf(c: Config, best: Id, seen: set<Id>, arrivals: seq<Id>)
    requires ValidConfig(c) && IsMaximum(c, best, seen)
    requires DistinctIds(seen + set b | b in arrivals)
    ensures IsMaximum(c, BestAfter(c, best, arrivals), seen + set b | b in arrivals)
    decreases |arrivals|
  {
    if arrivals == [] {
      assert seen + (set b | b in arrivals) == seen;
    } else {
      var b := arrivals[0];
      var next := if Preferred(c, b, best) then b else best;
      NextMaximum(c, best, seen, b);
      assert seen + {b} + (set x | x in arrivals[1..]) == seen + set x | x in arrivals by {
        assert arrivals == [b] + arrivals[1..];
      }
      BestIsMaximumOf(c, next, seen + {b}, arrivals[1..]);
    }
  }

  lemma {:induction false} NextMaximum(c: Config, best: Id, seen: set<Id>, b: Id)
    requires ValidConfig(c) && IsMaximum(c, best, seen) && DistinctIds(seen + {b})
    ensures IsMaximum(c, if Preferred(c, b, best) then b else best, seen + {b})
  {
    if b != best {
      PreferredTotal(c, b, best);
    }
    if Preferred(c, b, best) {
      forall x | x in seen && x != b ensures Preferred(c, b, x) {
        if x != best {
          PreferredTrans(c, b, best, x);
        }
      }
    }
  }

  /** After any arrival order, the best block is the maximum by quality, total score and smaller id. */
  lemma {:induction false} BestIsMaximum(c: Config, first: Id, arrivals: seq<Id>)
    requires ValidConfig(c) && DistinctIds({first} + set b | b in arrivals)
    ensures IsMaximum(c, BestAfter(c, first, arrivals), {first} + set b | b in arrivals)
  {
    BestIsMaximumOf(c, first, {first}, arrivals);
  }

  /** The same blocks, in whatever order, lead to the same best block. */
  lemma {:induction false} ForkChoiceConfluent(c: Config, first: Id, xs: seq<Id>, ys: seq<Id>)
    requires ValidConfig(c) && DistinctIds({first} + set b | b in xs)
    requires forall b :: b in xs <==> b in ys
    ensures BestAfter(c, first, xs) == BestAfter(c, first, ys)
  {
    BestIsMaximum(c, first, xs);
    assert (set b | b in xs) == set b | b in ys;
    BestIsMaximum(c, first, ys);
    MaximumUnique(c, BestAfter(c, first, xs), BestAfter(c, first, ys), {first} + set b | b in xs);
  }

  // ---------- The best block and its descendants ----------

  /** A child of a block with a lower total score is preferred to it, if and only if it does not lose quality. */
  lemma {:induction false} ChildPreferredIff(b: Id, quality: nat, parentQuality: nat)
    requires b.Child? && b.parent.header.totalScore < b.header.totalScore
    ensures PreferredBy(b, quality, b.parent, parentQuality) <==> parentQuality <= quality
  {
    assert Number(b) == Number(b.parent) + 1;
  }

  /** Every block but the first has its parent among the blocks, a higher total score and no lower quality. */
  ghost predicate Rising(c: Config, first: Id, bs: set<Id>)
    requires ValidConfig(c)
  {
    forall b :: b in bs && b != first ==>
      b.Child? && b.parent in bs && b.parent.header.totalScore < b.header.totalScore && QualityOf(c, b.parent) <= QualityOf(c, b)
  }

  /** All of them descend from the first. */
  lemma {:induction false} AllDescend(c: Config, first: Id, bs: set<Id>, b: Id)
    requires ValidConfig(c) && Rising(c, first, bs) && b in bs
    ensures Number(first) <= Number(b)
    decreases b
  {
    if b != first {
      AllDescend(c, first, bs, b.parent);
    }
  }

  lemma {:induction false} DescendantPreferred(c: Config, first: Id, bs: set<Id>, a: Id, b: Id)
    requires ValidConfig(c) && Rising(c, first, bs) && a in bs && b in bs && StrictAncestor(a, b)
    ensures Preferred(c, b, a)
    decreases b
  {
    AllDescend(c, first, bs, a);
    ChildPreferredIff(b, QualityOf(c, b), QualityOf(c, b.parent));
    if a != b.parent {
      DescendantPreferred(c, first, bs, a, b.parent);
      PreferredTrans(c, b, b.parent, a);
    }
  }

  /** Where quality does not drop, the best block is never a strict ancestor of a block that has arrived. */
  lemma {:induction false} BestNotBehind(c: Config, first: Id, arrivals: seq<Id>, bs: set<Id>, b: Id)
    requires ValidConfig(c) && bs == {first} + set x | x in arrivals
    requires DistinctIds(bs) && Rising(c, first, bs) && b in bs
    ensures !StrictAncestor(BestAfter(c, first, arrivals), b)
  {
    var best := BestAfter(c, first, arrivals);
    BestIsMaximum(c, first, arrivals);
    if StrictAncestor(best, b) {
      DescendantPreferred(c, first, bs, best, b);
      PreferredTotal(c, best, b);
    }
  }

  /** In stable rounds quality does not drop. */
  lemma {:induction false} StableIsRising(c: Config, first: Id, bs: set<Id>)
    requires ValidConfig(c)
    requires forall b :: b in bs && b != first ==>
               b.Child? && b.parent in bs && b.parent.header.totalScore < b.header.totalScore && StableBlock(c, b) && StateOf(c, b).Ok?
    ensures Rising(c, first, bs)
  {
    forall b | b in bs && b != first ensures QualityOf(c, b.parent) <= QualityOf(c, b) {
      QualityNeverDrops(c, b);
    }
  }
}
