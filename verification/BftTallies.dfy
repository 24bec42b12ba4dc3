/**
 * The tallies that the engine can arrive at. It rebuilds a round backwards from some block, or extends a
 * tally that it kept for the parent. Where weights change inside a round these need not agree.
 */
module BftTallies {
  import opened Wrappers
  import opened BlockTree
  import opened BftVotes
  import opened BftRounds

  // ---------- Tallies ----------

  /** `k` is a height in the round of `b`, up to `b`, at which blocks are tallied. */
  ghost predicate InTally(c: Config, b: Id, k: nat)
    requires ValidConfig(c)
  {
    0 < k <= Number(b) && c.finality <= k && Checkpoint(c, k) == Checkpoint(c, Number(b))
  }

  /** The votes for `b` if the round was rebuilt at height `k`, and extended block by block from there. */
  ghost function TallyFrom(c: Config, b: Id, k: nat): Option<map<Address, Vote>>
    requires ValidConfig(c) && k <= Number(b)
    decreases b
  {
    if k == Number(b) then RoundVotes(c, b)
    else
      match TallyFrom(c, b.parent, k)
      case None => None
      case Some(votes) => if HasValidator(c, b) then Some(AddVote(votes, BallotOf(c, b))) else None
  }

  /** The ballots of the round up to `b`, oldest first. */
  ghost function RoundBallots(c: Config, b: Id): seq<Ballot>
    requires ValidConfig(c)
  {
    Reverse(Ballots(c, RoundBlocks(c, b)))
  }

  /** No signer changes its weight in the round up to `b`. */
  ghost predicate StableRound(c: Config, b: Id)
    requires ValidConfig(c)
  {
    Stable(Ballots(c, RoundBlocks(c, b)))
  }

  lemma {:induction false} RoundGrows(c: Config, b: Id)
    requires ValidConfig(c) && InRounds(c, b) && InRounds(c, b.parent) && Checkpoint(c, Number(b)) != Number(b)
    ensures Checkpoint(c, Number(b.parent)) == Checkpoint(c, Number(b))
    ensures RoundBlocks(c, b) == [b] + RoundBlocks(c, b.parent)
    ensures RoundBallots(c, b) == RoundBallots(c, b.parent) + [BallotOf(c, b)]
    ensures Validated(c, RoundBlocks(c, b)) <==> HasValidator(c, b) && Validated(c, RoundBlocks(c, b.parent))
  {
    ParentRound(c, b);
    RoundCons(c, b, RoundBlocks(c, b.parent));
    ReversePrepend(BallotOf(c, b), Ballots(c, RoundBlocks(c, b.parent)));
  }

  /** A tally rebuilt at `k` is a history of the round's ballots, with the turning point at `k`. */
  lemma {:induction false} TallyIsHistory(c: Config, b: Id, k: nat)
    requires ValidConfig(c) && InTally(c, b, k)
    ensures Number(b) - k <= |RoundBallots(c, b)|
    ensures TallyFrom(c, b, k) ==
              if Validated(c, RoundBlocks(c, b)) then Some(History(RoundBallots(c, b), |RoundBallots(c, b)| - (Number(b) - k))) else None
    decreases b
  {
    var bs := RoundBallots(c, b);
    if k == Number(b) {
      RoundVotesMeaning(c, b);
      ReverseTwice(Ballots(c, RoundBlocks(c, b)));
      assert bs[..|bs|] == bs && bs[|bs|..] == [] && Reverse(bs) + [] == Reverse(bs);
      FoldIsVotes(Reverse(bs));
    } else {
      CheckpointUnique(c, Number(b) - 1, Checkpoint(c, Number(b)));
      NotCheckpoint(c, b, k);
      RoundGrows(c, b);
      TallyIsHistory(c, b.parent, k);
      var before := RoundBallots(c, b.parent);
      HistoryAppend(before, BallotOf(c, b), |before| - (Number(b.parent) - k));
    }
  }

  lemma {:induction false} NotCheckpoint(c: Config, b: Id, k: nat)
    requires ValidConfig(c) && InTally(c, b, k) && k < Number(b)
    ensures Checkpoint(c, Number(b)) != Number(b) && InRounds(c, b) && InRounds(c, b.parent) && InTally(c, b.parent, k)
  {
    CheckpointUnique(c, Number(b) - 1, Checkpoint(c, k));
  }

  // ---------- When tallies agree ----------

  lemma {:induction false} StableReverse(bs: seq<Ballot>)
    ensures Stable(Reverse(bs)) <==> Stable(bs)
  {
    ReverseMembers(bs);
  }

  /** In a stable round the tally does not depend on where it was rebuilt. */
  lemma {:induction false} StableTally(c: Config, b: Id, k: nat)
    requires ValidConfig(c) && InTally(c, b, k) && StableRound(c, b)
    ensures TallyFrom(c, b, k) == RoundVotes(c, b)
  {
    var bs := RoundBallots(c, b);
    TallyIsHistory(c, b, k);
    TallyIsHistory(c, b, Number(b));
    StableReverse(Ballots(c, RoundBlocks(c, b)));
    HistoriesAgreeIffStable(bs);
    assert History(bs, |bs| - (Number(b) - k)) == Fold(bs) == History(bs, |bs|);
  }

  /** The lowest height in the round of `b` that is tallied. */
  ghost function Lowest(c: Config, b: Id): nat
    requires ValidConfig(c)
  {
    if Checkpoint(c, Number(b)) < c.finality then c.finality else Checkpoint(c, Number(b))
  }

  lemma {:induction false} WalkAt(c: Config, b: Id, end: nat, i: nat)
    requires end <= Number(b) && c.finality <= Number(b)
    requires i <= Number(b) - (if end < c.finality then c.finality else end)
    ensures |Walk(c, b, end)| == Number(b) - (if end < c.finality then c.finality else end) + 1
    ensures Walk(c, b, end)[i] == Ancestor(b, Number(b) - i)
    decreases b
  {
    if !(b.Genesis? || Number(b) <= end || Number(b) <= c.finality) {
      WalkAt(c, b.parent, end, if i > 0 then i - 1 else 0);
    }
  }

  /** The ballots of a round are those of its blocks, oldest first. */
  lemma {:induction false} BallotAt(c: Config, b: Id, i: nat)
    requires ValidConfig(c) && c.finality <= Number(b) && i <= Number(b) - Lowest(c, b)
    ensures |RoundBallots(c, b)| == Number(b) - Lowest(c, b) + 1 && RoundBallots(c, b)[i] == BallotOf(c, Ancestor(b, Lowest(c, b) + i))
  {
    var bs := Ballots(c, RoundBlocks(c, b));
    WalkAt(c, b, Checkpoint(c, Number(b)), Number(b) - Lowest(c, b) - i);
    ReverseAt(bs, i);
  }

  /** Genesis is not in the round of `b`, or nobody else in the round has its signer. */
  ghost predicate GenesisApart(c: Config, b: Id)
    requires ValidConfig(c)
  {
    0 < Lowest(c, b) || forall n: nat {:trigger Ancestor(b, n)} :: 0 < n <= Number(b) ==> Ancestor(b, n).header.signer != Root(b).header.signer
  }

  /** If all tallies agree, a ballot's weight is that of its signer in the round's votes. */
  lemma {:induction false} AgreedWeight(c: Config, b: Id, i: nat)
    requires ValidConfig(c) && InRounds(c, b) && Validated(c, RoundBlocks(c, b)) && i < |RoundBallots(c, b)|
    requires 0 < Lowest(c, b) + i && forall k :: InTally(c, b, k) ==> TallyFrom(c, b, k) == RoundVotes(c, b)
    ensures var v := RoundBallots(c, b)[i];
            RoundVotes(c, b).Some? && v.signer in RoundVotes(c, b).value && RoundVotes(c, b).value[v.signer].weight == v.weight
  {
    var k := Lowest(c, b) + i;
    BallotAt(c, b, 0);
    CheckpointUnique(c, k, Checkpoint(c, Number(b)));
    assert InTally(c, b, k);
    TallyIsHistory(c, b, k);
    HistoryWeight(RoundBallots(c, b), i);
  }

  /** Only genesis has its signer, if it is apart. */
  lemma {:induction false} GenesisAlone(c: Config, b: Id, i: nat)
    requires ValidConfig(c) && InRounds(c, b) && GenesisApart(c, b) && Lowest(c, b) == 0 && 0 < i < |RoundBallots(c, b)|
    ensures RoundBallots(c, b)[i].signer != RoundBallots(c, b)[0].signer
  {
    BallotAt(c, b, 0);
    BallotAt(c, b, i);
    AncestorZero(b);
  }

  lemma {:induction false} AgreedIsStable(c: Config, b: Id)
    requires ValidConfig(c) && InRounds(c, b) && GenesisApart(c, b) && Validated(c, RoundBlocks(c, b))
    requires forall k :: InTally(c, b, k) ==> TallyFrom(c, b, k) == RoundVotes(c, b)
    ensures Stable(RoundBallots(c, b))
  {
    var bs := RoundBallots(c, b);
    forall v, w | v in bs && w in bs && v.signer == w.signer ensures v.weight == w.weight {
      var i :| 0 <= i < |bs| && bs[i] == v;
      var j :| 0 <= j < |bs| && bs[j] == w;
      if i != j {
        if Lowest(c, b) == 0 && i == 0 {
          GenesisAlone(c, b, j);
        } else if Lowest(c, b) == 0 && j == 0 {
          GenesisAlone(c, b, i);
        } else {
          AgreedWeight(c, b, i);
          AgreedWeight(c, b, j);
        }
      }
    }
  }

  /**
   * Whichever mixture of rebuilding and extending produced them, all tallies of a block agree, if and only if no
   * signer changes its weight in the round up to the block.
   */
  lemma {:induction false} TalliesAgreeIffStable(c: Config, b: Id)
    requires ValidConfig(c) && InRounds(c, b) && GenesisApart(c, b) && Validated(c, RoundBlocks(c, b))
    ensures (forall k :: InTally(c, b, k) ==> TallyFrom(c, b, k) == RoundVotes(c, b)) <==> StableRound(c, b)
  {
    if StableRound(c, b) {
      forall k | InTally(c, b, k) ensures TallyFrom(c, b, k) == RoundVotes(c, b) {
        StableTally(c, b, k);
      }
    }
    if forall k :: InTally(c, b, k) ==> TallyFrom(c, b, k) == RoundVotes(c, b) {
      AgreedIsStable(c, b);
      StableReverse(Ballots(c, RoundBlocks(c, b)));
    }
  }

  // ---------- Weights that change at checkpoints only ----------

  /** What a signer weighs for a block at height `n`, given the state before the block. */
  function StakeOf(c: Config, n: nat, staker: Staker, signer: Address): nat {
    if UsesStake(c, n) && staker.posActive && signer in staker.weights then staker.weights[signer] else 0
  }

  /** In the round of `b`, stakes change with the checkpoint only, and count for all blocks after it or for none. */
  ghost predicate StakeMovesAtCheckpoint(c: Config, b: Id)
    requires ValidConfig(c)
  {
    var m := Checkpoint(c, Number(b));
    && (m < Number(b) ==> UsesStake(c, m + 1) == UsesStake(c, Number(b)))
    && forall n: nat {:trigger Ancestor(b, n)} :: m < n < Number(b) ==> Ancestor(b, n).header.staker == Ancestor(b, m).header.staker
  }

  /** After the checkpoint, a block's signer weighs what the checkpoint's state says. */
  lemma {:induction false} LaterBallot(c: Config, b: Id, n: nat)
    requires ValidConfig(c) && InRounds(c, b) && StakeMovesAtCheckpoint(c, b) && Checkpoint(c, Number(b)) < n <= Number(b)
    ensures var m, h := Checkpoint(c, Number(b)), Ancestor(b, n);
            BallotOf(c, h).weight == StakeOf(c, m + 1, Ancestor(b, m).header.staker, h.header.signer)
  {
    var m, h := Checkpoint(c, Number(b)), Ancestor(b, n);
    AncestorTwice(b, n, n - 1);
    assert Ancestor(h, n - 1) == h.parent;
  }

  /** Ballots after the checkpoint weigh what the checkpoint's state says; the checkpoint's own is the first, if it is tallied. */
  lemma {:induction false} BallotWeight(c: Config, b: Id, i: nat)
    requires ValidConfig(c) && InRounds(c, b) && StakeMovesAtCheckpoint(c, b) && i < |RoundBallots(c, b)|
    ensures var m, v := Checkpoint(c, Number(b)), RoundBallots(c, b)[i];
            && (m < Lowest(c, b) || i > 0 ==> v.weight == StakeOf(c, m + 1, Ancestor(b, m).header.staker, v.signer))
            && (m == Lowest(c, b) && i == 0 ==> v == BallotOf(c, Ancestor(b, m)))
  {
    BallotAt(c, b, 0);
    BallotAt(c, b, i);
    if Checkpoint(c, Number(b)) < Lowest(c, b) + i {
      LaterBallot(c, b, Lowest(c, b) + i);
    }
  }

  /** Somebody after the checkpoint has the checkpoint's signer. */
  ghost predicate SignsAgain(c: Config, b: Id)
    requires ValidConfig(c)
  {
    var m := Checkpoint(c, Number(b));
    exists n: nat {:trigger Ancestor(b, n)} :: m < n <= Number(b) && Ancestor(b, n).header.signer == Ancestor(b, m).header.signer
  }

  lemma {:induction false} SignsAgainIff(c: Config, b: Id)
    requires ValidConfig(c) && InRounds(c, b) && Lowest(c, b) == Checkpoint(c, Number(b))
    ensures SignsAgain(c, b) <==> exists i :: 0 < i < |RoundBallots(c, b)| && RoundBallots(c, b)[i].signer == RoundBallots(c, b)[0].signer
  {
    var m := Checkpoint(c, Number(b));
    BallotAt(c, b, 0);
    if n: nat :| m < n <= Number(b) && Ancestor(b, n).header.signer == Ancestor(b, m).header.signer {
      BallotAt(c, b, n - m);
    }
    if i :| 0 < i < |RoundBallots(c, b)| && RoundBallots(c, b)[i].signer == RoundBallots(c, b)[0].signer {
      BallotAt(c, b, i);
      assert Ancestor(b, m + i).header.signer == Ancestor(b, m).header.signer;
    }
  }

  /**
   * If stakes change at checkpoints only, the round of `b` is stable, if and only if its checkpoint is not tallied, or
   * the checkpoint's signer signs no other block of the round up to `b`, or weighs the same before and at the checkpoint.
   */
  lemma {:induction false} StableIffCheckpointSigner(c: Config, b: Id)
    requires ValidConfig(c) && InRounds(c, b) && StakeMovesAtCheckpoint(c, b)
    ensures var m := Checkpoint(c, Number(b));
            var first := Ancestor(b, m);
            StableRound(c, b) <==>
              || m < c.finality || !SignsAgain(c, b)
              || BallotOf(c, first).weight == StakeOf(c, m + 1, first.header.staker, first.header.signer)
  {
    var m := Checkpoint(c, Number(b));
    var first := Ancestor(b, m);
    var bs := RoundBallots(c, b);
    StableReverse(Ballots(c, RoundBlocks(c, b)));
    BallotAt(c, b, 0);
    if m < c.finality {
      LaterIsStable(c, b);
    } else {
      SignsAgainIff(c, b);
      BallotWeight(c, b, 0);
      if Stable(bs) && SignsAgain(c, b) {
        var i :| 0 < i < |bs| && bs[i].signer == bs[0].signer;
        BallotWeight(c, b, i);
        assert bs[i] in bs && bs[0] in bs;
      }
      if !SignsAgain(c, b) || BallotOf(c, first).weight == StakeOf(c, m + 1, first.header.staker, first.header.signer) {
        LaterIsStable(c, b);
      }
    }
  }

  lemma {:induction false} LaterIsStable(c: Config, b: Id)
    requires ValidConfig(c) && InRounds(c, b) && StakeMovesAtCheckpoint(c, b)
    requires var m := Checkpoint(c, Number(b));
             var first := Ancestor(b, m);
             || m < c.finality || !SignsAgain(c, b)
             || BallotOf(c, first).weight == StakeOf(c, m + 1, first.header.staker, first.header.signer)
    ensures Stable(RoundBallots(c, b))
  {
    var bs := RoundBallots(c, b);
    BallotAt(c, b, 0);
    if c.finality <= Checkpoint(c, Number(b)) {
      SignsAgainIff(c, b);
    }
    forall v, w | v in bs && w in bs && v.signer == w.signer ensures v.weight == w.weight {
      var i :| 0 <= i < |bs| && bs[i] == v;
      var j :| 0 <= j < |bs| && bs[j] == w;
      BallotWeight(c, b, i);
      BallotWeight(c, b, j);
    }
  }
}
