/**
 * A chain with one proposer, who always votes COM: the smallest run in which committing a valid block fails.
 */
module BftLateSibling {
  import opened Wrappers
  import opened BlockTree
  import opened BftVotes
  import opened BftRounds
  import opened BftTallies
  import opened BftAnswers
  import opened BftSearch
  import opened BftFinality

  const TWO_BLOCK_ROUNDS := Config(2, 0, 0, 0x1_0000)
  const SOLO := Header(1, true, 0, Staker(false, 0, map[], 1))

  /** Every block of the chain comes from the one proposer, at heights where stake does not count. */
  ghost predicate IsSolo(b: Id) {
    b.header == SOLO && Number(b) < 0x1_0000 && (b.Child? ==> IsSolo(b.parent))
  }

  lemma {:induction false} SoloAncestor(b: Id, n: nat)
    requires IsSolo(b) && n <= Number(b)
    ensures IsSolo(Ancestor(b, n))
  {
    if Number(b) != n {
      SoloAncestor(b.parent, n);
    }
  }

  lemma {:induction false} SoloWalk(b: Id, end: nat)
    requires IsSolo(b)
    ensures var bs := Walk(TWO_BLOCK_ROUNDS, b, end);
            bs != [] && Validated(TWO_BLOCK_ROUNDS, bs) && forall i :: 0 <= i < |bs| ==> BallotOf(TWO_BLOCK_ROUNDS, bs[i]) == Ballot(1, true, 0)
    decreases b
  {
    if !(b.Genesis? || Number(b) <= end || Number(b) <= TWO_BLOCK_ROUNDS.finality) {
      SoloWalk(b.parent, end);
    }
  }

  lemma {:induction false} SoloVotes(bs: seq<Ballot>)
    requires bs != [] && forall i :: 0 <= i < |bs| ==> bs[i] == Ballot(1, true, 0)
    ensures VotesOf(bs) == map[1 := Vote(true, 0)]
  {
    assert bs[0] in bs;
    assert Signers(bs) == {1};
  }

  /** The votes of a round are always the one proposer's. */
  lemma {:induction false} SoloRound(b: Id)
    requires IsSolo(b)
    ensures RoundVotes(TWO_BLOCK_ROUNDS, b) == Some(map[1 := Vote(true, 0)])
  {
    SoloWalk(b, Checkpoint(TWO_BLOCK_ROUNDS, Number(b)));
    RoundVotesMeaning(TWO_BLOCK_ROUNDS, b);
    SoloVotes(Ballots(TWO_BLOCK_ROUNDS, RoundBlocks(TWO_BLOCK_ROUNDS, b)));
  }

  lemma {:induction false} SoloSummary(quality: nat, checkpoint: nat)
    ensures Summary(Round(quality, checkpoint, 0, 0), map[1 := Vote(true, 0)]) == BftState(quality + 1, true, true)
  {
    var votes: map<Address, Vote> := map[1 := Vote(true, 0)];
    assert votes.Keys == {1} && ComSigners(votes) == {1};
  }

  lemma {:induction false} SoloStart(checkpoint: nat, quality: nat)
    ensures StartRound(checkpoint, quality, SOLO.staker) == Ok(Round(quality, checkpoint, 0, 0))
  {
    assert TwoThirds(1) == 0;
  }

  /** The state of every block: justified and committed, with one quality per round so far. */
  lemma {:induction false} SoloState(b: Id)
    requires IsSolo(b) && b.Child?
    ensures StateOf(TWO_BLOCK_ROUNDS, b).Ok?
    ensures var st := StateOf(TWO_BLOCK_ROUNDS, b).value;
            st.justified && st.committed && 2 * st.quality == Checkpoint(TWO_BLOCK_ROUNDS, Number(b)) + 2
    decreases Number(b)
  {
    var c := TWO_BLOCK_ROUNDS;
    var last := LastBefore(c, b);
    SoloRound(b);
    SoloAncestor(b.parent, Number(last));
    CheckpointUnique(c, 0, 0);
    var quality := if Checkpoint(c, Number(b)) == 0 then 0 else QualityOf(c, last);
    SoloStart(Checkpoint(c, Number(b)), quality);
    SoloSummary(quality, Checkpoint(c, Number(b)));
    assert RoundOf(c, b) == Ok(Round(quality, Checkpoint(c, Number(b)), 0, 0));
    assert StateOf(c, b) == StateInRound(c, b) == Ok(BftState(quality + 1, true, true));
    if Checkpoint(c, Number(b)) != 0 {
      CheckpointBelow(Number(b));
      SoloState(last);
    }
  }

  /** The last block before a later round is in the round before. */
  lemma {:induction false} CheckpointBelow(n: nat)
    requires Checkpoint(TWO_BLOCK_ROUNDS, n) != 0
    ensures var m := Checkpoint(TWO_BLOCK_ROUNDS, n);
            m >= 2 && Checkpoint(TWO_BLOCK_ROUNDS, m - 1) == m - 2
  {
    var c := TWO_BLOCK_ROUNDS;
    MultipleStep(c, Checkpoint(c, n));
    CheckpointUnique(c, Checkpoint(c, n) - 1, Checkpoint(c, n) - 2);
  }

  // ---------- Committing such blocks ----------

  /** The state from scratch; there is no other answer for these blocks. */
  ghost function StepOf(b: Id): Step
    requires IsSolo(b) && b.Child?
  {
    SoloState(b);
    Step(b, StateOf(TWO_BLOCK_ROUNDS, b).value)
  }

  /** What is saved is sound and exact, and the chain of `b` is concluded. */
  ghost predicate Solid(node: Node, b: Id) {
    && SavedSound(TWO_BLOCK_ROUNDS, node.saved) && SavedExact(TWO_BLOCK_ROUNDS, node.saved)
    && Concluded(TWO_BLOCK_ROUNDS, node.saved, b)
  }

  lemma {:induction false} SoloAnswer(node: Node, b: Id)
    requires IsSolo(b) && b.Child? && Solid(node, b.parent)
    ensures Based(TWO_BLOCK_ROUNDS, node.saved, b)
    ensures IsAnswer(TWO_BLOCK_ROUNDS, node.saved, b, Ok(StepOf(b).state))
  {
    var c := TWO_BLOCK_ROUNDS;
    SavedChildren(c, node.saved);
    ConcludedBase(c, node.saved, b);
    ExactSavedBase(c, node.saved, b);
    ScratchState(c, node.saved, b);
    SoloState(b);
    assert InRounds(c, b) && InTally(c, b, Number(b)) && Ok(StepOf(b).state) == StateFrom(c, node.saved, b, Number(b));
  }

  /** Such a block commits if it is new and accepted, and leaves everything solid. */
  lemma {:induction false} SoloCommits(node: Node, b: Id)
    requires IsSolo(b) && b.Child? && b !in node.saved && Solid(node, b.parent)
    requires Root(b) == Root(node.finalized) && Accepted(node.finalized, b.parent)
    ensures Commits(TWO_BLOCK_ROUNDS, node, StepOf(b)) && Solid(Commit(TWO_BLOCK_ROUNDS, node, StepOf(b)), b)
  {
    var c := TWO_BLOCK_ROUNDS;
    SoloAnswer(node, b);
    CommitKeepsSound(c, node, StepOf(b));
    SoloState(b);
    ConcludedNext(c, node.saved, Commit(c, node, StepOf(b)).saved, b);
  }

  lemma {:induction false} SoloQualityAt(node: Node, b: Id, m: nat)
    requires IsSolo(b) && Solid(node, b) && Multiple(TWO_BLOCK_ROUNDS, m) && m + 1 <= Number(b)
    ensures 2 * QualityAt(TWO_BLOCK_ROUNDS, node.saved, m, b) == m + 2
  {
    MultipleStep(TWO_BLOCK_ROUNDS, m);
    SoloAncestor(b, m + 1);
    SoloState(Ancestor(b, m + 1));
    RoundEnd(TWO_BLOCK_ROUNDS, m);
  }

  /** While genesis is finalized, the end of a later round finalizes the checkpoint of the round before. */
  lemma {:induction false} SoloFinalizes(node: Node, b: Id)
    requires IsSolo(b) && b.Child? && Solid(node, b)
    requires Multiple(TWO_BLOCK_ROUNDS, Number(b) + 1) && Checkpoint(TWO_BLOCK_ROUNDS, Number(b)) >= 2
    ensures Finalizes(TWO_BLOCK_ROUNDS, b, StepOf(b).state)
    ensures forall f :: Number(f) == 0 ==>
              NextFinalized(TWO_BLOCK_ROUNDS, node.saved, f, b, StepOf(b).state) == Ancestor(b, Checkpoint(TWO_BLOCK_ROUNDS, Number(b)) - 2)
  {
    var c := TWO_BLOCK_ROUNDS;
    SoloState(b);
    CheckpointUnique(c, 0, 0);
    MultipleStep(c, 0);
    EndsRound(c, Number(b));
    var target := StepOf(b).state.quality - 1;
    SoloQualityAt(node, b, 0);
    SoloQualityAt(node, b, Checkpoint(c, Number(b)));
    CheckpointFoundIff(c, node.saved, target, 0, b);
    CheckpointForIsFirst(c, node.saved, target, 0, b);
    SoloQualityAt(node, b, Number(CheckpointFor(c, node.saved, target, 0, b).value));
  }

  lemma {:induction false} SoloSkips(node: Node, b: Id)
    requires IsSolo(b) && b.Child? && (!Multiple(TWO_BLOCK_ROUNDS, Number(b) + 1) || Checkpoint(TWO_BLOCK_ROUNDS, Number(b)) == 0)
    ensures Commit(TWO_BLOCK_ROUNDS, node, StepOf(b)).finalized == node.finalized
  {
    SoloState(b);
  }

  // ---------- The run ----------

  function Next(parent: Id, digest: nat): Id {
    Child(parent, digest, SOLO)
  }

  /** Blocks 1 to 5. */
  function Chain(genesis: Id): (bs: seq<Id>)
    ensures |bs| == 5
  {
    var b1 := Next(genesis, 0);
    var b2 := Next(b1, 0);
    var b3 := Next(b2, 0);
    var b4 := Next(b3, 0);
    [b1, b2, b3, b4, Next(b4, 0)]
  }

  lemma {:induction false} Heights()
    ensures !Multiple(TWO_BLOCK_ROUNDS, 3) && !Multiple(TWO_BLOCK_ROUNDS, 5)
    ensures Multiple(TWO_BLOCK_ROUNDS, 2) && Multiple(TWO_BLOCK_ROUNDS, 4) && Multiple(TWO_BLOCK_ROUNDS, 6)
    ensures Checkpoint(TWO_BLOCK_ROUNDS, 1) == 0 && Checkpoint(TWO_BLOCK_ROUNDS, 3) == 2 && Checkpoint(TWO_BLOCK_ROUNDS, 5) == 4
  {
    var c := TWO_BLOCK_ROUNDS;
    MultipleStep(c, 0);
    MultipleStep(c, 2);
    MultipleStep(c, 4);
    MultipleStep(c, 1);
    MultipleStep(c, 3);
    CheckpointUnique(c, 1, 0);
    CheckpointUnique(c, 3, 2);
    CheckpointUnique(c, 5, 4);
  }

  lemma {:induction false} Solos(genesis: Id, digest: nat)
    requires genesis == Genesis(0, SOLO)
    ensures var bs := Chain(genesis);
            && (forall i :: 0 <= i < 5 ==> IsSolo(bs[i]) && bs[i].Child? && Number(bs[i]) == i + 1 && Root(bs[i]) == genesis)
            && IsSolo(Next(bs[1], digest)) && Number(Next(bs[1], digest)) == 3 && Root(Next(bs[1], digest)) == genesis
            && Ancestor(bs[2], 0) == genesis && Ancestor(bs[4], 2) == bs[1]
  {
    var bs := Chain(genesis);
    assert IsSolo(genesis);
    assert IsSolo(bs[0]) && Number(bs[0]) == 1 && Root(bs[0]) == genesis;
    assert IsSolo(bs[1]) && Number(bs[1]) == 2 && Root(bs[1]) == genesis;
    assert IsSolo(bs[2]) && Number(bs[2]) == 3 && Root(bs[2]) == genesis;
    assert IsSolo(bs[3]) && Number(bs[3]) == 4 && Root(bs[3]) == genesis;
    assert IsSolo(bs[4]) && Number(bs[4]) == 5 && Root(bs[4]) == genesis;
    AncestorZero(bs[2]);
    assert Ancestor(bs[2], 2) == bs[1] && Ancestor(bs[3], 2) == bs[1];
  }

  /** Only ancestors of `b` are saved. */
  ghost predicate SavedOn(node: Node, b: Id) {
    forall x :: x in node.saved ==> IsAncestor(x, b)
  }

  lemma {:induction false} SavedOnNext(node: Node, s: Step)
    requires s.block.Child? && SavedOn(node, s.block.parent)
    ensures s.block !in node.saved && SavedOn(Commit(TWO_BLOCK_ROUNDS, node, s), s.block)
  {
    var b := s.block;
    forall x | x in node.saved ensures IsAncestor(x, b) {
      assert Ancestor(b, Number(x)) == Ancestor(b.parent, Number(x));
    }
    assert b in node.saved ==> IsAncestor(b, b.parent);
  }

  /** `steps` lead from genesis to `node` and committed the chain of `b`. */
  ghost predicate Reaches(genesis: Id, steps: seq<Step>, node: Node, b: Id) {
    && IsRun(TWO_BLOCK_ROUNDS, Node(map[], genesis), steps)
    && Nodes(TWO_BLOCK_ROUNDS, Node(map[], genesis), steps)[|steps|] == node
    && Solid(node, b) && SavedOn(node, b)
  }

  /** What is finalized after `b`, as long as genesis was. */
  ghost predicate FinalizedAfter(genesis: Id, b: Id, finalized: Id) {
    if !Multiple(TWO_BLOCK_ROUNDS, Number(b) + 1) || Checkpoint(TWO_BLOCK_ROUNDS, Number(b)) == 0 then finalized == genesis
    else 2 <= Checkpoint(TWO_BLOCK_ROUNDS, Number(b)) && finalized == Ancestor(b, Checkpoint(TWO_BLOCK_ROUNDS, Number(b)) - 2)
  }

  lemma {:induction false} FinalizedNext(genesis: Id, node: Node, b: Id, finalized: Id)
    requires IsSolo(b) && b.Child? && Number(genesis) == 0 && node.finalized == genesis && FinalizedAfter(genesis, b, finalized)
    requires Solid(Commit(TWO_BLOCK_ROUNDS, node, StepOf(b)), b)
    ensures Commit(TWO_BLOCK_ROUNDS, node, StepOf(b)).finalized == finalized
  {
    if !Multiple(TWO_BLOCK_ROUNDS, Number(b) + 1) || Checkpoint(TWO_BLOCK_ROUNDS, Number(b)) == 0 {
      SoloSkips(node, b);
    } else {
      SoloFinalizes(Commit(TWO_BLOCK_ROUNDS, node, StepOf(b)), b);
    }
  }

  /** One more step, as long as genesis is finalized. */
  lemma {:induction false} ReachNext(genesis: Id, steps: seq<Step>, node: Node, b: Id, finalized: Id) returns (next: Node)
    requires IsSolo(b) && b.Child? && genesis.Genesis? && Root(b) == genesis
    requires Reaches(genesis, steps, node, b.parent) && node.finalized == genesis && FinalizedAfter(genesis, b, finalized)
    ensures Reaches(genesis, steps + [StepOf(b)], next, b) && next.finalized == finalized
  {
    SavedOnNext(node, StepOf(b));
    SoloCommits(node, b);
    next := Commit(TWO_BLOCK_ROUNDS, node, StepOf(b));
    FinalizedNext(genesis, node, b, finalized);
    RunAppend(TWO_BLOCK_ROUNDS, Node(map[], genesis), steps, StepOf(b));
  }

  /** Committing the five blocks in a row. */
  ghost function FiveSteps(genesis: Id): (steps: seq<Step>)
    requires genesis == Genesis(0, SOLO)
    ensures |steps| == 5
  {
    Solos(genesis, 0);
    var bs := Chain(genesis);
    [StepOf(bs[0])] + [StepOf(bs[1])] + [StepOf(bs[2])] + [StepOf(bs[3])] + [StepOf(bs[4])]
  }

  /** The five blocks, committed in a row after genesis, finalize block 2. */
  lemma {:induction false} FiveBlocks(genesis: Id) returns (node: Node)
    requires genesis == Genesis(0, SOLO)
    ensures Reaches(genesis, FiveSteps(genesis), node, Chain(genesis)[4]) && node.finalized == Chain(genesis)[1]
  {
    var bs := Chain(genesis);
    Heights();
    Solos(genesis, 0);
    var start := Node(map[], genesis);
    assert Reaches(genesis, [], start, genesis);
    node := ReachNext(genesis, [], start, bs[0], genesis);
    assert [] + [StepOf(bs[0])] == [StepOf(bs[0])];
    node := ReachNext(genesis, [StepOf(bs[0])], node, bs[1], genesis);
    node := ReachNext(genesis, [StepOf(bs[0])] + [StepOf(bs[1])], node, bs[2], genesis);
    node := ReachNext(genesis, [StepOf(bs[0])] + [StepOf(bs[1])] + [StepOf(bs[2])], node, bs[3], genesis);
    node := ReachNext(genesis, [StepOf(bs[0])] + [StepOf(bs[1])] + [StepOf(bs[2])] + [StepOf(bs[3])], node, bs[4], bs[1]);
  }

  /**
   * Five blocks in a row finalize block 2. A sibling of block 3 is accepted after that, ends the round of
   * block 2 and commits it, and there is nothing left to finalize for it: committing it fails.
   */
  lemma {:induction false} LateSiblingFails(genesis: Id, digest: nat)
    requires genesis == Genesis(0, SOLO) && digest != 0
    ensures var bs := Chain(genesis);
            var late := Next(bs[1], digest);
            var start := Node(map[], genesis);
            && IsSolo(late) && IsRun(TWO_BLOCK_ROUNDS, start, FiveSteps(genesis) + [StepOf(late)])
            && Nodes(TWO_BLOCK_ROUNDS, start, FiveSteps(genesis))[5].finalized == bs[1]
            && FinalizationFails(TWO_BLOCK_ROUNDS, bs[1], late, StepOf(late).state)
  {
    var late := Next(Chain(genesis)[1], digest);
    Heights();
    Solos(genesis, digest);
    var node := FiveBlocks(genesis);
    LateCommits(node, genesis, digest);
    SoloFinalizes(Commit(TWO_BLOCK_ROUNDS, node, StepOf(late)), late);
    RunAppend(TWO_BLOCK_ROUNDS, Node(map[], genesis), FiveSteps(genesis), StepOf(late));
  }

  lemma {:induction false} LateCommits(node: Node, genesis: Id, digest: nat)
    requires genesis == Genesis(0, SOLO) && digest != 0
    requires node.finalized == Chain(genesis)[1] && Solid(node, Chain(genesis)[4]) && SavedOn(node, Chain(genesis)[4])
    ensures var late := Next(Chain(genesis)[1], digest);
            && IsSolo(late) && Commits(TWO_BLOCK_ROUNDS, node, StepOf(late))
            && Solid(Commit(TWO_BLOCK_ROUNDS, node, StepOf(late)), late)
  {
    var bs := Chain(genesis);
    var late := Next(bs[1], digest);
    Solos(genesis, digest);
    ConcludedBelow(TWO_BLOCK_ROUNDS, node.saved, bs[4], 2);
    assert Ancestor(bs[3], 3) == bs[2];
    SoloCommits(node, late);
  }
}
